/**
 * Opening accounts, looking them up and changing their status. New account
 * numbers are drawn at random until one is unused; the random draws are a
 * parameter here.
 */
module AccountService {
  import opened Wrappers
  import opened Model
  import opened History
  import opened Ledger

  /** Draws are uniform in [0, AccountNumberBound). */
  const AccountNumberBound: nat := 1000000000

  /** Account numbers are printed with this many digits, zero-padded. */
  const AccountNumberWidth: nat := 10

  function Pow10(k: nat): nat {
    if k == 0 then 1 else 10 * Pow10(k - 1)
  }

  predicate IsDigit(c: char) {
    '0' <= c <= '9'
  }

  function DigitValue(c: char): (d: nat)
    requires IsDigit(c)
    ensures d < 10
  {
    c as int - '0' as int
  }

  /** The last `width` decimal digits of `n`, most significant first. */
  function ZeroPadded(n: nat, width: nat): (s: string)
    ensures |s| == width
    ensures forall i :: 0 <= i < |s| ==> IsDigit(s[i])
  {
    if width == 0 then "" else ZeroPadded(n / 10, width - 1) + [('0' as int + n % 10) as char]
  }

  /** The number a string of decimal digits denotes. */
  function DigitsValue(s: string): nat
    requires forall i :: 0 <= i < |s| ==> IsDigit(s[i])
  {
    if s == [] then 0 else DigitsValue(s[..|s| - 1]) * 10 + DigitValue(s[|s| - 1])
  }

  /** Padding loses nothing when the number fits in the width. */
  lemma {:induction false} ZeroPaddedValue(n: nat, width: nat)
    requires n < Pow10(width)
    ensures DigitsValue(ZeroPadded(n, width)) == n
  {
    if width > 0 {
      var q := n / 10;
      assert q < Pow10(width - 1);
      ZeroPaddedValue(q, width - 1);
      var s := ZeroPadded(n, width);
      assert s[..|s| - 1] == ZeroPadded(q, width - 1);
      assert DigitsValue(s) == q * 10 + n % 10;
    }
  }

  /** A number below 10^(width-1) is printed with a leading zero. */
  lemma {:induction false} ZeroPaddedLeadingZero(n: nat, width: nat)
    requires width >= 1 && n < Pow10(width - 1)
    ensures ZeroPadded(n, width)[0] == '0'
  {
    if width > 1 {
      assert n / 10 < Pow10(width - 2);
      ZeroPaddedLeadingZero(n / 10, width - 1);
    }
  }

  /** The account number printed for a random draw: ten digits, zero-padded. */
  function AccountNumberOf(draw: nat): (s: string)
    requires draw < AccountNumberBound
    ensures |s| == AccountNumberWidth && s[0] == '0'
    ensures forall i :: 0 <= i < |s| ==> IsDigit(s[i])
    ensures DigitsValue(s) == draw
  {
    assert Pow10(9) == AccountNumberBound;
    ZeroPaddedValue(draw, AccountNumberWidth);
    ZeroPaddedLeadingZero(draw, AccountNumberWidth);
    ZeroPadded(draw, AccountNumberWidth)
  }

  /** Different draws print as different account numbers. */
  lemma AccountNumberInjective(d1: nat, d2: nat)
    requires d1 < AccountNumberBound && d2 < AccountNumberBound
    ensures AccountNumberOf(d1) == AccountNumberOf(d2) <==> d1 == d2
  {
  }

  /**
   * Redraws until the printed number is not in the account table. `draws`
   * is the stream of random values; `k` is the index of the one kept.
   */
  method GenerateAccountNumber(store: Store, draws: seq<nat>) returns (k: nat, accountNumber: string)
    requires forall i :: 0 <= i < |draws| ==> draws[i] < AccountNumberBound
    requires exists i :: 0 <= i < |draws| && AccountNumberOf(draws[i]) !in store.accounts
    ensures k < |draws| && accountNumber == AccountNumberOf(draws[k])
    ensures accountNumber !in store.accounts
    ensures forall j :: 0 <= j < k ==> AccountNumberOf(draws[j]) in store.accounts
  {
    k := 0;
    accountNumber := AccountNumberOf(draws[0]);
    while accountNumber in store.accounts
      invariant k < |draws| && accountNumber == AccountNumberOf(draws[k])
      invariant forall j :: 0 <= j <= k ==> AccountNumberOf(draws[j]) in store.accounts || j == k
      invariant exists i :: k <= i < |draws| && AccountNumberOf(draws[i]) !in store.accounts
      decreases |draws| - k
    {
      k := k + 1;
      accountNumber := AccountNumberOf(draws[k]);
    }
  }

  method CreateAccount(store: Store, customerId: int, accountType: AccountType, initialDeposit: int,
                       draws: seq<nat>, id: int, now: int) returns (r: Result<Account, Error>)
    requires store.Valid()
    requires id !in store.AccountIds()
    requires forall i :: 0 <= i < |draws| ==> draws[i] < AccountNumberBound
    requires exists i :: 0 <= i < |draws| && AccountNumberOf(draws[i]) !in store.accounts
    modifies store
    ensures store.Valid()
    ensures store.customers == old(store.customers) && store.log == old(store.log)
    ensures r.Success? <==> customerId in old(store.customers) && initialDeposit >= 0
    ensures customerId !in old(store.customers) ==> r == Failure(CustomerNotFound(customerId))
    ensures customerId in old(store.customers) && initialDeposit < 0 ==> r == Failure(InvalidAmount(initialDeposit))
    ensures r.Failure? ==> store.accounts == old(store.accounts)
    ensures r.Success? ==>
      var a := r.value;
      && fresh(a)
      && a.id == id && a.accountType == accountType && a.customerId == customerId && a.createdAt == now
      && a.balance == initialDeposit && a.status == Active
      && a.accountNumber !in old(store.accounts)
      && (exists k :: 0 <= k < |draws| && a.accountNumber == AccountNumberOf(draws[k])
                      && forall j :: 0 <= j < k ==> AccountNumberOf(draws[j]) in old(store.accounts))
      && store.accounts == old(store.accounts)[a.accountNumber := a]
      && store.balances == old(store.balances)[a.accountNumber := initialDeposit]
      && store.LegsOf(a.id) == []
  {
    if customerId !in store.customers {
      return Failure(CustomerNotFound(customerId));
    }
    if initialDeposit < 0 {
      return Failure(InvalidAmount(initialDeposit));
    }
    var _, accountNumber := GenerateAccountNumber(store, draws);
    var account := new Account(id, accountNumber, accountType, initialDeposit, customerId, Active, now);
    store.Open(account);
    r := Success(account);
  }

  function GetAccountById(store: Store, id: int): (r: Result<Account, Error>)
    reads store, store.accounts.Values
    requires store.Valid()
    ensures r.Success? <==> id in store.AccountIds()
    ensures r.Success? ==> r.value.id == id && r.value.accountNumber in store.accounts
                           && store.accounts[r.value.accountNumber] == r.value
    ensures r.Failure? ==> r.error == AccountIdNotFound(id)
  {
    if exists n :: n in store.accounts && store.accounts[n].id == id then
      AccountIdsUnique(store.accounts);
      var n :| n in store.accounts && store.accounts[n].id == id;
      Success(store.accounts[n])
    else
      Failure(AccountIdNotFound(id))
  }

  function GetAccountByNumber(store: Store, accountNumber: string): (r: Result<Account, Error>)
    reads store, store.accounts.Values
    requires store.Valid()
    ensures r.Success? <==> accountNumber in store.accounts
    ensures r.Success? ==> r.value == store.accounts[accountNumber] && r.value.accountNumber == accountNumber
    ensures r.Failure? ==> r.error == AccountNotFound(accountNumber)
  {
    if accountNumber in store.accounts then Success(store.accounts[accountNumber])
    else Failure(AccountNotFound(accountNumber))
  }

  /** The accounts owned by a customer; possibly none. */
  function GetAccountsByCustomerId(store: Store, customerId: int): (r: set<Account>)
    reads store
    ensures r <= store.accounts.Values
    ensures forall n :: n in store.accounts ==> (store.accounts[n] in r <==> store.accounts[n].customerId == customerId)
  {
    set n | n in store.accounts && store.accounts[n].customerId == customerId :: store.accounts[n]
  }

  function GetBalance(store: Store, accountNumber: string): (r: Result<int, Error>)
    reads store, store.accounts.Values
    requires store.Valid()
    ensures r.Success? <==> accountNumber in store.accounts
    ensures r.Success? ==> r.value == store.accounts[accountNumber].balance && r.value >= 0
    ensures r.Failure? ==> r.error == AccountNotFound(accountNumber)
  {
    match GetAccountByNumber(store, accountNumber)
    case Success(a) => Success(a.balance)
    case Failure(e) => Failure(e)
  }

  /** Overwrites the status with any value, closed to active included. */
  method UpdateAccountStatus(store: Store, accountNumber: string, status: AccountStatus)
    returns (r: Result<Account, Error>)
    requires store.Valid()
    modifies store.accounts.Values
    ensures store.Valid()
    ensures r.Success? <==> accountNumber in store.accounts
    ensures r.Failure? ==> r.error == AccountNotFound(accountNumber) && store.Statuses() == old(store.Statuses())
    ensures r.Success? ==> r.value == store.accounts[accountNumber] && r.value.status == status
                           && store.Statuses() == old(store.Statuses())[accountNumber := status]
    ensures store.balances == old(store.balances)
  {
    if accountNumber !in store.accounts {
      return Failure(AccountNotFound(accountNumber));
    }
    var account := store.accounts[accountNumber];
    account.status := status;
    r := Success(account);
  }

  /** Closes an account whose balance is exactly zero. */
  method CloseAccount(store: Store, accountNumber: string) returns (r: Result<bool, Error>)
    requires store.Valid()
    modifies store.accounts.Values
    ensures store.Valid()
    ensures accountNumber !in store.accounts ==> r == Failure(AccountNotFound(accountNumber))
    ensures accountNumber in store.accounts && old(store.accounts[accountNumber].balance) != 0 ==>
              r == Failure(NonZeroBalance(old(store.accounts[accountNumber].balance)))
    ensures r.Success? <==> accountNumber in store.accounts && old(store.accounts[accountNumber].balance) == 0
    ensures r.Failure? ==> store.Statuses() == old(store.Statuses())
    ensures r.Success? ==> r.value && store.Statuses() == old(store.Statuses())[accountNumber := Closed]
    ensures store.balances == old(store.balances)
  {
    if accountNumber !in store.accounts {
      return Failure(AccountNotFound(accountNumber));
    }
    var account := store.accounts[accountNumber];
    if account.balance != 0 {
      return Failure(NonZeroBalance(account.balance));
    }
    account.status := Closed;
    r := Success(true);
  }
}
