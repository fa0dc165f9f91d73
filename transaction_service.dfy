/**
 * Deposits, withdrawals and transfers, and the three read-only history
 * queries. Every check runs before the first balance is touched, so a call
 * that fails leaves the store as it was. Transaction ids, normally random,
 * and the clock are parameters.
 */
module TransactionService {
  import opened Wrappers
  import opened Model
  import opened History
  import opened Ledger

  method Deposit(store: Store, accountNumber: string, amount: int, description: string,
                 transactionId: string, now: int) returns (r: Result<Transaction, Error>)
    requires store.Valid()
    requires UnusedTransactionId(store.log, transactionId) && NotBefore(store.log, now)
    modifies store, store.accounts.Values`balance
    ensures store.Valid()
    ensures store.customers == old(store.customers) && store.accounts == old(store.accounts)
    ensures r.Success? <==>
              amount > 0 && accountNumber in store.accounts && old(store.accounts[accountNumber].status) == Active
    ensures amount <= 0 ==> r == Failure(InvalidAmount(amount))
    ensures amount > 0 && accountNumber !in store.accounts ==> r == Failure(AccountNotFound(accountNumber))
    ensures amount > 0 && accountNumber in store.accounts && old(store.accounts[accountNumber].status) != Active ==>
              r == Failure(NotActive(Own))
    ensures r.Failure? ==> store.log == old(store.log) && store.balances == old(store.balances)
    ensures r.Success? ==>
      var a := store.accounts[accountNumber];
      && a.balance == old(a.balance) + amount
      && store.balances == old(store.balances)[accountNumber := a.balance]
      && r.value == NewTransaction(transactionId, TransactionType.Deposit, amount, description, a, a.balance, now)
      && store.log == old(store.log) + [r.value]
  {
    if amount <= 0 {
      return Failure(InvalidAmount(amount));
    }
    if accountNumber !in store.accounts {
      return Failure(AccountNotFound(accountNumber));
    }
    var account := store.accounts[accountNumber];
    if account.status != Active {
      return Failure(NotActive(Own));
    }
    var t := NewTransaction(transactionId, TransactionType.Deposit, amount, description, account, account.balance + amount, now);
    store.Post(accountNumber, t);
    r := Success(t);
  }

  method Withdraw(store: Store, accountNumber: string, amount: int, description: string,
                  transactionId: string, now: int) returns (r: Result<Transaction, Error>)
    requires store.Valid()
    requires UnusedTransactionId(store.log, transactionId) && NotBefore(store.log, now)
    modifies store, store.accounts.Values`balance
    ensures store.Valid()
    ensures store.customers == old(store.customers) && store.accounts == old(store.accounts)
    ensures r.Success? <==>
              && amount > 0 && accountNumber in store.accounts
              && old(store.accounts[accountNumber].status) == Active
              && old(store.accounts[accountNumber].balance) >= amount
    ensures amount <= 0 ==> r == Failure(InvalidAmount(amount))
    ensures amount > 0 && accountNumber !in store.accounts ==> r == Failure(AccountNotFound(accountNumber))
    ensures amount > 0 && accountNumber in store.accounts && old(store.accounts[accountNumber].status) != Active ==>
              r == Failure(NotActive(Own))
    ensures amount > 0 && accountNumber in store.accounts && old(store.accounts[accountNumber].status) == Active
            && old(store.accounts[accountNumber].balance) < amount ==>
              r == Failure(InsufficientBalance(old(store.accounts[accountNumber].balance), amount))
    ensures r.Failure? ==> store.log == old(store.log) && store.balances == old(store.balances)
    ensures r.Success? ==>
      var a := store.accounts[accountNumber];
      && a.balance == old(a.balance) - amount >= 0
      && store.balances == old(store.balances)[accountNumber := a.balance]
      && r.value == NewTransaction(transactionId, TransactionType.Withdrawal, amount, description, a, a.balance, now)
      && store.log == old(store.log) + [r.value]
  {
    if amount <= 0 {
      return Failure(InvalidAmount(amount));
    }
    if accountNumber !in store.accounts {
      return Failure(AccountNotFound(accountNumber));
    }
    var account := store.accounts[accountNumber];
    if account.status != Active {
      return Failure(NotActive(Own));
    }
    if account.balance < amount {
      return Failure(InsufficientBalance(account.balance, amount));
    }
    var t := NewTransaction(transactionId, TransactionType.Withdrawal, amount, description, account, account.balance - amount, now);
    store.Post(accountNumber, t);
    r := Success(t);
  }

  /** A transfer leg: the constructor's record with both counterparty numbers filled in. */
  function Leg(transactionId: string, kind: TransactionType, amount: int, description: string,
               account: Account, balanceAfter: int, now: int, from: string, to: string): (t: Transaction)
    ensures t.transactionId == transactionId && t.kind == kind && t.amount == amount
    ensures t.description == description && t.timestamp == now
    ensures t.accountId == account.id && t.balanceAfter == balanceAfter
    ensures t.toAccountNumber == Some(to) && t.fromAccountNumber == Some(from)
  {
    NewTransaction(transactionId, kind, amount, description, account, balanceAfter, now)
      .(toAccountNumber := Some(to), fromAccountNumber := Some(from))
  }

  method Transfer(store: Store, from: string, to: string, amount: int, description: string,
                  outId: string, inId: string, now: int) returns (r: Result<seq<Transaction>, Error>)
    requires store.Valid()
    requires UnusedTransactionId(store.log, outId) && UnusedTransactionId(store.log, inId) && outId != inId
    requires NotBefore(store.log, now)
    modifies store, store.accounts.Values`balance
    ensures store.Valid()
    ensures store.customers == old(store.customers) && store.accounts == old(store.accounts)
    ensures r.Success? <==>
              && amount > 0 && from != to && from in store.accounts && to in store.accounts
              && old(store.accounts[from].status) == Active && old(store.accounts[to].status) == Active
              && old(store.accounts[from].balance) >= amount
    ensures amount <= 0 ==> r == Failure(InvalidAmount(amount))
    ensures amount > 0 && from == to ==> r == Failure(SameAccount(from))
    ensures amount > 0 && from != to && from !in store.accounts ==> r == Failure(AccountNotFound(from))
    ensures amount > 0 && from != to && from in store.accounts && to !in store.accounts ==>
              r == Failure(AccountNotFound(to))
    ensures amount > 0 && from != to && from in store.accounts && to in store.accounts ==>
              && (old(store.accounts[from].status) != Active ==> r == Failure(NotActive(Source)))
              && (old(store.accounts[from].status) == Active && old(store.accounts[to].status) != Active ==>
                    r == Failure(NotActive(Destination)))
              && (old(store.accounts[from].status) == Active && old(store.accounts[to].status) == Active
                  && old(store.accounts[from].balance) < amount ==>
                    r == Failure(InsufficientBalance(old(store.accounts[from].balance), amount)))
    ensures r.Failure? ==> store.log == old(store.log) && store.balances == old(store.balances)
    ensures r.Success? ==>
      var source, dest := store.accounts[from], store.accounts[to];
      && source.balance == old(source.balance) - amount >= 0
      && dest.balance == old(dest.balance) + amount
      && source.balance + dest.balance == old(source.balance + dest.balance)
      && store.balances == old(store.balances)[from := source.balance][to := dest.balance]
      && r.value == [Leg(outId, TransferOut, amount, description, source, source.balance, now, from, to),
                     Leg(inId, TransferIn, amount, description, dest, dest.balance, now, from, to)]
      && store.log == old(store.log) + r.value
  {
    if amount <= 0 {
      return Failure(InvalidAmount(amount));
    }
    if from == to {
      return Failure(SameAccount(from));
    }
    if from !in store.accounts {
      return Failure(AccountNotFound(from));
    }
    if to !in store.accounts {
      return Failure(AccountNotFound(to));
    }
    var source, dest := store.accounts[from], store.accounts[to];
    if source.status != Active {
      return Failure(NotActive(Source));
    }
    if dest.status != Active {
      return Failure(NotActive(Destination));
    }
    if source.balance < amount {
      return Failure(InsufficientBalance(source.balance, amount));
    }
    var transferOut := Leg(outId, TransferOut, amount, description, source, source.balance - amount, now, from, to);
    store.Post(from, transferOut);
    var transferIn := Leg(inId, TransferIn, amount, description, dest, dest.balance + amount, now, from, to);
    store.Post(to, transferIn);
    r := Success([transferOut, transferIn]);
  }

  /** All entries of an account, newest first. */
  function GetTransactionHistory(store: Store, accountNumber: string): (r: Result<seq<Transaction>, Error>)
    reads store, store.accounts.Values
    requires store.Valid()
    ensures r.Failure? <==> accountNumber !in store.accounts
    ensures r.Failure? ==> r.error == AccountNotFound(accountNumber)
    ensures r.Success? ==>
      var id := store.accounts[accountNumber].id;
      && NewestFirst(r.value)
      && multiset(r.value) == multiset(store.LegsOf(id))
      && forall t :: t in r.value <==> t in store.log && t.accountId == id
  {
    if accountNumber !in store.accounts then
      Failure(AccountNotFound(accountNumber))
    else
      var legs := Select(store.log, OfAccount(store.accounts[accountNumber].id));
      SelectChronological(store.log, OfAccount(store.accounts[accountNumber].id));
      ReverseNewestFirst(legs);
      Success(Reverse(legs))
  }

  /** The entries of an account that have the given type. */
  function GetTransactionsByType(store: Store, accountNumber: string, kind: TransactionType)
    : (r: Result<seq<Transaction>, Error>)
    reads store, store.accounts.Values
    requires store.Valid()
    ensures r.Failure? <==> accountNumber !in store.accounts
    ensures r.Failure? ==> r.error == AccountNotFound(accountNumber)
    ensures r.Success? ==>
      && (forall t :: t in r.value <==> t in store.log && t.accountId == store.accounts[accountNumber].id && t.kind == kind)
      && (forall i, j :: 0 <= i < j < |r.value| ==> r.value[i] != r.value[j])
  {
    if accountNumber !in store.accounts then
      Failure(AccountNotFound(accountNumber))
    else
      var legs := Select(store.log, OfAccount(store.accounts[accountNumber].id));
      LogNoRepeats(store.log, IdsOf(store.accounts));
      SelectNoRepeats(store.log, OfAccount(store.accounts[accountNumber].id));
      SelectNoRepeats(legs, OfType(kind));
      Success(Select(legs, OfType(kind)))
  }

  /** The entries of an account whose timestamp lies in [start, end], both ends included. */
  function GetTransactionsByDateRange(store: Store, accountNumber: string, start: int, end: int)
    : (r: Result<seq<Transaction>, Error>)
    reads store, store.accounts.Values
    requires store.Valid()
    ensures r.Failure? <==> accountNumber !in store.accounts
    ensures r.Failure? ==> r.error == AccountNotFound(accountNumber)
    ensures r.Success? ==>
      && (forall t :: t in r.value <==>
            t in store.log && t.accountId == store.accounts[accountNumber].id && start <= t.timestamp <= end)
      && (forall i, j :: 0 <= i < j < |r.value| ==> r.value[i] != r.value[j])
  {
    if accountNumber !in store.accounts then
      Failure(AccountNotFound(accountNumber))
    else
      var legs := Select(store.log, OfAccount(store.accounts[accountNumber].id));
      LogNoRepeats(store.log, IdsOf(store.accounts));
      SelectNoRepeats(store.log, OfAccount(store.accounts[accountNumber].id));
      SelectNoRepeats(legs, Between(start, end));
      Success(Select(legs, Between(start, end)))
  }
}
