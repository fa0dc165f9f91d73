/**
 * The start-up script that fills an empty bank with sample data: three
 * customers, five accounts, then a deposit, a withdrawal, a transfer and a
 * second deposit. The random draws, ids and clock readings it would use
 * are parameters or fixed here, so the final balances can be stated exactly.
 * Amounts are in cents: 1000.00 is 100000.
 */
module SampleData {
  import opened Wrappers
  import opened Model
  import opened Ledger
  import opened History
  import opened AccountService
  import opened CustomerService
  import TransactionService

  /** Five different random draws, one per account the script opens. */
  predicate SampleDraws(draws: seq<nat>) {
    && |draws| == 5
    && (forall i :: 0 <= i < 5 ==> draws[i] < AccountNumberBound)
    && (forall i, j :: 0 <= i < j < 5 ==> draws[i] != draws[j])
  }

  /** Five different transaction ids, the random UUIDs of the script's five log entries. */
  predicate SampleIds(ids: seq<string>) {
    |ids| == 5 && forall i, j :: 0 <= i < j < 5 ==> ids[i] != ids[j]
  }

  /** The script's three customers, registered in an empty bank. */
  method RegisterCustomers(store: Store)
    requires store.Valid() && store.customers == map[]
    modifies store
    ensures store.Valid()
    ensures store.customers.Keys == {1, 2, 3}
    ensures store.accounts == old(store.accounts) && store.log == old(store.log)
  {
    var john := CreateCustomer(store, 1, "John Doe", "john.doe@example.com", "+1234567890",
                               "123 Main St, City, Country");
    var jane := CreateCustomer(store, 2, "Jane Smith", "jane.smith@example.com", "+0987654321",
                               "456 Oak Ave, Town, Country");
    var bob := CreateCustomer(store, 3, "Bob Johnson", "bob.johnson@example.com", "+1122334455",
                              "789 Pine Rd, Village, Country");
  }

  /** Opens one account whose number is printed from `draw`, with an id above every stored one. */
  method OpenAccount(store: Store, customerId: int, accountType: AccountType, initialDeposit: int, draw: nat, id: int)
    returns (number: string)
    requires store.Valid() && customerId in store.customers && initialDeposit >= 0
    requires forall n :: n in store.accounts ==> store.accounts[n].id < id
    requires draw < AccountNumberBound && AccountNumberOf(draw) !in store.accounts
    modifies store
    ensures store.Valid()
    ensures store.customers == old(store.customers) && store.log == old(store.log)
    ensures number == AccountNumberOf(draw) && number in store.accounts
    ensures store.accounts == old(store.accounts)[number := store.accounts[number]]
    ensures fresh(store.accounts[number]) && store.accounts[number].status == Active
    ensures store.accounts[number].balance == initialDeposit && store.accounts[number].id == id
  {
    assert id !in store.AccountIds();
    assert AccountNumberOf([draw][0]) !in store.accounts;
    var r := CreateAccount(store, customerId, accountType, initialDeposit, [draw], id, 0);
    number := r.value.accountNumber;
  }

  /** Opens both accounts of a customer who holds two, with ids `id` and `id + 1`. */
  method OpenPair(store: Store, customerId: int, id: int,
                 firstType: AccountType, firstDeposit: int, firstDraw: nat,
                 secondType: AccountType, secondDeposit: int, secondDraw: nat)
    returns (first: string, second: string)
    requires store.Valid() && customerId in store.customers && firstDeposit >= 0 && secondDeposit >= 0
    requires forall n :: n in store.accounts ==> store.accounts[n].id < id
    requires firstDraw < AccountNumberBound && AccountNumberOf(firstDraw) !in store.accounts
    requires secondDraw < AccountNumberBound && AccountNumberOf(secondDraw) !in store.accounts
    requires AccountNumberOf(firstDraw) != AccountNumberOf(secondDraw)
    modifies store
    ensures store.Valid()
    ensures store.customers == old(store.customers) && store.log == old(store.log)
    ensures first == AccountNumberOf(firstDraw) && second == AccountNumberOf(secondDraw)
    ensures first != second && first in store.accounts && second in store.accounts
    ensures store.accounts == old(store.accounts)[first := store.accounts[first]][second := store.accounts[second]]
    ensures fresh(store.accounts[first]) && store.accounts[first].status == Active
    ensures fresh(store.accounts[second]) && store.accounts[second].status == Active
    ensures store.accounts[first].balance == firstDeposit && store.accounts[first].id == id
    ensures store.accounts[second].balance == secondDeposit && store.accounts[second].id == id + 1
  {
    first := OpenAccount(store, customerId, firstType, firstDeposit, firstDraw, id);
    second := OpenAccount(store, customerId, secondType, secondDeposit, secondDraw, id + 1);
  }

  /** The five draws print as five different account numbers. */
  lemma SampleNumbersApart(draws: seq<nat>)
    requires SampleDraws(draws)
    ensures AccountNumberOf(draws[0]) != AccountNumberOf(draws[1])
    ensures AccountNumberOf(draws[0]) != AccountNumberOf(draws[2]) && AccountNumberOf(draws[1]) != AccountNumberOf(draws[2])
    ensures AccountNumberOf(draws[0]) != AccountNumberOf(draws[3]) && AccountNumberOf(draws[1]) != AccountNumberOf(draws[3])
    ensures AccountNumberOf(draws[2]) != AccountNumberOf(draws[3])
    ensures AccountNumberOf(draws[0]) != AccountNumberOf(draws[4]) && AccountNumberOf(draws[1]) != AccountNumberOf(draws[4])
    ensures AccountNumberOf(draws[2]) != AccountNumberOf(draws[4]) && AccountNumberOf(draws[3]) != AccountNumberOf(draws[4])
  {
    forall i, j | 0 <= i < j < 5 ensures AccountNumberOf(draws[i]) != AccountNumberOf(draws[j]) {
      AccountNumberInjective(draws[i], draws[j]);
    }
  }

  /**
   * The accounts of the script's second customer (savings 2000.00, business 5000.00) and
   * third customer (checking 750.00), opened after the first customer's `n0` and `n1`.
   */
  method OpenLaterCustomersAccounts(store: Store, draws: seq<nat>, n0: string, n1: string)
    returns (n2: string, n3: string, n4: string)
    requires SampleDraws(draws)
    requires n0 != AccountNumberOf(draws[2]) && n0 != AccountNumberOf(draws[3]) && n0 != AccountNumberOf(draws[4])
    requires n1 != AccountNumberOf(draws[2]) && n1 != AccountNumberOf(draws[3]) && n1 != AccountNumberOf(draws[4])
    requires AccountNumberOf(draws[2]) != AccountNumberOf(draws[3])
    requires AccountNumberOf(draws[2]) != AccountNumberOf(draws[4]) && AccountNumberOf(draws[3]) != AccountNumberOf(draws[4])
    requires store.Valid() && 2 in store.customers && 3 in store.customers
    requires store.accounts.Keys == {n0, n1}
    requires store.accounts[n0].id == 1 && store.accounts[n1].id == 2
    modifies store
    ensures store.Valid()
    ensures store.log == old(store.log)
    ensures n2 == AccountNumberOf(draws[2]) && n3 == AccountNumberOf(draws[3]) && n4 == AccountNumberOf(draws[4])
    ensures store.accounts.Keys == {n0, n1, n2, n3, n4}
    ensures store.accounts[n0] == old(store.accounts[n0]) && store.accounts[n1] == old(store.accounts[n1])
    ensures forall n :: n in store.accounts ==> n == n0 || n == n1 || fresh(store.accounts[n])
    ensures store.accounts[n2].status == Active && store.accounts[n2].balance == 200000
    ensures store.accounts[n3].status == Active && store.accounts[n3].balance == 500000
    ensures store.accounts[n4].balance == 75000
  {
    n2, n3 := OpenPair(store, 2, 3, Savings, 200000, draws[2], Business, 500000, draws[3]);
    n4 := OpenAccount(store, 3, Checking, 75000, draws[4], 5);
  }

  /** The script's five accounts, opened with 1000.00, 500.00, 2000.00, 5000.00 and 750.00. */
  method OpenAccounts(store: Store, draws: seq<nat>) returns (n0: string, n1: string, n2: string, n3: string, n4: string)
    requires SampleDraws(draws)
    requires store.Valid() && store.customers.Keys == {1, 2, 3} && store.accounts == map[]
    modifies store
    ensures store.Valid()
    ensures store.log == old(store.log)
    ensures n0 == AccountNumberOf(draws[0]) && n1 == AccountNumberOf(draws[1]) && n2 == AccountNumberOf(draws[2])
    ensures n3 == AccountNumberOf(draws[3]) && n4 == AccountNumberOf(draws[4])
    ensures store.accounts.Keys == {n0, n1, n2, n3, n4}
    ensures forall n :: n in store.accounts ==> fresh(store.accounts[n])
    ensures store.accounts[n0].status == Active && store.accounts[n1].status == Active
    ensures store.accounts[n2].status == Active && store.accounts[n3].status == Active
    ensures store.accounts[n0].balance == 100000 && store.accounts[n1].balance == 50000
    ensures store.accounts[n2].balance == 200000 && store.accounts[n3].balance == 500000
    ensures store.accounts[n4].balance == 75000
  {
    SampleNumbersApart(draws);
    n0, n1 := OpenPair(store, 1, 1, Savings, 100000, draws[0], Checking, 50000, draws[1]);
    n2, n3, n4 := OpenLaterCustomersAccounts(store, draws, n0, n1);
  }

  /** `log` holds exactly the first `k` of the script's transaction ids, all stamped no later than `now`. */
  ghost predicate Logged(log: seq<Transaction>, ids: seq<string>, k: nat, now: int) {
    && |log| == k <= |ids|
    && NotBefore(log, now)
    && forall i :: 0 <= i < k ==> log[i].transactionId == ids[i]
  }

  /** An id the script has not used yet is unused in the log. */
  lemma LaterIdUnused(log: seq<Transaction>, ids: seq<string>, k: nat, now: int, j: nat)
    requires SampleIds(ids) && Logged(log, ids, k, now) && k <= j < 5
    ensures UnusedTransactionId(log, ids[j])
  {
    forall i | 0 <= i < |log| ensures log[i].transactionId != ids[j] {
      assert log[i].transactionId == ids[i];
    }
  }

  /** One deposit of the script, the `k`-th log entry. */
  method DepositStep(store: Store, n: string, amount: int, description: string, ids: seq<string>, k: nat, now: int)
    requires SampleIds(ids) && k < 5
    requires store.Valid() && Logged(store.log, ids, k, now)
    requires n in store.accounts && store.accounts[n].status == Active && amount > 0
    modifies store, store.accounts.Values`balance
    ensures store.Valid() && Logged(store.log, ids, k + 1, now)
    ensures store.accounts == old(store.accounts)
    ensures store.accounts[n].balance == old(store.accounts[n].balance) + amount
    ensures forall m :: m in store.accounts && m != n ==> store.accounts[m].balance == old(store.accounts[m].balance)
  {
    LaterIdUnused(store.log, ids, k, now, k);
    var r := TransactionService.Deposit(store, n, amount, description, ids[k], now);
  }

  /** One withdrawal of the script, the `k`-th log entry. */
  method WithdrawStep(store: Store, n: string, amount: int, description: string, ids: seq<string>, k: nat, now: int)
    requires SampleIds(ids) && k < 5
    requires store.Valid() && Logged(store.log, ids, k, now)
    requires n in store.accounts && store.accounts[n].status == Active
    requires 0 < amount <= store.accounts[n].balance
    modifies store, store.accounts.Values`balance
    ensures store.Valid() && Logged(store.log, ids, k + 1, now)
    ensures store.accounts == old(store.accounts)
    ensures store.accounts[n].balance == old(store.accounts[n].balance) - amount
    ensures forall m :: m in store.accounts && m != n ==> store.accounts[m].balance == old(store.accounts[m].balance)
  {
    LaterIdUnused(store.log, ids, k, now, k);
    var r := TransactionService.Withdraw(store, n, amount, description, ids[k], now);
  }

  /** One transfer of the script, the `k`-th and `k + 1`-th log entries. */
  method TransferStep(store: Store, from: string, to: string, amount: int, description: string,
                      ids: seq<string>, k: nat, now: int)
    requires SampleIds(ids) && k < 4
    requires store.Valid() && Logged(store.log, ids, k, now)
    requires from in store.accounts && store.accounts[from].status == Active
    requires to in store.accounts && store.accounts[to].status == Active && from != to
    requires 0 < amount <= store.accounts[from].balance
    modifies store, store.accounts.Values`balance
    ensures store.Valid() && Logged(store.log, ids, k + 2, now)
    ensures store.accounts == old(store.accounts)
    ensures store.accounts[from].balance == old(store.accounts[from].balance) - amount
    ensures store.accounts[to].balance == old(store.accounts[to].balance) + amount
    ensures forall m :: m in store.accounts && m != from && m != to ==>
              store.accounts[m].balance == old(store.accounts[m].balance)
  {
    LaterIdUnused(store.log, ids, k, now, k);
    LaterIdUnused(store.log, ids, k, now, k + 1);
    var r := TransactionService.Transfer(store, from, to, amount, description, ids[k], ids[k + 1], now);
  }

  /**
   * The moves on the first customer's accounts: the bonus deposit of 500.00 into the
   * savings account `n0` and the ATM withdrawal of 100.00 from the checking account `n1`,
   * at clock readings 1 and 2.
   */
  method FirstCustomerMoves(store: Store, n0: string, n1: string, ids: seq<string>)
    requires SampleIds(ids)
    requires store.Valid() && store.log == []
    requires n0 != n1 && n0 in store.accounts && n1 in store.accounts
    requires store.accounts[n0].status == Active && store.accounts[n1].status == Active
    requires store.accounts[n0].balance == 100000 && store.accounts[n1].balance == 50000
    modifies store, store.accounts.Values`balance
    ensures store.Valid() && Logged(store.log, ids, 2, 2)
    ensures store.accounts == old(store.accounts)
    ensures store.accounts[n0].balance == 150000 && store.accounts[n1].balance == 40000
    ensures forall m :: m in store.accounts && m != n0 && m != n1 ==>
              store.accounts[m].balance == old(store.accounts[m].balance)
  {
    DepositStep(store, n0, 50000, "Initial bonus deposit", ids, 0, 1);
    WithdrawStep(store, n1, 10000, "ATM withdrawal", ids, 1, 2);
  }

  /**
   * The moves out of and into the second customer's accounts: the transfer of 250.00 from
   * the savings account `n2` to the first customer's savings `n0`, and the business
   * revenue deposit of 1000.00 into `n3`, at clock readings 3 and 4.
   */
  method SecondCustomerMoves(store: Store, n0: string, n2: string, n3: string, ids: seq<string>)
    requires SampleIds(ids)
    requires store.Valid() && Logged(store.log, ids, 2, 2)
    requires n0 != n2 && n0 != n3 && n2 != n3
    requires n0 in store.accounts && n2 in store.accounts && n3 in store.accounts
    requires store.accounts[n0].status == Active && store.accounts[n2].status == Active
    requires store.accounts[n3].status == Active
    requires store.accounts[n0].balance == 150000 && store.accounts[n2].balance == 200000
    requires store.accounts[n3].balance == 500000
    modifies store, store.accounts.Values`balance
    ensures store.Valid() && Logged(store.log, ids, 5, 4)
    ensures store.accounts == old(store.accounts)
    ensures store.accounts[n0].balance == 175000 && store.accounts[n2].balance == 175000
    ensures store.accounts[n3].balance == 600000
    ensures forall m :: m in store.accounts && m != n0 && m != n2 && m != n3 ==>
              store.accounts[m].balance == old(store.accounts[m].balance)
  {
    TransferStep(store, n2, n0, 25000, "Transfer to John's savings", ids, 2, 3);
    DepositStep(store, n3, 100000, "Business revenue", ids, 4, 4);
  }

  /**
   * The script's deposit, withdrawal, transfer and second deposit; the fifth account,
   * which none of them touches, keeps its balance.
   */
  method MoveMoney(store: Store, n0: string, n1: string, n2: string, n3: string, ids: seq<string>)
    requires SampleIds(ids)
    requires store.Valid() && store.log == []
    requires n0 != n1 && n0 != n2 && n0 != n3 && n1 != n2 && n1 != n3 && n2 != n3
    requires n0 in store.accounts && n1 in store.accounts && n2 in store.accounts && n3 in store.accounts
    requires store.accounts[n0].status == Active && store.accounts[n1].status == Active
    requires store.accounts[n2].status == Active && store.accounts[n3].status == Active
    requires store.accounts[n0].balance == 100000 && store.accounts[n1].balance == 50000
    requires store.accounts[n2].balance == 200000 && store.accounts[n3].balance == 500000
    modifies store, store.accounts.Values`balance
    ensures store.Valid() && Logged(store.log, ids, 5, 4)
    ensures store.accounts == old(store.accounts)
    ensures store.accounts[n0].balance == 175000 && store.accounts[n1].balance == 40000
    ensures store.accounts[n2].balance == 175000 && store.accounts[n3].balance == 600000
    ensures forall m :: m in store.accounts && m != n0 && m != n1 && m != n2 && m != n3 ==>
              store.accounts[m].balance == old(store.accounts[m].balance)
  {
    FirstCustomerMoves(store, n0, n1, ids);
    SecondCustomerMoves(store, n0, n2, n3, ids);
  }

  /**
   * The whole script on an empty bank. Account numbers come from `draws` and transaction
   * ids from `ids`; the fifth account sees no transaction.
   */
  method Initialize(draws: seq<nat>, ids: seq<string>)
    returns (store: Store, n0: string, n1: string, n2: string, n3: string, n4: string)
    requires SampleDraws(draws) && SampleIds(ids)
    ensures store.Valid() && Logged(store.log, ids, 5, 4)
    ensures n0 == AccountNumberOf(draws[0]) && n1 == AccountNumberOf(draws[1]) && n2 == AccountNumberOf(draws[2])
    ensures n3 == AccountNumberOf(draws[3]) && n4 == AccountNumberOf(draws[4])
    ensures store.accounts.Keys == {n0, n1, n2, n3, n4}
    ensures store.accounts[n0].balance == 175000 && store.accounts[n1].balance == 40000
    ensures store.accounts[n2].balance == 175000 && store.accounts[n3].balance == 600000
    ensures store.accounts[n4].balance == 75000
  {
    store := new Store();
    RegisterCustomers(store);
    n0, n1, n2, n3, n4 := OpenAccounts(store, draws);
    MoveMoney(store, n0, n1, n2, n3, ids);
  }
}
