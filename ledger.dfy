/**
 * The bank's tables: customers keyed by id, accounts keyed by account
 * number, and the append-only transaction log. The three repositories of
 * the source share this one store; the services in the other modules read
 * and change it.
 *
 * The invariant is stated over plain values, in two parts. The customer
 * part (`CustomersWellKeyed`, `Owned`) says that customers are keyed by id
 * with unique e-mail addresses and that every account has an owner. The
 * ledger part (`Ledgered`) says that accounts are keyed by number with
 * unique ids, that the log is well formed, and that every account's log
 * entries replay from its opening deposit to its balance. The store's
 * `Valid()` applies both to its fields, reading the balances from the
 * account objects; the lemmas below show which changes keep them.
 */
module Ledger {
  import opened Model
  import opened History

  /** The ids of the accounts in a table. */
  ghost function IdsOf(accounts: map<string, Account>): set<int> {
    set n | n in accounts :: accounts[n].id
  }

  /** The accounts under two different keys `n` and `m` carry different ids. */
  ghost predicate IdsApart(accounts: map<string, Account>, n: string, m: string) {
    n in accounts && m in accounts && n != m ==> accounts[n].id != accounts[m].id
  }

  /** Keys are the accounts' own numbers, and no two accounts share an id. */
  ghost predicate WellKeyed(accounts: map<string, Account>) {
    && (forall n {:trigger accounts[n]} :: n in accounts ==> accounts[n].accountNumber == n)
    && (forall n, m {:trigger IdsApart(accounts, n, m)} :: IdsApart(accounts, n, m))
  }

  /** In a well-keyed table an account id determines the key. */
  lemma AccountIdsUnique(accounts: map<string, Account>)
    requires WellKeyed(accounts)
    ensures forall n, m :: n in accounts && m in accounts && accounts[n].id == accounts[m].id ==> n == m
  {
    forall n, m | n in accounts && m in accounts && accounts[n].id == accounts[m].id
      ensures n == m
    {
      assert IdsApart(accounts, n, m);
    }
  }

  /** The customers under two different ids `c` and `d` have different e-mail addresses. */
  ghost predicate EmailsApart(customers: map<int, Customer>, c: int, d: int) {
    c in customers && d in customers && c != d ==> customers[c].email != customers[d].email
  }

  /** Customers are keyed by their id and no two share an e-mail address. */
  ghost predicate CustomersWellKeyed(customers: map<int, Customer>) {
    && (forall c {:trigger customers[c]} :: c in customers ==> customers[c].id == c)
    && (forall c, d {:trigger EmailsApart(customers, c, d)} :: EmailsApart(customers, c, d))
  }

  /** Among well-keyed customers an e-mail address determines the customer. */
  lemma EmailsUnique(customers: map<int, Customer>)
    requires CustomersWellKeyed(customers)
    ensures forall c, d :: c in customers && d in customers && customers[c].email == customers[d].email ==> c == d
  {
    forall c, d | c in customers && d in customers && customers[c].email == customers[d].email
      ensures c == d
    {
      assert EmailsApart(customers, c, d);
    }
  }

  /** Every account belongs to a stored customer. */
  ghost predicate Owned(customers: map<int, Customer>, accounts: map<string, Account>) {
    forall n {:trigger accounts[n]} :: n in accounts ==> accounts[n].customerId in customers
  }

  /** No log entry carries the transaction id `transactionId`. */
  ghost predicate UnusedTransactionId(log: seq<Transaction>, transactionId: string) {
    forall i :: 0 <= i < |log| ==> log[i].transactionId != transactionId
  }

  /** The entries at two different positions `i` and `j` of the log carry different transaction ids. */
  ghost predicate IdsDistinct(log: seq<Transaction>, i: int, j: int) {
    0 <= i < j < |log| ==> log[i].transactionId != log[j].transactionId
  }

  /**
   * Entries belong to known accounts, move a positive amount, snapshot a
   * non-negative balance, have unique transaction ids and were appended in
   * time order.
   */
  ghost predicate LogWellFormed(log: seq<Transaction>, ids: set<int>) {
    && (forall i :: 0 <= i < |log| ==> log[i].accountId in ids && log[i].amount > 0 && log[i].balanceAfter >= 0)
    && (forall i, j {:trigger IdsDistinct(log, i, j)} :: IdsDistinct(log, i, j))
    && Chronological(log)
  }

  /** Distinct transaction ids make every log entry a distinct value. */
  lemma LogNoRepeats(log: seq<Transaction>, ids: set<int>)
    requires LogWellFormed(log, ids)
    ensures NoRepeats(log)
  {
    forall i, j | 0 <= i < j < |log| ensures log[i] != log[j] {
      assert IdsDistinct(log, i, j);
    }
  }

  /** The log entries of `a` replay from its opening deposit to `balance`. */
  ghost predicate HistoryReplays(a: Account, log: seq<Transaction>, opening: map<int, int>, balance: int) {
    a.id in opening && Replays(opening[a.id], Select(log, OfAccount(a.id)), balance)
  }

  /**
   * Every account has a non-negative balance and its log entries replay
   * from its opening deposit to that balance.
   */
  ghost predicate BalancesAgree(accounts: map<string, Account>, log: seq<Transaction>,
                                opening: map<int, int>, balances: map<string, int>) {
    && balances.Keys == accounts.Keys
    && (forall n {:trigger balances[n]} :: n in accounts ==> balances[n] >= 0)
    && (forall n {:trigger HistoryReplays(accounts[n], log, opening, balances[n])} ::
          n in accounts ==> HistoryReplays(accounts[n], log, opening, balances[n]))
  }

  /** The ledger part of the invariant: accounts, log and balances agree. */
  ghost predicate Ledgered(accounts: map<string, Account>, log: seq<Transaction>,
                           opening: map<int, int>, balances: map<string, int>) {
    && WellKeyed(accounts)
    && LogWellFormed(log, IdsOf(accounts))
    && BalancesAgree(accounts, log, opening, balances)
  }

  /** Appending a well-formed entry for a known account keeps the log well formed. */
  lemma LogAppend(log: seq<Transaction>, ids: set<int>, t: Transaction)
    requires LogWellFormed(log, ids)
    requires t.accountId in ids && t.amount > 0 && t.balanceAfter >= 0
    requires UnusedTransactionId(log, t.transactionId) && NotBefore(log, t.timestamp)
    ensures LogWellFormed(log + [t], ids)
  {
    var log' := log + [t];
    assert forall i :: 0 <= i < |log| ==> log'[i] == log[i];
    forall i, j ensures IdsDistinct(log', i, j) && InOrder(log', i, j) {
      assert IdsDistinct(log, i, j) && InOrder(log, i, j);
    }
  }

  /**
   * Appending an entry for account `n` whose snapshot is `n`'s balance plus
   * the entry's effect keeps every account's history replaying, once the
   * balance of `n` becomes that snapshot.
   */
  lemma BalancesAppend(accounts: map<string, Account>, log: seq<Transaction>, opening: map<int, int>,
                       balances: map<string, int>, n: string, t: Transaction)
    requires WellKeyed(accounts) && BalancesAgree(accounts, log, opening, balances)
    requires n in accounts && t.accountId == accounts[n].id
    requires t.balanceAfter == balances[n] + Effect(t) && t.balanceAfter >= 0
    ensures BalancesAgree(accounts, log + [t], opening, balances[n := t.balanceAfter])
  {
    var log', balances' := log + [t], balances[n := t.balanceAfter];
    forall m | m in accounts
      ensures HistoryReplays(accounts[m], log', opening, balances'[m])
    {
      var id := accounts[m].id;
      assert HistoryReplays(accounts[m], log, opening, balances[m]);
      assert IdsApart(accounts, m, n);
      SelectAppend(log, t, OfAccount(id));
      if m == n {
        assert Select(log', OfAccount(id)) == Select(log, OfAccount(id)) + [t];
        ReplaysExtend(opening[id], Select(log, OfAccount(id)), balances[n], t);
      } else {
        assert id != t.accountId;
        assert Select(log', OfAccount(id)) == Select(log, OfAccount(id));
      }
    }
  }

  /**
   * Appending an entry for account `n` that moves a positive amount, carries
   * a fresh transaction id and a timestamp not before the log's, and whose
   * snapshot is the account's balance plus the entry's effect, keeps the
   * ledger part of the invariant once the balance of `n` becomes that
   * snapshot.
   */
  lemma PostEntry(accounts: map<string, Account>, log: seq<Transaction>,
                  opening: map<int, int>, balances: map<string, int>, n: string, t: Transaction)
    requires Ledgered(accounts, log, opening, balances)
    requires n in accounts && t.accountId == accounts[n].id
    requires t.amount > 0 && t.balanceAfter == balances[n] + Effect(t) && t.balanceAfter >= 0
    requires UnusedTransactionId(log, t.transactionId) && NotBefore(log, t.timestamp)
    ensures Ledgered(accounts, log + [t], opening, balances[n := t.balanceAfter])
  {
    assert accounts[n].id in IdsOf(accounts);
    LogAppend(log, IdsOf(accounts), t);
    BalancesAppend(accounts, log, opening, balances, n, t);
  }

  /**
   * Adding a fresh account with a non-negative opening deposit for a known
   * customer keeps both parts of the invariant; the new account has no log
   * entries yet.
   */
  lemma AddAccount(customers: map<int, Customer>, accounts: map<string, Account>, log: seq<Transaction>,
                   opening: map<int, int>, balances: map<string, int>, a: Account)
    requires Owned(customers, accounts) && Ledgered(accounts, log, opening, balances)
    requires a.accountNumber !in accounts && a.id !in IdsOf(accounts)
    requires a.customerId in customers && a.balance >= 0
    ensures Select(log, OfAccount(a.id)) == []
    ensures Owned(customers, accounts[a.accountNumber := a])
    ensures Ledgered(accounts[a.accountNumber := a], log, opening[a.id := a.balance],
                     balances[a.accountNumber := a.balance])
  {
    SelectNone(log, OfAccount(a.id));
    var accounts', opening', balances' := accounts[a.accountNumber := a], opening[a.id := a.balance],
                                          balances[a.accountNumber := a.balance];
    forall n, m ensures IdsApart(accounts', n, m) {
      assert IdsApart(accounts, n, m);
      if n == a.accountNumber && m in accounts {
        assert accounts[m].id in IdsOf(accounts);
      } else if m == a.accountNumber && n in accounts {
        assert accounts[n].id in IdsOf(accounts);
      }
    }
    forall m | m in accounts'
      ensures HistoryReplays(accounts'[m], log, opening', balances'[m])
    {
      if m != a.accountNumber {
        assert HistoryReplays(accounts[m], log, opening, balances[m]);
        assert accounts[m].id in IdsOf(accounts);
      }
    }
    assert IdsOf(accounts) <= IdsOf(accounts') by {
      forall x | x in IdsOf(accounts) ensures x in IdsOf(accounts') {
        var m :| m in accounts && accounts[m].id == x;
        assert accounts'[m].id == x;
      }
    }
  }

  /** Replacing a customer row by one with the same id and e-mail keeps the customer part of the invariant. */
  lemma ReplaceCustomer(customers: map<int, Customer>, accounts: map<string, Account>, c: Customer)
    requires CustomersWellKeyed(customers) && Owned(customers, accounts)
    requires c.id in customers && customers[c.id].email == c.email
    ensures CustomersWellKeyed(customers[c.id := c]) && Owned(customers[c.id := c], accounts)
  {
    var customers' := customers[c.id := c];
    forall x, y ensures EmailsApart(customers', x, y) {
      assert EmailsApart(customers, x, y);
    }
  }

  /** Adding a customer under a fresh id with an e-mail nobody uses keeps the customer part of the invariant. */
  lemma AddCustomer(customers: map<int, Customer>, accounts: map<string, Account>, c: Customer)
    requires CustomersWellKeyed(customers) && Owned(customers, accounts)
    requires c.id !in customers
    requires forall d :: d in customers ==> customers[d].email != c.email
    ensures CustomersWellKeyed(customers[c.id := c]) && Owned(customers[c.id := c], accounts)
  {
    var customers' := customers[c.id := c];
    forall x, y ensures EmailsApart(customers', x, y) {
      assert EmailsApart(customers, x, y);
    }
  }

  /** Removing a customer who owns no account keeps the customer part of the invariant. */
  lemma RemoveCustomer(customers: map<int, Customer>, accounts: map<string, Account>, id: int)
    requires CustomersWellKeyed(customers) && Owned(customers, accounts)
    requires forall n :: n in accounts ==> accounts[n].customerId != id
    ensures CustomersWellKeyed(customers - {id}) && Owned(customers - {id}, accounts)
  {
    var customers' := customers - {id};
    forall x, y ensures EmailsApart(customers', x, y) {
      assert EmailsApart(customers, x, y);
    }
  }

  class Store {
    var customers: map<int, Customer>
    var accounts: map<string, Account>
    var log: seq<Transaction>
    /** The initial deposit each account was opened with, by account id. */
    ghost var opening: map<int, int>
    /** The balance of every account, by account number. */
    ghost var balances: map<string, int>

    constructor ()
      ensures Valid()
      ensures customers == map[] && accounts == map[] && log == []
    {
      customers := map[];
      accounts := map[];
      log := [];
      opening := map[];
      balances := map[];
    }

    /** The ids of the stored accounts. */
    ghost function AccountIds(): set<int>
      reads this
    {
      IdsOf(accounts)
    }

    /** The status of every account, by account number. */
    ghost function Statuses(): map<string, AccountStatus>
      reads this, accounts.Values
    {
      map n | n in accounts :: accounts[n].status
    }

    /** The log entries of the account with id `accountId`, oldest first. */
    ghost function LegsOf(accountId: int): seq<Transaction>
      reads this
    {
      Select(log, OfAccount(accountId))
    }

    /** The ledger part of the invariant, with the balances held by the account objects. */
    ghost predicate LedgerValid()
      reads this, accounts.Values
    {
      && Ledgered(accounts, log, opening, balances)
      && (forall n :: n in accounts ==> accounts[n].balance == balances[n])
    }

    ghost predicate Valid()
      reads this, accounts.Values
    {
      && CustomersWellKeyed(customers)
      && Owned(customers, accounts)
      && LedgerValid()
    }

    /**
     * Stores a new account under its number, with its balance as the
     * opening deposit it replays from.
     */
    method Open(account: Account)
      requires Valid()
      requires account.accountNumber !in accounts && account.id !in AccountIds()
      requires account.customerId in customers && account.balance >= 0
      modifies this
      ensures Valid()
      ensures customers == old(customers) && log == old(log)
      ensures accounts == old(accounts)[account.accountNumber := account]
      ensures balances == old(balances)[account.accountNumber := account.balance]
      ensures LegsOf(account.id) == []
    {
      AddAccount(customers, accounts, log, opening, balances, account);
      accounts := accounts[account.accountNumber := account];
      opening := opening[account.id := account.balance];
      balances := balances[account.accountNumber := account.balance];
    }

    /**
     * The atomic unit of every money movement: sets the balance of account
     * `accountNumber` to the snapshot `t` carries and appends `t` to the log.
     */
    method Post(accountNumber: string, t: Transaction)
      requires LedgerValid()
      requires accountNumber in accounts && t.accountId == accounts[accountNumber].id
      requires t.amount > 0 && t.balanceAfter == accounts[accountNumber].balance + Effect(t) && t.balanceAfter >= 0
      requires UnusedTransactionId(log, t.transactionId) && NotBefore(log, t.timestamp)
      modifies this, {accounts[accountNumber]}`balance
      ensures LedgerValid()
      ensures customers == old(customers) && accounts == old(accounts)
      ensures log == old(log) + [t]
      ensures balances == old(balances)[accountNumber := t.balanceAfter]
    {
      PostEntry(accounts, log, opening, balances, accountNumber, t);
      accounts[accountNumber].balance := t.balanceAfter;
      log := log + [t];
      balances := balances[accountNumber := t.balanceAfter];
    }
  }
}
