# Bank ledger model

A Dafny model of the service layer of a small GraphQL banking back end. The
back end keeps three tables: customers, accounts and an append-only log of
transactions. Its three services check and change them:

- the customer service registers customers under unique e-mail addresses,
  looks them up, updates their contact fields and deletes those who own no
  account;
- the account service opens accounts under a fresh random ten-digit
  number, looks accounts up, sets their status and closes those with a
  zero balance;
- the transaction service makes deposits, withdrawals and transfers, each
  recorded as a log entry with a balance snapshot, and answers three
  history queries.

Modules:

- `Wrappers`: `Option` and `Result`.
- `Model`: the record types. `Account` is a class, because the services
  update its balance and status in place. `Customer` and `Transaction` are
  datatypes. The `Error` datatype has one variant per exception the
  services raise.
- `History`: the transaction log as a value.
  - `Select`: the repository's derived queries (by account, by type, by
    time range).
  - `Reverse`: the newest-first ordering.
  - `Replays`: replays an account's entries from its opening deposit,
    checking every `balanceAfter` snapshot along the way.
- `Ledger`: the `Store` class that holds the three tables, and the
  invariant `Store.Valid()`:
  - accounts are keyed by their numbers and have unique ids;
  - customers are keyed by id and have unique e-mail addresses;
  - every account has an owner;
  - log entries have unique transaction ids, positive amounts and
    non-negative snapshots, and appear in time order;
  - every account's entries replay from its opening deposit to its current
    balance, which is never negative.

  `Store.Post` is the one step every money movement takes: it sets one
  balance and appends one entry. `Store.Open` adds one account.
- `AccountService`, `CustomerService` and `TransactionService`: one member
  per service operation, except the two list-everything queries (see
  "Left out").
  - Every operation except `AccountService.GenerateAccountNumber` and
    `AccountService.GetAccountsByCustomerId` has a precondition of
    `store.Valid()`. Neither of those two needs the invariant.
  - Every state-changing method keeps `store.Valid()`.
  - Each operation states every error case in the order the code checks
    them, and that a failure changes nothing.
- `SampleData`: the start-up script that fills an empty bank. It registers
  three customers, opens five accounts and makes four money movements. The
  model proves the final balances.

Amounts are integer cents: the source's decimal columns have scale 2.
Inputs the source draws from outside become parameters:

- timestamps: a clock reading `now` that is not before any logged entry;
- transaction ids: an id unused in the log;
- account ids and customer ids: ids not yet in their table;
- the random numbers behind account numbers: a sequence `draws`, at least
  one of which prints as an unused number.

## Model

| member | source | states |
|---|---|---|
| Model.Account.constructor | src/main/java/com/banking/graphql/model/Account.java:47-55 | number, type, balance, owner and status are the arguments; the creation time is the clock reading |
| Model.NewTransaction | src/main/java/com/banking/graphql/model/Transaction.java:52-61 | id, type, amount, description, owning account and balance snapshot are the arguments; the timestamp is the clock reading; both counterparty numbers are unset |
| Model.Effect | src/main/java/com/banking/graphql/service/TransactionService.java:105-111 | a positive amount raises the balance exactly for deposits and incoming transfer legs; the change is always plus or minus the amount |
| History.Select | src/main/java/com/banking/graphql/repository/TransactionRepository.java:13-16 | a derived query keeps exactly the stored entries that match its condition and never returns more than the log holds |
| History.SelectAppend | src/main/java/com/banking/graphql/repository/TransactionRepository.java:13-16 | appending an entry extends a query's result by that entry exactly when the entry matches |
| History.SelectNone | src/main/java/com/banking/graphql/repository/TransactionRepository.java:14 | a query over a log in which no entry matches returns nothing |
| History.SelectChronological | src/main/java/com/banking/graphql/repository/TransactionRepository.java:14 | a query over a log kept in time order is itself in time order |
| History.SelectNoRepeats | src/main/java/com/banking/graphql/repository/TransactionRepository.java:14-16 | a query over a log in which no entry occurs twice lists no entry twice |
| History.ReverseNewestFirst | src/main/java/com/banking/graphql/repository/TransactionRepository.java:14 | reversing a time-ordered list gives newest first, with the same entries and multiplicities |
| History.ReverseMultiset | src/main/java/com/banking/graphql/repository/TransactionRepository.java:14 | reversing keeps every entry with its multiplicity |
| History.ReplaysExtend | src/main/java/com/banking/graphql/service/TransactionService.java:38-45 | an entry whose snapshot is the replayed balance plus its effect extends the replay to that snapshot |
| Ledger.AccountIdsUnique | src/main/java/com/banking/graphql/model/Account.java:20-25 | in the account table an account id determines the account number |
| Ledger.EmailsUnique | src/main/java/com/banking/graphql/service/CustomerService.java:21-23 | in the customer table an e-mail address determines the customer |
| Ledger.LogAppend | src/main/java/com/banking/graphql/model/Transaction.java:22-23 | appending an entry of a known account, with a positive amount, an unused id and a timestamp not before the log's, keeps the log well formed |
| Ledger.LogNoRepeats | src/main/java/com/banking/graphql/model/Transaction.java:22-23 | unique transaction ids mean no entry occurs twice in the log |
| Ledger.BalancesAppend | src/main/java/com/banking/graphql/service/TransactionService.java:38-45 | appending an account's entry whose snapshot is its balance plus the entry's effect keeps every account's history replaying, with that account's balance now the snapshot |
| Ledger.PostEntry | src/main/java/com/banking/graphql/service/TransactionService.java:38-45 | the same append keeps the whole ledger invariant |
| Ledger.AddAccount | src/main/java/com/banking/graphql/service/AccountService.java:36-40 | adding an account with an unused number and id, a known owner and a non-negative deposit keeps both invariants; the new account has no log entries |
| Ledger.AddCustomer | src/main/java/com/banking/graphql/service/CustomerService.java:21-26 | adding a customer whose e-mail nobody uses keeps e-mails unique and every account owned |
| Ledger.ReplaceCustomer | src/main/java/com/banking/graphql/service/CustomerService.java:47-60 | replacing a customer row by one with the same id and e-mail keeps the customer invariant |
| Ledger.RemoveCustomer | src/main/java/com/banking/graphql/service/CustomerService.java:64-72 | removing a customer who owns no account keeps the customer invariant |
| Ledger.Store.constructor | src/main/java/com/banking/graphql/config/DataInitializer.java:24-27 | a fresh bank has no customers, no accounts and an empty log, and is valid |
| Ledger.Store.Open | src/main/java/com/banking/graphql/service/AccountService.java:37-40 | the table gains exactly the new account; its balance is its opening deposit and its history is empty; the invariant is kept |
| Ledger.Store.Post | src/main/java/com/banking/graphql/service/TransactionService.java:38-45 | one account's balance becomes the entry's snapshot and the entry is appended; nothing else changes and the ledger invariant is kept |
| AccountService.ZeroPadded | src/main/java/com/banking/graphql/service/AccountService.java:95 | printing with a fixed width gives exactly that many decimal digits |
| AccountService.ZeroPaddedValue | src/main/java/com/banking/graphql/service/AccountService.java:95 | reading the printed digits back gives the number when it fits in the width |
| AccountService.ZeroPaddedLeadingZero | src/main/java/com/banking/graphql/service/AccountService.java:95 | a number below 10^(width-1) is printed with a leading zero |
| AccountService.AccountNumberOf | src/main/java/com/banking/graphql/service/AccountService.java:95 | a draw below 10^9 prints as ten digits, the first a zero, whose value is the draw |
| AccountService.AccountNumberInjective | src/main/java/com/banking/graphql/service/AccountService.java:95 | two draws print as the same account number exactly when they are equal |
| AccountService.GenerateAccountNumber | src/main/java/com/banking/graphql/service/AccountService.java:91-98 | the number kept is printed from a draw, is not in the table, and every earlier draw's number was |
| AccountService.CreateAccount | src/main/java/com/banking/graphql/service/AccountService.java:28-41 | unknown customer fails first, then a negative deposit; otherwise exactly one new active account is added, with the deposit as balance and the number of the first draw whose number is unused; a failure changes nothing |
| AccountService.GetAccountById | src/main/java/com/banking/graphql/service/AccountService.java:44-47 | returns the stored account with that id exactly when one exists, else an id-not-found error |
| AccountService.GetAccountByNumber | src/main/java/com/banking/graphql/service/AccountService.java:50-53 | returns the stored account under that number exactly when it exists, else not-found |
| AccountService.GetAccountsByCustomerId | src/main/java/com/banking/graphql/service/AccountService.java:56-58 | an account is returned exactly when it is stored and owned by the customer; possibly none |
| AccountService.GetBalance | src/main/java/com/banking/graphql/service/AccountService.java:66-69 | returns the stored, non-negative balance exactly when the account exists, else not-found |
| AccountService.UpdateAccountStatus | src/main/java/com/banking/graphql/service/AccountService.java:72-76 | sets the status of an existing account to any value, closed to active included; no other status and no balance changes; unknown number gives not-found |
| AccountService.CloseAccount | src/main/java/com/banking/graphql/service/AccountService.java:79-89 | succeeds and returns true exactly when the account exists with balance zero, and only then becomes closed; otherwise not-found or non-zero-balance, with nothing changed |
| CustomerService.CreateCustomer | src/main/java/com/banking/graphql/service/CustomerService.java:20-27 | succeeds exactly when no stored customer has the e-mail, and then adds exactly the new customer; otherwise duplicate-e-mail with nothing changed |
| CustomerService.GetCustomerById | src/main/java/com/banking/graphql/service/CustomerService.java:30-33 | returns the stored customer with that id, or customer-not-found |
| CustomerService.GetCustomerByEmail | src/main/java/com/banking/graphql/service/CustomerService.java:36-39 | returns the one stored customer with that e-mail exactly when there is one, or customer-not-found |
| CustomerService.Updated | src/main/java/com/banking/graphql/service/CustomerService.java:47-60 | a partial update never changes the id or the e-mail |
| CustomerService.UpdatedNothing | src/main/java/com/banking/graphql/service/CustomerService.java:50-58 | an update whose arguments are all missing or empty leaves the row as it was |
| CustomerService.UpdatedIdempotent | src/main/java/com/banking/graphql/service/CustomerService.java:50-58 | repeating the same update changes nothing more |
| CustomerService.UpdateCustomer | src/main/java/com/banking/graphql/service/CustomerService.java:47-61 | for an existing customer, each of name, phone and address becomes the argument when that is present and non-empty, else stays; the e-mail stays; unknown id gives customer-not-found with nothing changed |
| CustomerService.DeleteCustomer | src/main/java/com/banking/graphql/service/CustomerService.java:64-73 | succeeds and returns true exactly when the customer exists and owns no account at all, and then removes only that customer; otherwise customer-not-found or has-accounts, with nothing changed |
| TransactionService.Deposit | src/main/java/com/banking/graphql/service/TransactionService.java:26-46 | a non-positive amount fails first, then not-found, then not-active; on success the balance rises by the amount, no other balance changes, and the returned deposit entry, whose snapshot is the new balance, is appended; a failure changes nothing |
| TransactionService.Withdraw | src/main/java/com/banking/graphql/service/TransactionService.java:49-74 | as a deposit, plus insufficient-balance with the available and required amounts; succeeds exactly when the balance covers the amount, so the balance never goes negative |
| TransactionService.Leg | src/main/java/com/banking/graphql/service/TransactionService.java:113-127 | a transfer leg carries the given id, type, amount, description and clock reading; it belongs to its own account with its own snapshot, and carries both counterparty numbers |
| TransactionService.Transfer | src/main/java/com/banking/graphql/service/TransactionService.java:77-130 | checks run in the code's order: amount, same account, source then destination not found, source then destination not active, insufficient funds; on success the source falls and the destination rises by the amount, their sum is unchanged, no other balance changes, and the out and in legs are appended in that order; a failure changes nothing |
| TransactionService.GetTransactionHistory | src/main/java/com/banking/graphql/service/TransactionService.java:133-137 | exactly the account's entries, newest first, the same multiset as its log entries; unknown number gives not-found |
| TransactionService.GetTransactionsByType | src/main/java/com/banking/graphql/service/TransactionService.java:140-144 | exactly the account's entries of that type, each listed once; unknown number gives not-found |
| TransactionService.GetTransactionsByDateRange | src/main/java/com/banking/graphql/service/TransactionService.java:147-154 | exactly the account's entries stamped within the range, both ends included, each listed once; unknown number gives not-found |
| SampleData.RegisterCustomers | src/main/java/com/banking/graphql/config/DataInitializer.java:29-39 | the script's three registrations all succeed on an empty bank |
| SampleData.SampleNumbersApart | src/main/java/com/banking/graphql/config/DataInitializer.java:44-62 | five different draws give the five accounts five different numbers |
| SampleData.OpenAccounts | src/main/java/com/banking/graphql/config/DataInitializer.java:44-62 | the five openings succeed, with opening balances 1000.00, 500.00, 2000.00, 5000.00 and 750.00 |
| SampleData.MoveMoney | src/main/java/com/banking/graphql/config/DataInitializer.java:67-84 | the deposit, withdrawal, transfer and second deposit all succeed, leaving 1750.00, 400.00, 1750.00 and 6000.00 |
| SampleData.Initialize | src/main/java/com/banking/graphql/config/DataInitializer.java:24-97 | the whole script leaves exactly five accounts holding 1750.00, 400.00, 1750.00, 6000.00 and 750.00, five log entries and a valid store |

## Left out

- The GraphQL resolvers are not modelled. They convert amounts through
  `double` and parse dates; the model takes cents and clock readings
  directly.
- Randomness is not modelled as such:
  - The account-number generator's random draws are a parameter `draws`.
    The retry loop needs one draw that prints as an unused number; without
    one, the source's loop would not end.
  - Transaction ids come from random UUIDs in the source. Here they are
    parameters that must be unused in the log. The source never checks
    them; only the database's unique column does.
- `LocalDateTime.now()` is a parameter `now`, required not to be earlier
  than any logged entry.
- Identity columns: account and customer ids are parameters, required to
  be unused.
- Transactions, JPA persistence, lazy loading and cascades are not
  modelled; neither is concurrency.
  - The operations run one after another.
  - Atomicity appears as "a failure changes nothing", which holds because
    every check precedes the first change.
- Precision: amounts are integer cents. Values with more than two decimal
  places, which the database would round, are not represented.
- The columns' precision of 19 digits is not modelled. The largest storable
  amount or balance is 99999999999999999.99. Beyond it the insert fails
  inside the call, the call throws, and the database rolls it back. The
  model's integers are unbounded, so it returns success instead. The next
  three lines name the members affected.
- TransactionService.Deposit: succeeds even when the new balance passes
  the column bound, where the source's save fails and rolls back.
- TransactionService.Transfer: succeeds even when the destination's new
  balance passes the column bound.
- AccountService.CreateAccount: succeeds for an opening deposit past the
  column bound, which the source's insert would reject.
- Exception messages are not modelled. Each exception is an `Error`
  variant carrying the values the message would print.
- `balanceAfter`: the column is nullable, but every service-created entry
  sets it, so the model's field is a plain integer.
- The Customer entity's source is not part of this model. Its fields are
  those the customer service reads and writes, and ownership is each
  account's `customerId`.
- `getAllCustomers` and `getAllAccounts` are not modelled. They return a
  whole table, which the model exposes as the store's fields.
- Account.transactions is not a separate list. An account's transactions
  are its entries in the shared log (`Store.LegsOf`).
- TransactionService.Transfer: both legs carry the same clock reading. The
  source reads the clock once per leg, so its two timestamps can differ
  slightly.
- TransactionService.GetTransactionsByType and
  TransactionService.GetTransactionsByDateRange state which entries are
  returned and that none is listed twice, not their order. The repository
  queries behind them have no ordering clause.
- AccountService.GetAccountsByCustomerId returns a set, not a list ordered
  by creation: the repository query has no ordering clause either.
- AccountService.UpdateAccountStatus and AccountService.CloseAccount state
  the new state through the table of statuses, and `Store.Valid()`. Their
  frame lets them write any account object, and their contract says every
  other account's status and every balance stays.
- SampleData: the script's try/catch and its logging are not modelled.
  The model proves that no call of the script fails, so the handler is
  never reached.
