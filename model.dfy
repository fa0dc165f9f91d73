/**
 * The entities of the bank: accounts, transactions and customers, and the
 * errors the services raise. Money is held as an integer number of cents
 * (the source stores it as an exact decimal of scale 2); timestamps are
 * integers supplied by the caller.
 */
module Model {
  import opened Wrappers

  datatype AccountType = Savings | Checking | Business

  datatype AccountStatus = Active | Closed

  datatype TransactionType = Deposit | Withdrawal | TransferOut | TransferIn

  /** A customer row. Its `accounts` collection is derived from the account table. */
  datatype Customer = Customer(id: int, name: string, email: string, phone: string, address: string)

  /**
   * A ledger entry. It is never changed once appended; `accountId` is the
   * foreign key of the account it belongs to, and the two counterparty
   * numbers are filled in on transfer legs only.
   */
  datatype Transaction = Transaction(
    transactionId: string,
    kind: TransactionType,
    amount: int,
    timestamp: int,
    description: string,
    balanceAfter: int,
    accountId: int,
    toAccountNumber: Option<string>,
    fromAccountNumber: Option<string>)

  /** Which account of an operation an error is about. */
  datatype Role = Own | Source | Destination

  datatype Error =
    | InvalidAmount(amount: int)
    | AccountNotFound(accountNumber: string)
    | AccountIdNotFound(accountId: int)
    | CustomerNotFound(customerId: int)
    | CustomerEmailNotFound(email: string)
    | NotActive(role: Role)
    | SameAccount(accountNumber: string)
    | InsufficientBalance(available: int, required: int)
    | NonZeroBalance(balance: int)
    | DuplicateEmail(email: string)
    | HasAccounts(customerId: int)

  /**
   * An account row. Balance and status are updated in place by the services;
   * the other columns never change after the row is created. `id` is the
   * identity the table assigns when the row is first saved.
   */
  class Account {
    const id: int
    const accountNumber: string
    const accountType: AccountType
    var balance: int
    const createdAt: int
    var status: AccountStatus
    const customerId: int

    constructor (id: int, accountNumber: string, accountType: AccountType, balance: int,
                 customerId: int, status: AccountStatus, now: int)
      ensures this.id == id && this.accountNumber == accountNumber
      ensures this.accountType == accountType && this.balance == balance
      ensures this.customerId == customerId && this.status == status
      ensures this.createdAt == now
    {
      this.id := id;
      this.accountNumber := accountNumber;
      this.accountType := accountType;
      this.balance := balance;
      this.customerId := customerId;
      this.status := status;
      this.createdAt := now;
    }
  }

  /**
   * The transaction constructor: it takes the owning account and the
   * balance snapshot, stamps the record with the current time and leaves
   * both counterparty numbers unset.
   */
  function NewTransaction(transactionId: string, kind: TransactionType, amount: int, description: string,
                          account: Account, balanceAfter: int, now: int): (t: Transaction)
    ensures t.transactionId == transactionId && t.kind == kind && t.amount == amount
    ensures t.description == description && t.balanceAfter == balanceAfter
    ensures t.accountId == account.id && t.timestamp == now
    ensures t.toAccountNumber == None && t.fromAccountNumber == None
  {
    Transaction(transactionId, kind, amount, now, description, balanceAfter, account.id, None, None)
  }

  /** The signed change a transaction makes to its own account's balance. */
  function Effect(t: Transaction): (delta: int)
    ensures t.amount > 0 ==> (delta > 0 <==> t.kind == Deposit || t.kind == TransferIn)
    ensures delta == t.amount || delta == -t.amount
  {
    match t.kind
    case Deposit | TransferIn => t.amount
    case Withdrawal | TransferOut => -t.amount
  }
}
