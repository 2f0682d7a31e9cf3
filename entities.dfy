/** The persistent records of the banking backend: accounts, transactions and users. */
module Entities {
  import opened Common

  /** Money is an exact decimal with two fractional digits; it is held here as a
      whole number of minor units (hundredths). */
  type Money = int

  const MinorPerUnit: int := 100

  /** An abstract, totally ordered creation time (`LocalDateTime` in the source). */
  type Timestamp = int

  type AccountNumber = string

  type UserId = nat

  datatype AccountType = SAVINGS | CURRENT | SALARY | FIXED_DEPOSIT

  /** A bank account. `minimumBalance` and `overdraftLimit` are nullable in the
      entity; the interest rate (a `Double`) is not modelled. */
  datatype Account = Account(
    accountNumber: AccountNumber,
    accountType: AccountType,
    balance: Money,
    isActive: bool,
    minimumBalance: Option<Money>,
    overdraftLimit: Option<Money>,
    owner: UserId)

  datatype TransactionType = DEPOSIT | WITHDRAWAL | TRANSFER

  datatype TransactionStatus = PENDING | COMPLETED | FAILED

  /** A ledger record. Accounts are referred to by their account number. */
  datatype Transaction = Transaction(
    transactionId: string,
    transactionType: TransactionType,
    amount: Money,
    description: Option<string>,
    fromAccount: Option<AccountNumber>,
    toAccount: Option<AccountNumber>,
    status: TransactionStatus,
    referenceNumber: string,
    createdAt: Timestamp)

  /** The shape every record the money operations write has: completed, and
      with exactly the account references its kind calls for. */
  predicate WellFormedRecord(t: Transaction)
  {
    && t.status == COMPLETED
    && match t.transactionType
       case TRANSFER => t.fromAccount.Some? && t.toAccount.Some?
       case DEPOSIT => t.fromAccount.None? && t.toAccount.Some?
       case WITHDRAWAL => t.fromAccount.Some? && t.toAccount.None?
  }

  datatype UserRole = CUSTOMER | ADMIN | MANAGER

  /** A registered user. Nullable columns are `Option`s; `password` is also
      nulled out before a user is returned to a client. */
  datatype User = User(
    id: UserId,
    email: string,
    password: Option<string>,
    firstName: string,
    lastName: string,
    phoneNumber: Option<string>,
    dateOfBirth: Option<string>,
    address: Option<string>,
    panNumber: Option<string>,
    aadharNumber: Option<string>,
    role: UserRole,
    isActive: bool)
}
