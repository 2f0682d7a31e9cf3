# Banking ledger core in Dafny

A model of the in-memory ledger behind the banking REST backend
(`com.banking.app`): the account table keyed by account number, the
append-only transaction table, and the services that change them.

- **Money movement** (`TransactionService`): `transferMoney`, `deposit` and
  `withdraw`. Each one looks accounts up by number and checks funds. It then
  rewrites balances and appends one COMPLETED record. The three history
  queries sit on top of this.
- **Account lifecycle** (`AccountService`): `createAccount` with the per-type
  defaults and the collision-checked account-number loop. Also
  `updateBalance`, `deactivateAccount`, `getUserAccounts` and
  `getAccountByNumber`.
- **History queries** (`TransactionRepository`): filter by either side,
  inclusive date window, newest first, paged slice, by status, by type.
- **User-side rules**: the duplicate checks and insert of
  `AuthService.registerUser`; the partial-update merge and password redaction
  of `UserController`; `UserPrincipal.create` with its constant flags.

Layout, one module per file:

| file | module | models |
|---|---|---|
| common.dfy | `Common` | `Option`, `Result`, the error each service throws and its message |
| decimal.dfy | `Decimal` | decimal rendering of the clock and `%04d`, with the parser that inverts them |
| entities.dfy | `Entities` | `Account`, `Transaction`, `User` and their enums |
| identifiers.dfy | `Identifiers` | transaction ids and account-number candidates |
| transaction_queries.dfy | `TransactionQueries` | the repository queries as functions of the transaction table |
| accounts.dfy | `Accounts` | the account table, type defaults, credit/debit, deactivation, sum of balances |
| movements.dfy | `Movements` | the balance semantics of transfer and withdraw; the record a money operation writes |
| ledger.dfy | `Ledger` | class `Ledger`: the account and transaction tables and the service operations that mutate them |
| users.dfy | `Users` | class `UserDirectory`: registration, profile read and update |
| principal.dfy | `Principals` | the security principal built from a user |

Modelling choices:

- `BigDecimal` amounts are `int`s in minor units (hundredths), so
  `compareTo` is `<`. The type defaults are written as `1000 * MinorPerUnit`
  and so on.
- The account table is a `map<AccountNumber, Account>` and the transaction
  table a `seq<Transaction>`. Both are fields of class `Ledger`, and its
  methods reassign them.
- Each mutating method's `ensures` ties the new tables to a pure function of
  the old ones, such as `Movements.ApplyTransfer` or `Accounts.ApplyCredit`.
  The lemmas beside those functions prove conservation, inverses and
  idempotence.
- A transfer's debit is written into the table before the credit re-reads
  it. Both lookups of one `@Transactional` call return the same managed
  entity. So a self-transfer with enough funds leaves the balance unchanged,
  and it still records a TRANSFER (`Movements.SelfTransferUnchanged`).
- The clock, `new Random()`, `UUID.randomUUID()` and the audit time stamp
  are parameters: `millis`, `draws`, `reference` and `now`. The password
  encoder is a function parameter `encode`.
- Balances can be negative, because credits accept any amount, including a
  negative one. The zero floor after a debit therefore holds for a
  withdrawal and for a transfer between two different accounts. A
  self-transfer keeps the old balance, which may already be negative
  (`Movements.SelfTransferKeepsNegativeBalance`).
- Accounts and transactions refer to each other by account number. Users
  are referred to by id.

The model follows the code, which leaves out several checks a ledger might be expected to make:

- no amount is checked to be positive;
- no money operation consults `isActive`;
- the debit floor is 0 for every account type, and `overdraftLimit` is never
  read;
- a transfer to the same account is not rejected;
- there is no locking;
- a date window with start after end is not an error. It selects nothing
  (`TransactionQueries.FindBetweenDates`).

## Model

| member | source | states |
|---|---|---|
| Common.MessageInjective | samplebackend/src/main/java/com/banking/app/service/TransactionService.java:30-39 | distinct errors carry distinct exception messages, so the flattened string still identifies the error |
| Decimal.ZeroPad4 | samplebackend/src/main/java/com/banking/app/service/AccountService.java:67 | `%04d` of a number below 10000 is four digits that parse back to the number |
| Decimal.ParseDecimalString | samplebackend/src/main/java/com/banking/app/service/TransactionService.java:135 | the decimal text of a clock reading parses back to the reading |
| Decimal.DecimalStringInjective | samplebackend/src/main/java/com/banking/app/service/TransactionService.java:135 | two readings render alike exactly when they are equal |
| Identifiers.TransactionId | samplebackend/src/main/java/com/banking/app/service/TransactionService.java:134-136 | a transaction id is `TXN` followed by digits that parse back to the clock reading |
| Identifiers.TransactionIdCollision | samplebackend/src/main/java/com/banking/app/service/TransactionService.java:134-136 | two ids coincide exactly when made in the same millisecond; nothing else tells them apart |
| Identifiers.AccountNumberCandidate | samplebackend/src/main/java/com/banking/app/service/AccountService.java:66-67 | a candidate is `ACC`, the clock's digits, then four digits that parse back to the random draw |
| Identifiers.CandidateInjective | samplebackend/src/main/java/com/banking/app/service/AccountService.java:66-67 | two candidates are equal exactly when clock reading and random draw are both equal |
| TransactionQueries.SelectCounts | samplebackend/src/main/java/com/banking/app/repository/TransactionRepository.java:33-35 | a derived filter query keeps each matching record exactly as often as the table holds it, and nothing else |
| TransactionQueries.InsertNewestFirst | samplebackend/src/main/java/com/banking/app/repository/TransactionRepository.java:21 | inserting into a newest-first list keeps it newest first and adds exactly that record |
| TransactionQueries.SortNewestFirst | samplebackend/src/main/java/com/banking/app/repository/TransactionRepository.java:21 | `ORDER BY createdAt DESC` gives a newest-first permutation |
| TransactionQueries.FindByAccount | samplebackend/src/main/java/com/banking/app/repository/TransactionRepository.java:21 | history is newest first and holds exactly the records with the account on either side, each as often as stored |
| TransactionQueries.Window | samplebackend/src/main/java/com/banking/app/repository/TransactionRepository.java:23-24 | a page slice has the clipped length and the elements at offset + i |
| TransactionQueries.FindByAccountPaged | samplebackend/src/main/java/com/banking/app/repository/TransactionRepository.java:23-24 | a page is the slice `[page*size, page*size+size)` of the full history, with its total length |
| TransactionQueries.WindowCovers | samplebackend/src/main/java/com/banking/app/repository/TransactionRepository.java:23-24 | every history entry i lies on page i / size at position i % size |
| TransactionQueries.FindBetweenDates | samplebackend/src/main/java/com/banking/app/repository/TransactionRepository.java:26-31 | newest first, exactly the account's records with start <= createdAt <= end; empty when start > end |
| TransactionQueries.FindByStatus | samplebackend/src/main/java/com/banking/app/repository/TransactionRepository.java:33 | exactly the records with that status |
| TransactionQueries.FindByTransactionType | samplebackend/src/main/java/com/banking/app/repository/TransactionRepository.java:35 | exactly the records of that type |
| TransactionQueries.SelectAppend | samplebackend/src/main/java/com/banking/app/repository/TransactionRepository.java:33-35 | filtering a table with one more record appends that record when it matches |
| TransactionQueries.UnrelatedRecordKeepsHistory | samplebackend/src/main/java/com/banking/app/repository/TransactionRepository.java:21 | a record not involving an account leaves that account's history unchanged |
| TransactionQueries.RelatedRecordJoinsHistory | samplebackend/src/main/java/com/banking/app/repository/TransactionRepository.java:21 | a record involving an account adds exactly that record to its history |
| Accounts.MinimumBalanceFor | samplebackend/src/main/java/com/banking/app/service/AccountService.java:41-61 | every type has a non-negative minimum balance, zero only for SALARY |
| Accounts.OverdraftLimitFor | samplebackend/src/main/java/com/banking/app/service/AccountService.java:41-61 | only CURRENT gets an overdraft limit, and it is positive |
| Accounts.NewAccount | samplebackend/src/main/java/com/banking/app/service/AccountService.java:28-38 | a new account has zero balance, is active, has the requested type and owner and the type's defaults |
| Accounts.TotalBalanceInsert | samplebackend/src/main/java/com/banking/app/service/AccountService.java:28-38 | adding an account adds its balance to the sum of all balances |
| Accounts.Credit | samplebackend/src/main/java/com/banking/app/service/TransactionService.java:67-69 | a credit raises one balance by the amount; all else is unchanged |
| Accounts.Debit | samplebackend/src/main/java/com/banking/app/service/TransactionService.java:93-95 | a debit lowers one balance by the amount; all else is unchanged |
| Accounts.CreditTotal | samplebackend/src/main/java/com/banking/app/service/TransactionService.java:67-69 | a credit raises the sum of all balances by the amount |
| Accounts.DebitTotal | samplebackend/src/main/java/com/banking/app/service/TransactionService.java:93-95 | a debit lowers the sum of all balances by the amount |
| Accounts.ApplyCredit | samplebackend/src/main/java/com/banking/app/service/AccountService.java:83-89 | unknown number fails with AccountNotFound; otherwise old + amount, with no check |
| Accounts.ApplyCreditTotal | samplebackend/src/main/java/com/banking/app/service/TransactionService.java:63-69 | a deposit to an existing account always succeeds and adds the amount to the sum |
| Accounts.ApplyDeactivate | samplebackend/src/main/java/com/banking/app/service/AccountService.java:91-97 | unknown number fails; otherwise only `isActive` changes, to false |
| Accounts.DeactivateIdempotent | samplebackend/src/main/java/com/banking/app/service/AccountService.java:91-97 | deactivating twice equals deactivating once |
| Accounts.DeactivateKeepsTotal | samplebackend/src/main/java/com/banking/app/service/AccountService.java:91-97 | deactivation moves no money |
| Accounts.AccountsOf | samplebackend/src/main/java/com/banking/app/service/AccountService.java:73-77 | exactly the stored accounts the user owns |
| Movements.ApplyTransfer | samplebackend/src/main/java/com/banking/app/service/TransactionService.java:28-47 | missing source reported before missing destination; fails with InsufficientBalance exactly when source balance < amount; succeeds otherwise |
| Movements.ApplyWithdraw | samplebackend/src/main/java/com/banking/app/service/TransactionService.java:84-95 | missing account, then balance < amount, are the only failures; success debits and leaves balance >= 0 |
| Movements.TransferMovesAmount | samplebackend/src/main/java/com/banking/app/service/TransactionService.java:41-47 | between two accounts: source falls by the amount and stays >= 0, destination rises by it, others unchanged |
| Movements.SelfTransferUnchanged | samplebackend/src/main/java/com/banking/app/service/TransactionService.java:30-47 | a self-transfer with enough funds succeeds and leaves the table unchanged |
| Movements.SelfTransferKeepsNegativeBalance | samplebackend/src/main/java/com/banking/app/service/TransactionService.java:37-47 | a self-transfer of -200 from -100 passes the funds check and leaves the balance negative |
| Movements.TransferConservesTotal | samplebackend/src/main/java/com/banking/app/service/TransactionService.java:41-47 | a successful transfer preserves the sum of all balances |
| Movements.WithdrawTotal | samplebackend/src/main/java/com/banking/app/service/TransactionService.java:93-95 | a withdrawal lowers the sum by exactly the amount |
| Movements.TransferBack | samplebackend/src/main/java/com/banking/app/service/TransactionService.java:41-47 | transferring the amount back restores the table when the destination started non-negative |
| Movements.DepositThenWithdraw | samplebackend/src/main/java/com/banking/app/service/TransactionService.java:63-95 | withdrawing what was just deposited into a non-negative account succeeds and restores the table |
| Movements.RunTransfers | samplebackend/src/main/java/com/banking/app/service/TransactionService.java:28-47 | a batch of transfers, failed ones changing nothing, keeps the set of accounts |
| Movements.RunTransfersConservesTotal | samplebackend/src/main/java/com/banking/app/service/TransactionService.java:28-47 | any batch of transfers preserves the sum of all balances |
| Movements.Record | samplebackend/src/main/java/com/banking/app/service/TransactionService.java:50-60 | a record is COMPLETED, carries the amount, description and clock id, and has the account sides its kind calls for |
| Ledger.Ledger.TransferMoney | samplebackend/src/main/java/com/banking/app/service/TransactionService.java:28-61 | tables move as `ApplyTransfer` says; success appends one TRANSFER record; failure changes nothing; the sum is kept |
| Ledger.Ledger.Deposit | samplebackend/src/main/java/com/banking/app/service/TransactionService.java:63-82 | balance becomes old + amount and one DEPOSIT record is appended; an unknown account changes nothing |
| Ledger.Ledger.Withdraw | samplebackend/src/main/java/com/banking/app/service/TransactionService.java:84-108 | tables move as `ApplyWithdraw` says; success appends one WITHDRAWAL record; failure changes nothing |
| Ledger.Ledger.AccountTransactions | samplebackend/src/main/java/com/banking/app/service/TransactionService.java:110-115 | unknown account fails with AccountNotFound; otherwise the account's newest-first history |
| Ledger.Ledger.AccountTransactionsPaginated | samplebackend/src/main/java/com/banking/app/service/TransactionService.java:117-123 | unknown account fails; otherwise the requested page of the history |
| Ledger.Ledger.AccountTransactionsBetweenDates | samplebackend/src/main/java/com/banking/app/service/TransactionService.java:125-132 | unknown account fails; otherwise the account's records in the closed window |
| Ledger.Ledger.GenerateAccountNumber | samplebackend/src/main/java/com/banking/app/service/AccountService.java:63-71 | the result is the first drawn candidate not in the account table; none only when every draw collides |
| Ledger.Ledger.CreateAccount | samplebackend/src/main/java/com/banking/app/service/AccountService.java:24-39 | unknown user fails and creates nothing; an existing user always gets exactly one new account, numbered by the first drawn candidate not yet taken, with the type's defaults; only when every draw is taken does it fail |
| Ledger.Ledger.UserAccounts | samplebackend/src/main/java/com/banking/app/service/AccountService.java:73-77 | unknown user fails with UserNotFound; otherwise exactly the user's accounts |
| Ledger.Ledger.AccountByNumber | samplebackend/src/main/java/com/banking/app/service/AccountService.java:79-81 | the stored account under that number, if any |
| Ledger.Ledger.UpdateBalance | samplebackend/src/main/java/com/banking/app/service/AccountService.java:83-89 | balance becomes old + amount with no check and no record; an unknown account changes nothing |
| Ledger.Ledger.DeactivateAccount | samplebackend/src/main/java/com/banking/app/service/AccountService.java:91-97 | only the active flag changes; an unknown account changes nothing |
| Users.RegistrationConflict | samplebackend/src/main/java/com/banking/app/service/AuthService.java:52-64 | email, then a non-null PAN, then a non-null Aadhar: the first clash decides the error |
| Users.NullIdentitiesNeverConflict | samplebackend/src/main/java/com/banking/app/service/AuthService.java:56-64 | with null PAN and Aadhar only the email can clash |
| Users.NewUser | samplebackend/src/main/java/com/banking/app/service/AuthService.java:66-80 | profile fields copied, password encoded, role CUSTOMER, active |
| Users.RegistrationKeepsIdentitiesUnique | samplebackend/src/main/java/com/banking/app/service/AuthService.java:51-81 | a registration that passes the checks keeps emails, PANs and Aadhar numbers unique |
| Users.UserDirectory.RegisterUser | samplebackend/src/main/java/com/banking/app/service/AuthService.java:51-81 | a clash changes nothing and reports that error; success adds exactly the new user under a fresh id |
| Users.MergeProfile | samplebackend/src/main/java/com/banking/app/controller/UserController.java:44-55 | each of the four fields is overwritten only by a non-null update value; every other field is kept |
| Users.MergeIdempotent | samplebackend/src/main/java/com/banking/app/controller/UserController.java:44-57 | applying an update twice equals applying it once |
| Users.EmptyMergeIsIdentity | samplebackend/src/main/java/com/banking/app/controller/UserController.java:44-55 | an all-null update changes nothing |
| Users.MergeKeepsIdentitiesUnique | samplebackend/src/main/java/com/banking/app/controller/UserController.java:43-57 | a profile update keeps emails, PANs and Aadhar numbers unique |
| Users.Redacted | samplebackend/src/main/java/com/banking/app/controller/UserController.java:27 | the returned user has a null password and is otherwise the stored user |
| Users.UserDirectory.UserProfile | samplebackend/src/main/java/com/banking/app/controller/UserController.java:20-34 | unknown id fails with UserNotFound; otherwise the stored user without password |
| Users.UserDirectory.UpdateUserProfile | samplebackend/src/main/java/com/banking/app/controller/UserController.java:36-65 | unknown id changes nothing; otherwise the merged user is stored and returned without password |
| Principals.Create | samplebackend/src/main/java/com/banking/app/service/UserPrincipal.java:33-46 | id, names, email and password copied; one authority starting `ROLE_`; every flag true |
| Principals.AuthorityNamesRole | samplebackend/src/main/java/com/banking/app/service/UserPrincipal.java:34-36 | the single authority is `ROLE_` + the role's name |
| Principals.PrincipalFlags | samplebackend/src/main/java/com/banking/app/service/UserPrincipal.java:65-97 | the username is the email; the four account-status flags are always true |

## Left out

- HTTP layer: `ResponseEntity`/`ApiResponse` wrapping, the flattening of exceptions into "Error: …" strings, CORS and date parsing. The paged query's `size > 0` precondition is the controller's guard (`TransactionController.java:72-80`).
- Security: `authenticateUser`, the authentication manager and JWT generation. `PasswordEncoder.encode` is an arbitrary function the caller supplies.
- Persistence mechanics: rollback, cascades, lazy loading, the surrogate `id` columns, and the `createdAt`/`updatedAt` audit fields of accounts and users. The model's operations detect every failure before they change anything.
- Concurrency, locking and lost updates: the model is sequential.
- `interestRate`: a floating-point `Double`.
- Amounts with more than two fractional digits, and the column's precision of 15 digits. Amounts are exact integers of minor units.
- Card, Loan and Deposit entities and their repositories; `BankingApplication`, `HomeController`, `AuthResponse`. `TransactionRepository.findByTransactionId` is not used by any modelled service.
- Ledger.Ledger.GenerateAccountNumber: the source retries for ever. The model draws from a finite sequence and returns `None` when all draws collide. `CreateAccount` then reports the model-only `NoFreshAccountNumber`.
- TransactionQueries.SortNewestFirst: the database leaves the order of records with equal `createdAt` open. The model fixes one order, so a statement about ties would say more than the source does.
- Ledger.Ledger.UserAccounts: `findByUser` returns a list in unspecified order; the model returns the set.
- Users.UserDirectory.UpdateUserProfile: the request body is a whole `User`, but only the four fields it reads are modelled.
- Users.UserDirectory.UserProfile: the password is nulled on the returned copy only; the model assumes the stored password is not written back.
