/** The in-memory ledger behind the transaction and account services: the account
    table and the append-only transaction table, and the operations that change them. */
module Ledger {
  import opened Common
  import opened Entities
  import opened Accounts
  import opened Movements
  import opened Identifiers
  import opened TransactionQueries
  import opened Users

  class Ledger {
    var accounts: Accounts
    var transactions: seq<Transaction>

    /** Accounts sit under their own numbers, and every record is a completed one
        of the shape its kind calls for. */
    ghost predicate Valid()
      reads this
    {
      && KeyedByNumber(accounts)
      && forall i :: 0 <= i < |transactions| ==> WellFormedRecord(transactions[i])
    }

    constructor ()
      ensures Valid() && accounts == map[] && transactions == []
    {
      accounts := map[];
      transactions := [];
    }

    /** `transferMoney`. `millis` is the clock reading for the transaction id,
        `reference` the random reference number and `now` the audit time stamp. */
    method TransferMoney(fromNumber: AccountNumber, toNumber: AccountNumber, amount: Money,
                         description: Option<string>, millis: nat, reference: string, now: Timestamp)
      returns (r: Result<Transaction>)
      requires Valid()
      modifies this
      ensures Valid()
      ensures var expected := ApplyTransfer(old(accounts), fromNumber, toNumber, amount);
        && (r.Success? <==> expected.Success?)
        && (r.Failure? ==> r.error == expected.error && accounts == old(accounts) && transactions == old(transactions))
        && (r.Success? ==> accounts == expected.value)
      ensures r.Success? ==> r.value == Record(TRANSFER, amount, description, Some(fromNumber), Some(toNumber),
                                               millis, reference, now)
      ensures r.Success? ==> transactions == old(transactions) + [r.value]
      ensures TotalBalance(accounts) == TotalBalance(old(accounts))
    {
      if fromNumber !in accounts {
        return Failure(SourceAccountNotFound);
      }
      if toNumber !in accounts {
        return Failure(DestinationAccountNotFound);
      }
      var fromAccount := accounts[fromNumber];
      if fromAccount.balance < amount {
        return Failure(InsufficientBalance);
      }
      fromAccount := fromAccount.(balance := fromAccount.balance - amount);
      accounts := accounts[fromNumber := fromAccount];
      // Both lookups return the same managed entity when the numbers coincide,
      // so the credit starts from the table as the debit left it.
      var toAccount := accounts[toNumber];
      toAccount := toAccount.(balance := toAccount.balance + amount);
      accounts := accounts[toNumber := toAccount];
      assert accounts == ApplyTransfer(old(accounts), fromNumber, toNumber, amount).value;
      TransferConservesTotal(old(accounts), fromNumber, toNumber, amount);
      var record := Transaction(TransactionId(millis), TRANSFER, amount, description,
                                Some(fromNumber), Some(toNumber), COMPLETED, reference, now);
      transactions := transactions + [record];
      r := Success(record);
    }

    /** `deposit`: no check of the amount or of the account's state. */
    method Deposit(number: AccountNumber, amount: Money, description: Option<string>,
                   millis: nat, reference: string, now: Timestamp)
      returns (r: Result<Transaction>)
      requires Valid()
      modifies this
      ensures Valid()
      ensures var expected := ApplyCredit(old(accounts), number, amount);
        && (r.Success? <==> expected.Success?)
        && (r.Failure? ==> r.error == expected.error && accounts == old(accounts) && transactions == old(transactions))
        && (r.Success? ==> accounts == expected.value)
      ensures r.Success? ==> r.value == Record(DEPOSIT, amount, description, None, Some(number), millis, reference, now)
      ensures r.Success? ==> transactions == old(transactions) + [r.value]
      ensures r.Success? ==> TotalBalance(accounts) == TotalBalance(old(accounts)) + amount
    {
      if number !in accounts {
        return Failure(AccountNotFound);
      }
      var account := accounts[number];
      account := account.(balance := account.balance + amount);
      accounts := accounts[number := account];
      CreditTotal(old(accounts), number, amount);
      var record := Transaction(TransactionId(millis), DEPOSIT, amount, description,
                                None, Some(number), COMPLETED, reference, now);
      transactions := transactions + [record];
      r := Success(record);
    }

    /** `withdraw`: the balance must cover the amount; nothing else is checked. */
    method Withdraw(number: AccountNumber, amount: Money, description: Option<string>,
                    millis: nat, reference: string, now: Timestamp)
      returns (r: Result<Transaction>)
      requires Valid()
      modifies this
      ensures Valid()
      ensures var expected := ApplyWithdraw(old(accounts), number, amount);
        && (r.Success? <==> expected.Success?)
        && (r.Failure? ==> r.error == expected.error && accounts == old(accounts) && transactions == old(transactions))
        && (r.Success? ==> accounts == expected.value)
      ensures r.Success? ==> r.value == Record(WITHDRAWAL, amount, description, Some(number), None, millis, reference, now)
      ensures r.Success? ==> transactions == old(transactions) + [r.value]
      ensures r.Success? ==> TotalBalance(accounts) == TotalBalance(old(accounts)) - amount
    {
      if number !in accounts {
        return Failure(AccountNotFound);
      }
      var account := accounts[number];
      if account.balance < amount {
        return Failure(InsufficientBalance);
      }
      account := account.(balance := account.balance - amount);
      accounts := accounts[number := account];
      DebitTotal(old(accounts), number, amount);
      var record := Transaction(TransactionId(millis), WITHDRAWAL, amount, description,
                                Some(number), None, COMPLETED, reference, now);
      transactions := transactions + [record];
      r := Success(record);
    }

    /** `getAccountTransactions`: the account's history, newest first. */
    function AccountTransactions(number: AccountNumber): (r: Result<seq<Transaction>>)
      reads this
      ensures r.Failure? <==> number !in accounts
      ensures r.Failure? ==> r.error == AccountNotFound
      ensures r.Success? ==> r.value == FindByAccount(transactions, number)
    {
      if number !in accounts then Failure(AccountNotFound)
      else Success(FindByAccount(transactions, number))
    }

    /** `getAccountTransactionsPaginated`; its caller only pages with `page >= 0`
        and `size > 0`. */
    function AccountTransactionsPaginated(number: AccountNumber, page: nat, size: nat): (r: Result<Page>)
      requires size > 0
      reads this
      ensures r.Failure? <==> number !in accounts
      ensures r.Failure? ==> r.error == AccountNotFound
      ensures r.Success? ==> r.value == FindByAccountPaged(transactions, number, page, size)
    {
      if number !in accounts then Failure(AccountNotFound)
      else Success(FindByAccountPaged(transactions, number, page, size))
    }

    /** `getAccountTransactionsBetweenDates`. */
    function AccountTransactionsBetweenDates(number: AccountNumber, start: Timestamp, end: Timestamp)
      : (r: Result<seq<Transaction>>)
      reads this
      ensures r.Failure? <==> number !in accounts
      ensures r.Failure? ==> r.error == AccountNotFound
      ensures r.Success? ==> r.value == FindBetweenDates(transactions, number, start, end)
    {
      if number !in accounts then Failure(AccountNotFound)
      else Success(FindBetweenDates(transactions, number, start, end))
    }

    /** `generateAccountNumber`: draw candidates until one is not yet in the account
        table. The source loops for as long as it takes; here the draws are given
        up front and the loop gives up when they run out. */
    method GenerateAccountNumber(draws: seq<Draw>) returns (r: Option<AccountNumber>)
      requires forall i :: 0 <= i < |draws| ==> draws[i].random < 10000
      ensures r.Some? ==> r.value !in accounts
      ensures r.Some? ==> exists i :: 0 <= i < |draws| && r.value == AccountNumberCandidate(draws[i]) &&
                                      forall j :: 0 <= j < i ==> AccountNumberCandidate(draws[j]) in accounts
      ensures r.None? <==> forall i :: 0 <= i < |draws| ==> AccountNumberCandidate(draws[i]) in accounts
    {
      var i := 0;
      while i < |draws|
        invariant 0 <= i <= |draws|
        invariant forall j :: 0 <= j < i ==> AccountNumberCandidate(draws[j]) in accounts
      {
        var candidate := AccountNumberCandidate(draws[i]);
        if candidate !in accounts {
          return Some(candidate);
        }
        i := i + 1;
      }
      return None;
    }

    /** `createAccount`: the owner must exist; the new account gets a fresh number,
        zero balance, the active flag and its type's defaults. */
    method CreateAccount(directory: UserDirectory, owner: UserId, accountType: AccountType, draws: seq<Draw>)
      returns (r: Result<Account>)
      requires Valid()
      requires forall i :: 0 <= i < |draws| ==> draws[i].random < 10000
      modifies this
      ensures Valid()
      ensures owner !in directory.users ==> r == Failure(UserNotFound)
      ensures r.Failure? ==> accounts == old(accounts) && transactions == old(transactions)
      ensures r.Success? ==> owner in directory.users
      ensures r.Success? ==> r.value == NewAccount(r.value.accountNumber, accountType, owner)
      ensures r.Success? ==> r.value.accountNumber !in old(accounts)
      ensures r.Success? ==> exists i :: 0 <= i < |draws| && r.value.accountNumber == AccountNumberCandidate(draws[i]) &&
                                      forall j :: 0 <= j < i ==> AccountNumberCandidate(draws[j]) in old(accounts)
      ensures owner in directory.users && (exists i :: 0 <= i < |draws| && AccountNumberCandidate(draws[i]) !in old(accounts))
              ==> r.Success?
      ensures owner in directory.users && (forall i :: 0 <= i < |draws| ==> AccountNumberCandidate(draws[i]) in old(accounts))
              ==> r == Failure(NoFreshAccountNumber)
      ensures r.Success? ==> accounts == old(accounts)[r.value.accountNumber := r.value]
      ensures transactions == old(transactions)
      ensures TotalBalance(accounts) == TotalBalance(old(accounts))
    {
      if owner !in directory.users {
        return Failure(UserNotFound);
      }
      var number := GenerateAccountNumber(draws);
      if number.None? {
        return Failure(NoFreshAccountNumber);
      }
      var account := Account(number.value, accountType, 0, true, None, None, owner);
      account := account.(minimumBalance := Some(MinimumBalanceFor(accountType)));
      if accountType == CURRENT {
        account := account.(overdraftLimit := OverdraftLimitFor(accountType));
      }
      TotalBalanceInsert(accounts, number.value, account);
      accounts := accounts[number.value := account];
      r := Success(account);
    }

    /** `getUserAccounts`: the accounts of an existing user. */
    function UserAccounts(directory: UserDirectory, owner: UserId): (r: Result<set<Account>>)
      reads this, directory
      ensures r.Failure? <==> owner !in directory.users
      ensures r.Failure? ==> r.error == UserNotFound
      ensures r.Success? ==> forall a :: a in r.value <==> a in accounts.Values && a.owner == owner
    {
      if owner !in directory.users then Failure(UserNotFound) else Success(AccountsOf(accounts, owner))
    }

    /** `getAccountByNumber`. */
    function AccountByNumber(number: AccountNumber): (r: Option<Account>)
      reads this
      ensures r.Some? <==> number in accounts
      ensures r.Some? ==> r.value == accounts[number]
    {
      if number in accounts then Some(accounts[number]) else None
    }

    /** `updateBalance`: add the amount with no check, no record. */
    method UpdateBalance(number: AccountNumber, amount: Money) returns (r: Result<Account>)
      requires Valid()
      modifies this
      ensures Valid()
      ensures var expected := ApplyCredit(old(accounts), number, amount);
        && (r.Success? <==> expected.Success?)
        && (r.Failure? ==> r.error == expected.error && accounts == old(accounts))
        && (r.Success? ==> accounts == expected.value && r.value == accounts[number])
      ensures transactions == old(transactions)
    {
      if number !in accounts {
        return Failure(AccountNotFound);
      }
      var account := accounts[number];
      account := account.(balance := account.balance + amount);
      accounts := accounts[number := account];
      r := Success(account);
    }

    /** `deactivateAccount`: clear the active flag, keep everything else. */
    method DeactivateAccount(number: AccountNumber) returns (r: Result<Account>)
      requires Valid()
      modifies this
      ensures Valid()
      ensures var expected := ApplyDeactivate(old(accounts), number);
        && (r.Success? <==> expected.Success?)
        && (r.Failure? ==> r.error == expected.error && accounts == old(accounts))
        && (r.Success? ==> accounts == expected.value && r.value == accounts[number])
      ensures transactions == old(transactions)
    {
      if number !in accounts {
        return Failure(AccountNotFound);
      }
      var account := accounts[number];
      account := account.(isActive := false);
      accounts := accounts[number := account];
      r := Success(account);
    }
  }
}
