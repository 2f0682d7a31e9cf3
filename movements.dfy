/** The balance semantics of the transaction service's three money operations,
    and the records they append. The service looks accounts up, checks funds,
    saves each changed account back and appends one completed record. */
module Movements {
  import opened Common
  import opened Entities
  import opened Accounts
  import Identifiers

  /** `transferMoney` on the account table: source looked up first, then the
      destination, then `balance.compareTo(amount) < 0` on the source. The debit
      is saved before the credit re-reads the table, so when both numbers name
      the same account the credit sees the debited balance. */
  function ApplyTransfer(m: Accounts, from: AccountNumber, to: AccountNumber, amount: Money): (r: Result<Accounts>)
    ensures from !in m ==> r == Failure(SourceAccountNotFound)
    ensures from in m && to !in m ==> r == Failure(DestinationAccountNotFound)
    ensures from in m && to in m && m[from].balance < amount ==> r == Failure(InsufficientBalance)
    ensures r.Success? <==> from in m && to in m && m[from].balance >= amount
  {
    if from !in m then Failure(SourceAccountNotFound)
    else if to !in m then Failure(DestinationAccountNotFound)
    else if m[from].balance < amount then Failure(InsufficientBalance)
    else
      var debited := Debit(m, from, amount);
      Success(Credit(debited, to, amount))
  }

  /** `withdraw` on the account table: the debit floor is zero for every account
      type; neither the overdraft limit nor the active flag is consulted. */
  function ApplyWithdraw(m: Accounts, n: AccountNumber, amount: Money): (r: Result<Accounts>)
    ensures n !in m ==> r == Failure(AccountNotFound)
    ensures n in m && m[n].balance < amount ==> r == Failure(InsufficientBalance)
    ensures r.Success? <==> n in m && m[n].balance >= amount
    ensures r.Success? ==> r.value == Debit(m, n, amount) && r.value[n].balance >= 0
  {
    if n !in m then Failure(AccountNotFound)
    else if m[n].balance < amount then Failure(InsufficientBalance)
    else Success(Debit(m, n, amount))
  }

  /** The effect of a successful transfer between two different accounts: the
      source falls by the amount and never below zero, the destination rises by
      it, every other account is as it was. */
  lemma TransferMovesAmount(m: Accounts, from: AccountNumber, to: AccountNumber, amount: Money)
    requires from != to
    requires ApplyTransfer(m, from, to, amount).Success?
    ensures var r := ApplyTransfer(m, from, to, amount).value;
      && r.Keys == m.Keys
      && r[from] == m[from].(balance := m[from].balance - amount)
      && r[to] == m[to].(balance := m[to].balance + amount)
      && r[from].balance >= 0
      && (forall k :: k in m && k != from && k != to ==> r[k] == m[k])
  {
  }

  /** A transfer from an account to itself with sufficient funds changes nothing. */
  lemma SelfTransferUnchanged(m: Accounts, n: AccountNumber, amount: Money)
    requires n in m && m[n].balance >= amount
    ensures ApplyTransfer(m, n, n, amount) == Success(m)
  {
    var debited := Debit(m, n, amount);
    assert Credit(debited, n, amount)[n] == m[n];
    assert Credit(debited, n, amount) == m;
  }

  /** The zero floor on the debited side needs two distinct accounts: balances can
      be negative (credits take any amount), and a self-transfer from -100 of -200
      passes the funds check and leaves the balance at -100. */
  lemma SelfTransferKeepsNegativeBalance(m: Accounts, n: AccountNumber)
    requires n in m && m[n].balance == -100 * MinorPerUnit
    ensures ApplyTransfer(m, n, n, -200 * MinorPerUnit) == Success(m)
    ensures ApplyTransfer(m, n, n, -200 * MinorPerUnit).value[n].balance < 0
  {
    SelfTransferUnchanged(m, n, -200 * MinorPerUnit);
  }

  /** Conservation: a successful transfer keeps the sum of all balances. */
  lemma TransferConservesTotal(m: Accounts, from: AccountNumber, to: AccountNumber, amount: Money)
    requires ApplyTransfer(m, from, to, amount).Success?
    ensures TotalBalance(ApplyTransfer(m, from, to, amount).value) == TotalBalance(m)
  {
    DebitTotal(m, from, amount);
    CreditTotal(Debit(m, from, amount), to, amount);
  }

  /** A withdrawal takes exactly the amount out of the total. */
  lemma WithdrawTotal(m: Accounts, n: AccountNumber, amount: Money)
    requires ApplyWithdraw(m, n, amount).Success?
    ensures TotalBalance(ApplyWithdraw(m, n, amount).value) == TotalBalance(m) - amount
  {
    DebitTotal(m, n, amount);
  }

  /** Transferring the same amount back restores the table, provided the
      destination did not start below zero (then it can always pay it back). */
  lemma TransferBack(m: Accounts, from: AccountNumber, to: AccountNumber, amount: Money)
    requires ApplyTransfer(m, from, to, amount).Success?
    requires m[to].balance >= 0
    ensures var r := ApplyTransfer(m, from, to, amount).value;
      ApplyTransfer(r, to, from, amount) == Success(m)
  {
    var r := ApplyTransfer(m, from, to, amount).value;
    if from == to {
      SelfTransferUnchanged(m, from, amount);
      SelfTransferUnchanged(m, from, amount);
    } else {
      TransferMovesAmount(m, from, to, amount);
      var back := ApplyTransfer(r, to, from, amount).value;
      assert back == m;
    }
  }

  /** A deposit followed by a withdrawal of the same amount from an account
      with a non-negative balance succeeds and restores the table. */
  lemma DepositThenWithdraw(m: Accounts, n: AccountNumber, amount: Money)
    requires n in m && m[n].balance >= 0
    ensures var d := ApplyCredit(m, n, amount);
      d.Success? && ApplyWithdraw(d.value, n, amount) == Success(m)
  {
    var d := ApplyCredit(m, n, amount).value;
    assert Debit(d, n, amount) == m;
  }

  /** One requested transfer of a batch. */
  datatype TransferRequest = TransferRequest(from: AccountNumber, to: AccountNumber, amount: Money)

  /** Runs a batch of transfers in order; a failed transfer leaves the table as it was. */
  function RunTransfers(m: Accounts, batch: seq<TransferRequest>): (r: Accounts)
    ensures r.Keys == m.Keys
  {
    if batch == [] then m
    else
      var q := batch[0];
      var step := ApplyTransfer(m, q.from, q.to, q.amount);
      var next := if step.Success? then step.value else m;
      assert next.Keys == m.Keys by {
        if step.Success? && q.from != q.to {
          TransferMovesAmount(m, q.from, q.to, q.amount);
        } else if step.Success? {
          SelfTransferUnchanged(m, q.from, q.amount);
        }
      }
      RunTransfers(next, batch[1..])
  }

  /** Any sequence of transfers, successful or not, keeps the sum of all balances. */
  lemma {:induction false} RunTransfersConservesTotal(m: Accounts, batch: seq<TransferRequest>)
    ensures TotalBalance(RunTransfers(m, batch)) == TotalBalance(m)
  {
    if batch != [] {
      var q := batch[0];
      var step := ApplyTransfer(m, q.from, q.to, q.amount);
      if step.Success? {
        TransferConservesTotal(m, q.from, q.to, q.amount);
        RunTransfersConservesTotal(step.value, batch[1..]);
      } else {
        RunTransfersConservesTotal(m, batch[1..]);
      }
    }
  }

  /** The record a money operation appends: id from the clock, the given amount
      and description, status COMPLETED, the random reference and the audit time. */
  function Record(kind: TransactionType, amount: Money, description: Option<string>,
                  from: Option<AccountNumber>, to: Option<AccountNumber>,
                  millis: nat, reference: string, now: Timestamp): (t: Transaction)
    requires kind == TRANSFER ==> from.Some? && to.Some?
    requires kind == DEPOSIT ==> from.None? && to.Some?
    requires kind == WITHDRAWAL ==> from.Some? && to.None?
    ensures WellFormedRecord(t)
    ensures t.transactionType == kind && t.amount == amount && t.description == description
    ensures t.fromAccount == from && t.toAccount == to
    ensures t.transactionId == Identifiers.TransactionId(millis)
  {
    Transaction(Identifiers.TransactionId(millis), kind, amount, description, from, to,
                COMPLETED, reference, now)
  }
}
