/** The account table and the account-level rules of the account service:
    per-type defaults, new accounts, balance updates, deactivation and the
    total of all balances that money movements must respect. */
module Accounts {
  import opened Common
  import opened Entities

  /** The account table, keyed by account number. */
  type Accounts = map<AccountNumber, Account>

  /** Every account is stored under its own number. */
  ghost predicate KeyedByNumber(m: Accounts)
  {
    forall n :: n in m ==> m[n].accountNumber == n
  }

  /** The minimum balance `setAccountDefaults` gives each account type. */
  function MinimumBalanceFor(t: AccountType): (min: Money)
    ensures min >= 0
    ensures min == 0 <==> t == SALARY
  {
    match t
    case SAVINGS => 1000 * MinorPerUnit
    case CURRENT => 5000 * MinorPerUnit
    case SALARY => 0
    case FIXED_DEPOSIT => 10000 * MinorPerUnit
  }

  /** The overdraft limit `setAccountDefaults` sets; other types keep the null default. */
  function OverdraftLimitFor(t: AccountType): (limit: Option<Money>)
    ensures limit.Some? <==> t == CURRENT
    ensures limit.Some? ==> limit.value > 0
  {
    if t == CURRENT then Some(50000 * MinorPerUnit) else None
  }

  /** The account `createAccount` builds before saving it: zero balance, active,
      of the requested type, owned by the user, with the type's defaults. */
  function NewAccount(number: AccountNumber, t: AccountType, owner: UserId): (a: Account)
    ensures a.accountNumber == number && a.accountType == t && a.owner == owner
    ensures a.balance == 0 && a.isActive
    ensures a.minimumBalance == Some(MinimumBalanceFor(t))
    ensures a.overdraftLimit.Some? <==> t == CURRENT
  {
    Account(number, t, 0, true, Some(MinimumBalanceFor(t)), OverdraftLimitFor(t), owner)
  }

  /** The sum of all balances in the table. */
  ghost function TotalBalance(m: Accounts): int
    decreases |m|
  {
    if m == map[] then 0
    else
      var n :| n in m;
      assert |m - {n}| < |m| by {
        assert m.Keys - {n} < m.Keys;
      }
      m[n].balance + TotalBalance(m - {n})
  }

  /** The total can be split at any account. */
  lemma {:induction false} TotalBalanceSplit(m: Accounts, n: AccountNumber)
    requires n in m
    ensures TotalBalance(m) == m[n].balance + TotalBalance(m - {n})
    decreases |m|
  {
    var k :| k in m && TotalBalance(m) == m[k].balance + TotalBalance(m - {k});
    if k != n {
      assert |m - {k}| < |m| by {
        assert m.Keys - {k} < m.Keys;
      }
      TotalBalanceSplit(m - {k}, n);
      assert |m - {n}| < |m| by {
        assert m.Keys - {n} < m.Keys;
      }
      TotalBalanceSplit(m - {n}, k);
      assert m - {k} - {n} == m - {n} - {k};
    }
  }

  /** Replacing one account changes the total by the change of its balance. */
  lemma TotalBalanceUpdate(m: Accounts, n: AccountNumber, a: Account)
    requires n in m
    ensures TotalBalance(m[n := a]) == TotalBalance(m) - m[n].balance + a.balance
  {
    TotalBalanceSplit(m, n);
    TotalBalanceSplit(m[n := a], n);
    assert m[n := a] - {n} == m - {n};
  }

  /** Adding a new account adds its balance to the total. */
  lemma TotalBalanceInsert(m: Accounts, n: AccountNumber, a: Account)
    requires n !in m
    ensures TotalBalance(m[n := a]) == TotalBalance(m) + a.balance
  {
    TotalBalanceSplit(m[n := a], n);
    assert m[n := a] - {n} == m;
  }

  /** `setBalance(getBalance().add(amount))` on account `n`, then `save`. */
  function Credit(m: Accounts, n: AccountNumber, amount: Money): (r: Accounts)
    requires n in m
    ensures r.Keys == m.Keys
    ensures r[n] == m[n].(balance := m[n].balance + amount)
    ensures forall k :: k in m && k != n ==> r[k] == m[k]
  {
    m[n := m[n].(balance := m[n].balance + amount)]
  }

  /** `setBalance(getBalance().subtract(amount))` on account `n`, then `save`. */
  function Debit(m: Accounts, n: AccountNumber, amount: Money): (r: Accounts)
    requires n in m
    ensures r.Keys == m.Keys
    ensures r[n] == m[n].(balance := m[n].balance - amount)
    ensures forall k :: k in m && k != n ==> r[k] == m[k]
  {
    m[n := m[n].(balance := m[n].balance - amount)]
  }

  lemma CreditTotal(m: Accounts, n: AccountNumber, amount: Money)
    requires n in m
    ensures TotalBalance(Credit(m, n, amount)) == TotalBalance(m) + amount
  {
    TotalBalanceUpdate(m, n, m[n].(balance := m[n].balance + amount));
  }

  lemma DebitTotal(m: Accounts, n: AccountNumber, amount: Money)
    requires n in m
    ensures TotalBalance(Debit(m, n, amount)) == TotalBalance(m) - amount
  {
    TotalBalanceUpdate(m, n, m[n].(balance := m[n].balance - amount));
  }

  /** `updateBalance` (and the balance part of `deposit`): look the account up,
      add the amount with no check of its sign or of the account's state. */
  function ApplyCredit(m: Accounts, n: AccountNumber, amount: Money): (r: Result<Accounts>)
    ensures r.Failure? <==> n !in m
    ensures r.Failure? ==> r.error == AccountNotFound
    ensures r.Success? ==> r.value == Credit(m, n, amount)
  {
    if n !in m then Failure(AccountNotFound) else Success(Credit(m, n, amount))
  }

  /** A credit moves the total of all balances by exactly the amount. */
  lemma ApplyCreditTotal(m: Accounts, n: AccountNumber, amount: Money)
    requires n in m
    ensures ApplyCredit(m, n, amount).Success?
    ensures TotalBalance(ApplyCredit(m, n, amount).value) == TotalBalance(m) + amount
  {
    CreditTotal(m, n, amount);
  }

  /** `deactivateAccount`: clear the active flag of an existing account. */
  function ApplyDeactivate(m: Accounts, n: AccountNumber): (r: Result<Accounts>)
    ensures r.Failure? <==> n !in m
    ensures r.Failure? ==> r.error == AccountNotFound
    ensures r.Success? ==> r.value.Keys == m.Keys
    ensures r.Success? ==> !r.value[n].isActive && r.value[n].(isActive := true) == m[n].(isActive := true)
    ensures r.Success? ==> forall k :: k in m && k != n ==> r.value[k] == m[k]
  {
    if n !in m then Failure(AccountNotFound) else Success(m[n := m[n].(isActive := false)])
  }

  /** Deactivating twice is the same as deactivating once. */
  lemma DeactivateIdempotent(m: Accounts, n: AccountNumber)
    requires n in m
    ensures ApplyDeactivate(ApplyDeactivate(m, n).value, n) == ApplyDeactivate(m, n)
  {
    var once := ApplyDeactivate(m, n).value;
    assert once[n := once[n].(isActive := false)] == once;
  }

  /** Deactivation moves no money. */
  lemma DeactivateKeepsTotal(m: Accounts, n: AccountNumber)
    requires n in m
    ensures TotalBalance(ApplyDeactivate(m, n).value) == TotalBalance(m)
  {
    TotalBalanceUpdate(m, n, m[n].(isActive := false));
  }

  /** The accounts `findByUser` returns for a user: every stored account the user owns. */
  function AccountsOf(m: Accounts, owner: UserId): (r: set<Account>)
    ensures forall a :: a in r <==> a in m.Values && a.owner == owner
  {
    set n | n in m && m[n].owner == owner :: m[n]
  }
}
