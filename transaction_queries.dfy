/** The derived queries of the transaction repository, as functions of the
    transaction table (a sequence in insertion order). */
module TransactionQueries {
  import opened Common
  import opened Entities

  /** The record has the account on either side. */
  predicate Involves(t: Transaction, account: AccountNumber)
  {
    t.fromAccount == Some(account) || t.toAccount == Some(account)
  }

  /** `Involves` as a filter for `Select`. */
  function InvolvesFilter(account: AccountNumber): Transaction -> bool
  {
    (t: Transaction) => Involves(t, account)
  }

  function InWindowFilter(account: AccountNumber, start: Timestamp, end: Timestamp): Transaction -> bool
  {
    (t: Transaction) => Involves(t, account) && InWindow(t, start, end)
  }

  predicate InWindow(t: Transaction, start: Timestamp, end: Timestamp)
  {
    start <= t.createdAt <= end
  }

  /** Newest first: creation times never increase along the sequence. */
  predicate NewestFirst(s: seq<Transaction>)
  {
    forall i, j :: 0 <= i < j < |s| ==> s[i].createdAt >= s[j].createdAt
  }

  /** The records of `s` that `keep` accepts, in table order. */
  function Select(s: seq<Transaction>, keep: Transaction -> bool): (r: seq<Transaction>)
    ensures |r| <= |s|
  {
    if s == [] then []
    else if keep(s[0]) then [s[0]] + Select(s[1..], keep)
    else Select(s[1..], keep)
  }

  /** `Select` keeps each accepted record exactly as often as the table holds it,
      and no other record. */
  lemma {:induction false} SelectCounts(s: seq<Transaction>, keep: Transaction -> bool)
    ensures forall t :: multiset(Select(s, keep))[t] == if keep(t) then multiset(s)[t] else 0
    ensures forall t :: t in Select(s, keep) <==> t in s && keep(t)
  {
    if s != [] {
      SelectCounts(s[1..], keep);
      assert s == [s[0]] + s[1..];
      var r := Select(s, keep);
      forall t ensures t in r <==> t in multiset(r) {
      }
    }
  }

  /** Places `t` in front of the first record that is not newer than it. */
  function InsertNewestFirst(t: Transaction, s: seq<Transaction>): (r: seq<Transaction>)
    requires NewestFirst(s)
    ensures NewestFirst(r)
    ensures multiset(r) == multiset(s) + multiset{t}
    ensures r[0] == t || (s != [] && r[0] == s[0])
  {
    if s == [] || s[0].createdAt <= t.createdAt then
      PrependNewestFirst(t, s);
      [t] + s
    else
      var rest := InsertNewestFirst(t, s[1..]);
      assert s == [s[0]] + s[1..];
      PrependNewestFirst(s[0], rest);
      [s[0]] + rest
  }

  lemma PrependNewestFirst(x: Transaction, s: seq<Transaction>)
    requires NewestFirst(s)
    requires s == [] || s[0].createdAt <= x.createdAt
    ensures NewestFirst([x] + s)
  {
  }

  /** `ORDER BY createdAt DESC`: a newest-first permutation of `s`. */
  function SortNewestFirst(s: seq<Transaction>): (r: seq<Transaction>)
    ensures NewestFirst(r)
    ensures multiset(r) == multiset(s)
  {
    if s == [] then []
    else
      assert s == [s[0]] + s[1..];
      InsertNewestFirst(s[0], SortNewestFirst(s[1..]))
  }

  /** `findByFromAccountOrToAccountOrderByCreatedAtDesc(account, account)`. */
  function FindByAccount(txs: seq<Transaction>, account: AccountNumber): (r: seq<Transaction>)
    ensures NewestFirst(r)
    ensures forall t :: t in r <==> t in txs && Involves(t, account)
    ensures forall t :: multiset(r)[t] == if Involves(t, account) then multiset(txs)[t] else 0
  {
    var selected := Select(txs, InvolvesFilter(account));
    SelectCounts(txs, InvolvesFilter(account));
    var r := SortNewestFirst(selected);
    assert forall t :: t in r <==> t in selected by {
      forall t ensures t in r <==> t in selected {
        assert t in r <==> t in multiset(r);
      }
    }
    r
  }

  /** One page of a history: its content and the size of the whole history. */
  datatype Page = Page(content: seq<Transaction>, totalElements: nat)

  /** The elements of `all` at positions `[offset, offset + size)` that exist. */
  function Window(all: seq<Transaction>, offset: nat, size: nat): (w: seq<Transaction>)
    ensures |w| == if offset >= |all| then 0 else if offset + size <= |all| then size else |all| - offset
    ensures forall i :: 0 <= i < |w| ==> w[i] == all[offset + i]
  {
    if offset >= |all| then []
    else if offset + size <= |all| then all[offset..offset + size]
    else all[offset..]
  }

  /** The paged form of `FindByAccount`: the slice `[page * size, page * size + size)`
      of the full history, clipped to its length, and the length of the full history. */
  function FindByAccountPaged(txs: seq<Transaction>, account: AccountNumber, page: nat, size: nat): (p: Page)
    requires size > 0
    ensures var all := FindByAccount(txs, account);
      && p.totalElements == |all|
      && p.content == Window(all, page * size, size)
  {
    var all := FindByAccount(txs, account);
    Page(Window(all, page * size, size), |all|)
  }

  /** Every entry `i` of a history is found on page `i / size` at position `i % size`
      (a page's content is `Window(history, page * size, size)`). */
  lemma WindowCovers(all: seq<Transaction>, size: nat, i: nat)
    requires size > 0 && i < |all|
    ensures var w := Window(all, i / size * size, size);
      i % size < |w| && w[i % size] == all[i]
  {
  }

  /** `findAccountTransactionsBetweenDates`: the account's records whose creation time
      lies in the closed window `[start, end]`, newest first. */
  function FindBetweenDates(txs: seq<Transaction>, account: AccountNumber, start: Timestamp, end: Timestamp)
    : (r: seq<Transaction>)
    ensures NewestFirst(r)
    ensures forall t :: t in r <==> t in txs && Involves(t, account) && InWindow(t, start, end)
    ensures forall t :: multiset(r)[t] ==
                        if Involves(t, account) && InWindow(t, start, end) then multiset(txs)[t] else 0
    ensures start > end ==> r == []
  {
    var selected := Select(txs, InWindowFilter(account, start, end));
    SelectCounts(txs, InWindowFilter(account, start, end));
    var r := SortNewestFirst(selected);
    assert forall t :: t in r <==> t in selected by {
      forall t ensures t in r <==> t in selected {
        assert t in r <==> t in multiset(r);
      }
    }
    r
  }

  /** `findByStatus`: exactly the records with that status. */
  function FindByStatus(txs: seq<Transaction>, status: TransactionStatus): (r: seq<Transaction>)
    ensures forall t :: t in r <==> t in txs && t.status == status
    ensures forall t :: multiset(r)[t] == if t.status == status then multiset(txs)[t] else 0
  {
    SelectCounts(txs, (t: Transaction) => t.status == status);
    Select(txs, (t: Transaction) => t.status == status)
  }

  /** `findByTransactionType`: exactly the records of that kind. */
  function FindByTransactionType(txs: seq<Transaction>, kind: TransactionType): (r: seq<Transaction>)
    ensures forall t :: t in r <==> t in txs && t.transactionType == kind
    ensures forall t :: multiset(r)[t] == if t.transactionType == kind then multiset(txs)[t] else 0
  {
    SelectCounts(txs, (t: Transaction) => t.transactionType == kind);
    Select(txs, (t: Transaction) => t.transactionType == kind)
  }


  /** Selecting from a table with one more record appends that record when it is kept. */
  lemma {:induction false} SelectAppend(s: seq<Transaction>, t: Transaction, keep: Transaction -> bool)
    ensures Select(s + [t], keep) == Select(s, keep) + (if keep(t) then [t] else [])
  {
    if s == [] {
      assert [t][1..] == [];
    } else {
      assert (s + [t])[1..] == s[1..] + [t];
      SelectAppend(s[1..], t, keep);
    }
  }

  /** Appending a record that does not involve an account leaves that account's
      history as it was. */
  lemma UnrelatedRecordKeepsHistory(txs: seq<Transaction>, t: Transaction, account: AccountNumber)
    requires !Involves(t, account)
    ensures FindByAccount(txs + [t], account) == FindByAccount(txs, account)
  {
    SelectAppend(txs, t, InvolvesFilter(account));
    assert Select(txs + [t], InvolvesFilter(account)) == Select(txs, InvolvesFilter(account));
  }

  /** Appending a record that involves an account adds exactly that record to the
      account's history. */
  lemma RelatedRecordJoinsHistory(txs: seq<Transaction>, t: Transaction, account: AccountNumber)
    requires Involves(t, account)
    ensures multiset(FindByAccount(txs + [t], account)) == multiset(FindByAccount(txs, account)) + multiset{t}
  {
    SelectAppend(txs, t, InvolvesFilter(account));
  }
}
