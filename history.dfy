/**
 * The transaction history read: a user's transactions, optionally of one
 * type, newest first, one page at a time, with the total count and the number
 * of the last page.
 */
module History {
  import opened Wrappers
  import opened Money
  import opened Store

  /** One page of history and its paging metadata. */
  datatype Page = Page(data: seq<Transaction>, total: nat, page: int, lastPage: int)

  predicate OwnedBy(accounts: seq<Account>, accountId: int, userId: int)
  {
    exists j | 0 <= j < |accounts| :: accounts[j].id == accountId && accounts[j].userId == userId
  }

  /**
   * The filter of the query: some ledger entry of `t` is on an account owned
   * by `userId`, and `t` has the requested type when one is given.
   */
  predicate Selected(accounts: seq<Account>, ledger: seq<LedgerEntry>, userId: int,
                     kind: Option<TransactionType>, t: Transaction)
  {
    && (exists k | 0 <= k < |ledger| :: ledger[k].transactionId == t.id && OwnedBy(accounts, ledger[k].accountId, userId))
    && (kind.None? || t.kind == kind.value)
  }

  /**
   * The selected transactions ordered by creation time, newest first: exactly
   * the selected ones, each once, in strictly decreasing creation time.
   */
  function NewestFirst(accounts: seq<Account>, ledger: seq<LedgerEntry>, userId: int,
                       kind: Option<TransactionType>, transactions: seq<Transaction>): (r: seq<Transaction>)
    requires Chronological(transactions)
    ensures forall t :: t in r <==> t in transactions && Selected(accounts, ledger, userId, kind, t)
    ensures forall i, j :: 0 <= i < j < |r| ==> r[i].createdAt > r[j].createdAt
    ensures |r| <= |transactions|
  {
    if transactions == [] then []
    else
      var n := |transactions|;
      var newest := transactions[n - 1];
      var rest := transactions[..n - 1];
      assert Chronological(rest);
      var older := NewestFirst(accounts, ledger, userId, kind, rest);
      OlderThanNewest(transactions, older);
      (if Selected(accounts, ledger, userId, kind, newest) then [newest] else []) + older
  }

  /** Every transaction drawn from all but the last one was created before the last one. */
  lemma OlderThanNewest(transactions: seq<Transaction>, older: seq<Transaction>)
    requires Chronological(transactions) && |transactions| > 0
    requires forall t :: t in older ==> t in transactions[..|transactions| - 1]
    ensures forall t :: t in older ==> t.createdAt < transactions[|transactions| - 1].createdAt
  {
    forall t | t in older
      ensures t.createdAt < transactions[|transactions| - 1].createdAt
    {
      var i :| 0 <= i < |transactions| - 1 && transactions[i] == t;
    }
  }

  /** `Math.ceil(total / limit)` for a non-negative total and a positive limit. */
  function CeilDiv(total: nat, limit: int): (q: nat)
    requires limit > 0
    ensures (q - 1) * limit < total <= q * limit
  {
    (total + limit - 1) / limit
  }

  /** At most `take` elements of `s`, starting at position `skip`. */
  function Window<T>(s: seq<T>, skip: nat, take: nat): (w: seq<T>)
    ensures |w| == if skip >= |s| then 0 else if |s| - skip < take then |s| - skip else take
    ensures forall k :: 0 <= k < |w| ==> w[k] == s[skip + k]
  {
    if skip >= |s| then [] else if |s| - skip < take then s[skip..] else s[skip..skip + take]
  }

  /** The number of matches the query skips for `page`. */
  function Skip(page: int, limit: int): (skip: nat)
    requires page >= 1 && limit > 0
    ensures skip == (page - 1) * limit
  {
    var n: nat := page - 1;
    var l: nat := limit;
    n * l
  }

  /**
   * The page of a user's history: the query skips `(page - 1) * limit`
   * matches, takes at most `limit`, counts every match, and reports the last
   * page as the total divided by the limit, rounded up.
   */
  function FindAll(accounts: seq<Account>, transactions: seq<Transaction>, ledger: seq<LedgerEntry>,
                   userId: int, kind: Option<TransactionType>, page: int, limit: int): (p: Page)
    requires Chronological(transactions)
    requires page >= 1 && limit > 0
    ensures var matches := NewestFirst(accounts, ledger, userId, kind, transactions);
      var skip := Skip(page, limit);
      && p.total == |matches|
      && p.page == page
      && (p.lastPage - 1) * limit < p.total <= p.lastPage * limit
      && |p.data| == (if skip >= |matches| then 0 else if |matches| - skip < limit then |matches| - skip else limit)
      && forall k :: 0 <= k < |p.data| ==> p.data[k] == matches[skip + k]
    ensures |p.data| <= limit
    ensures forall t :: t in p.data ==> t in transactions && Selected(accounts, ledger, userId, kind, t)
    ensures forall i, j :: 0 <= i < j < |p.data| ==> p.data[i].createdAt > p.data[j].createdAt
  {
    var matches := NewestFirst(accounts, ledger, userId, kind, transactions);
    var skip := Skip(page, limit);
    var data := Window(matches, skip, limit);
    WindowKeepsOrder(matches, skip, limit);
    Page(data, |matches|, page, CeilDiv(|matches|, limit))
  }

  /** A window of a newest-first sequence is drawn from it and is itself newest first. */
  lemma WindowKeepsOrder(s: seq<Transaction>, skip: nat, take: nat)
    requires forall i, j :: 0 <= i < j < |s| ==> s[i].createdAt > s[j].createdAt
    ensures forall t :: t in Window(s, skip, take) ==> t in s
    ensures var w := Window(s, skip, take);
      forall i, j :: 0 <= i < j < |w| ==> w[i].createdAt > w[j].createdAt
  {
    var w := Window(s, skip, take);
    forall t | t in w
      ensures t in s
    {
      var k :| 0 <= k < |w| && w[k] == t;
      assert s[skip + k] == t;
    }
  }

  /** Position `i` of the matches falls on page `i / limit + 1`, no later than the last page. */
  lemma PageArithmetic(i: nat, limit: int, total: nat)
    requires limit > 0 && i < total
    ensures Skip(i / limit + 1, limit) + i % limit == i
    ensures i / limit + 1 <= CeilDiv(total, limit)
  {
    var q := CeilDiv(total, limit);
    assert i == (i / limit) * limit + i % limit;
    if i / limit >= q {
      MulMonotone(i / limit, q, limit);
      assert false;
    }
  }

  /**
   * Paging loses nothing: the match at position `i` of the newest-first order
   * is on page `i / limit + 1`, at position `i % limit`, and that page is
   * no later than the last page.
   */
  lemma PageOfMatch(accounts: seq<Account>, transactions: seq<Transaction>, ledger: seq<LedgerEntry>,
                    userId: int, kind: Option<TransactionType>, limit: int, i: nat)
    requires Chronological(transactions) && limit > 0
    requires i < |NewestFirst(accounts, ledger, userId, kind, transactions)|
    ensures var p := FindAll(accounts, transactions, ledger, userId, kind, i / limit + 1, limit);
      && i / limit + 1 <= p.lastPage
      && i % limit < |p.data|
      && p.data[i % limit] == NewestFirst(accounts, ledger, userId, kind, transactions)[i]
  {
    var matches := NewestFirst(accounts, ledger, userId, kind, transactions);
    PageArithmetic(i, limit, |matches|);
  }
}
