/** Keyset pagination over the audit log while rows are inserted and pruned, and the pruner itself. */
module AuditPages {
  import opened Ordered
  import opened Wrappers

  datatype Row = Row(id: nat, createdAt: int, orgId: nat, sourceId: nat, result: string)

  datatype Filter = Filter(orgId: nat, sourceId: Option<nat>, status: Option<string>, from: Option<int>,
                           to: Option<int>)

  /** The (created_at, id) of the last row of the page before. */
  datatype Cursor = Cursor(createdAt: int, id: nat)

  predicate Matches(f: Filter, r: Row) {
    && r.orgId == f.orgId
    && (f.sourceId.Some? ==> r.sourceId == f.sourceId.value)
    && (f.status.Some? ==> r.result == f.status.value)
    && (f.from.Some? ==> r.createdAt >= f.from.value)
    && (f.to.Some? ==> r.createdAt <= f.to.value)
  }

  predicate Older(c: Cursor, r: Row) {
    r.createdAt < c.createdAt || (r.createdAt == c.createdAt && r.id < c.id)
  }

  function CursorOf(r: Row): Cursor {
    Cursor(r.createdAt, r.id)
  }

  /** ORDER BY created_at DESC, id DESC. */
  predicate Newer(a: Row, b: Row) {
    Older(CursorOf(a), b)
  }

  ghost predicate UniqueIds(t: set<Row>) {
    forall r, s :: r in t && s in t && r.id == s.id ==> r == s
  }

  lemma NewerIsOrder(t: set<Row>)
    requires UniqueIds(t)
    ensures StrictOrder(Newer, t)
  {
  }

  /** WHERE. */
  function Selected(t: set<Row>, f: Filter, cursor: Option<Cursor>): set<Row> {
    set r | r in t && Matches(f, r) && (cursor.Some? ==> Older(cursor.value, r))
  }

  /** The listing query on one state of the table. */
  ghost function ListAuditLogs(t: set<Row>, f: Filter, cursor: Option<Cursor>, limit: nat): (page: seq<Row>)
    requires UniqueIds(t)
  {
    NewerIsOrder(Selected(t, f, cursor));
    Take(Newer, Selected(t, f, cursor), limit)
  }

  // ----- paging -----

  function NextCursor(page: seq<Row>, cursor: Option<Cursor>): Option<Cursor> {
    if page == [] then cursor else Some(CursorOf(page[|page| - 1]))
  }

  /**
    One page per table state; between two pages the table may change in any way at all. The next
    page is asked for with the last row of this one, as long as pages come back full.
   */
  ghost predicate Paging(tables: seq<set<Row>>, f: Filter, cursor: Option<Cursor>, limit: nat, pages: seq<seq<Row>>)
    decreases |pages|
  {
    && |pages| == |tables| && pages != []
    && UniqueIds(tables[0]) && pages[0] == ListAuditLogs(tables[0], f, cursor, limit)
    && (|pages| > 1
      ==> |pages[0]| == limit > 0 && Paging(tables[1..], f, NextCursor(pages[0], cursor), limit, pages[1..]))
  }

  function Concat(pages: seq<seq<Row>>): seq<Row> {
    if pages == [] then [] else pages[0] + Concat(pages[1..])
  }

  lemma PageFacts(t: set<Row>, f: Filter, cursor: Option<Cursor>, limit: nat)
    requires UniqueIds(t)
    ensures var page := ListAuditLogs(t, f, cursor, limit);
      && Ascending(Newer, page) && |page| <= limit
      && (forall r :: r in page ==> r in t && Matches(f, r) && (cursor.Some? ==> Older(cursor.value, r)))
      && (forall r :: r in t && Matches(f, r) && (cursor.Some? ==> Older(cursor.value, r)) && r !in page ==>
          |page| == limit && (page != [] ==> Newer(page[|page| - 1], r)))
  {
    NewerIsOrder(Selected(t, f, cursor));
    TakeIsTop(Newer, Selected(t, f, cursor), limit);
  }

  lemma JoinDescending(a: seq<Row>, b: seq<Row>)
    requires Ascending(Newer, a) && Ascending(Newer, b)
    requires a != [] ==> forall r :: r in b ==> Newer(a[|a| - 1], r)
    ensures Ascending(Newer, a + b)
  {
    forall i, j | 0 <= i < |a| && 0 <= j < |b|
      ensures Newer(a[i], b[j])
    {
      assert i < |a| - 1 ==> Newer(a[i], a[|a| - 1]);
      assert b[j] in b;
    }
  }

  ghost predicate Beyond(f: Filter, cursor: Option<Cursor>, q: seq<Row>) {
    forall r :: r in q ==> Matches(f, r) && (cursor.Some? ==> Older(cursor.value, r))
  }

  lemma BeyondLast(f: Filter, cursor: Option<Cursor>, page: seq<Row>, rest: seq<Row>)
    requires Beyond(f, cursor, page) && Beyond(f, NextCursor(page, cursor), rest)
    ensures Beyond(f, cursor, page + rest)
  {
    assert page != [] ==> page[|page| - 1] in page;
  }

  /** All pages of a run together are in strictly descending order, so no row comes twice. */
  lemma {:induction false} PagesDescend(tables: seq<set<Row>>, f: Filter, cursor: Option<Cursor>, limit: nat,
                                        pages: seq<seq<Row>>)
    requires Paging(tables, f, cursor, limit, pages)
    ensures Ascending(Newer, Concat(pages)) && Beyond(f, cursor, Concat(pages))
    decreases |pages|
  {
    PageFacts(tables[0], f, cursor, limit);
    var rest := Concat(pages[1..]);
    if |pages| > 1 {
      PagesDescend(tables[1..], f, NextCursor(pages[0], cursor), limit, pages[1..]);
    }
    JoinDescending(pages[0], rest);
    BeyondLast(f, cursor, pages[0], rest);
  }

  /** The row is in the table at the time of every page. */
  ghost predicate InAll(tables: seq<set<Row>>, r: Row) {
    forall i :: 0 <= i < |tables| ==> r in tables[i]
  }

  /** A row behind the cursor is on the page, or the page is full and the row behind its last row. */
  lemma OnPageOrBeyond(t: set<Row>, f: Filter, cursor: Option<Cursor>, limit: nat, r: Row)
    requires UniqueIds(t) && r in t && Matches(f, r) && (cursor.Some? ==> Older(cursor.value, r))
    ensures var page := ListAuditLogs(t, f, cursor, limit);
      r in page || (|page| == limit && (page != [] ==> Older(NextCursor(page, cursor).value, r)))
  {
    PageFacts(t, f, cursor, limit);
  }

  /** A matching row that exists for the whole run is on one of the pages once the last is not full. */
  lemma {:induction false} NothingMissed(tables: seq<set<Row>>, f: Filter, cursor: Option<Cursor>, limit: nat,
                                         pages: seq<seq<Row>>, r: Row)
    requires Paging(tables, f, cursor, limit, pages) && |pages[|pages| - 1]| < limit
    requires InAll(tables, r) && Matches(f, r) && (cursor.Some? ==> Older(cursor.value, r))
    ensures r in Concat(pages)
    decreases |pages|
  {
    OnPageOrBeyond(tables[0], f, cursor, limit, r);
    if r !in pages[0] && |pages| > 1 {
      NothingMissed(tables[1..], f, NextCursor(pages[0], cursor), limit, pages[1..], r);
    }
  }

  /** What a query asks for: this organization, and the source, status and times if they are given. */
  ghost predicate Wanted(f: Filter, r: Row) {
    && r.orgId == f.orgId && f.sourceId in {None, Some(r.sourceId)} && f.status in {None, Some(r.result)}
    && (f.from == None || f.from.value <= r.createdAt) && (f.to == None || r.createdAt <= f.to.value)
  }

  /** Latest first, and by descending id within one moment. */
  ghost predicate LatestFirst(q: seq<Row>) {
    forall i, j :: 0 <= i < j < |q| ==>
      q[j].createdAt < q[i].createdAt || (q[j].createdAt == q[i].createdAt && q[j].id < q[i].id)
  }

  /**
    From the first page to the first short one: strictly descending, every row as the filter wants
    it and from a table it was asked of, and every matching row that was there all along exactly
    once - whatever else came or went.
   */
  lemma {:induction false} PagingIsExact(tables: seq<set<Row>>, f: Filter, limit: nat, pages: seq<seq<Row>>, r: Row)
    requires Paging(tables, f, None, limit, pages) && |pages[|pages| - 1]| < limit
    ensures LatestFirst(Concat(pages)) && forall x :: x in Concat(pages) ==> Wanted(f, x)
    ensures r in Concat(pages) ==> exists i :: 0 <= i < |tables| && r in tables[i]
    ensures Wanted(f, r) && InAll(tables, r) ==> multiset(Concat(pages))[r] == 1
  {
    PagesDescend(tables, f, None, limit, pages);
    FromTables(tables, f, None, limit, pages);
    forall x
      ensures Matches(f, x) <==> Wanted(f, x)
    {
    }
    if Wanted(f, r) && InAll(tables, r) {
      NothingMissed(tables, f, None, limit, pages, r);
      OccursOnce(Concat(pages), r);
    }
  }

  lemma {:induction false} FromTables(tables: seq<set<Row>>, f: Filter, cursor: Option<Cursor>, limit: nat,
                                      pages: seq<seq<Row>>)
    requires Paging(tables, f, cursor, limit, pages)
    ensures forall r :: r in Concat(pages) ==> exists i :: 0 <= i < |tables| && r in tables[i]
    decreases |pages|
  {
    PageFacts(tables[0], f, cursor, limit);
    if |pages| > 1 {
      FromTables(tables[1..], f, NextCursor(pages[0], cursor), limit, pages[1..]);
      forall r | r in Concat(pages[1..])
        ensures exists i :: 0 <= i < |tables| && r in tables[i]
      {
        var i :| 0 <= i < |tables[1..]| && r in tables[1..][i];
        assert r in tables[i + 1];
      }
    }
  }

  lemma OccursOnce(q: seq<Row>, r: Row)
    requires Ascending(Newer, q) && r in q
    ensures multiset(q)[r] == 1
  {
    var i :| 0 <= i < |q| && q[i] == r;
    assert q == q[..i] + [r] + q[i + 1..];
    assert r !in q[..i] && r !in q[i + 1..];
    assert multiset(q) == multiset(q[..i]) + multiset{r} + multiset(q[i + 1..]);
  }

  // ----- pruning -----

  const PRUNE_BATCH: nat := 1000

  predicate Expired(r: Row, cutoff: int) {
    r.createdAt < cutoff
  }

  function ExpiredIn(t: set<Row>, cutoff: int): set<Row> {
    set r | r in t && Expired(r, cutoff)
  }

  class AuditTable {
    var rows: set<Row>

    constructor (rows: set<Row>)
      ensures this.rows == rows
    {
      this.rows := rows;
    }

    /** DELETE of up to limit expired rows, whichever the subquery finds first. */
    method DeleteBefore(cutoff: int, limit: nat) returns (n: nat)
      modifies this
      ensures rows <= old(rows) && n == |old(rows)| - |rows| <= limit
      ensures forall r :: r in old(rows) && r !in rows ==> r.createdAt < cutoff
      ensures n < limit ==> forall r :: r in rows ==> r.createdAt >= cutoff
      ensures n == |ExpiredIn(old(rows), cutoff)| - |ExpiredIn(rows, cutoff)|
    {
      n := 0;
      while n < limit && exists r :: r in rows && Expired(r, cutoff)
        invariant n <= limit && rows <= old(rows) && n == |old(rows)| - |rows|
        invariant forall r :: r in old(rows) && r !in rows ==> Expired(r, cutoff)
        invariant n == |ExpiredIn(old(rows), cutoff)| - |ExpiredIn(rows, cutoff)|
        decreases limit - n
      {
        var r :| r in rows && Expired(r, cutoff);
        assert ExpiredIn(rows - {r}, cutoff) == ExpiredIn(rows, cutoff) - {r};
        rows := rows - {r};
        n := n + 1;
      }
    }

    /** Rows recorded meanwhile are newer than any cutoff that has been taken. */
    method Arrive(added: set<Row>, cutoff: int)
      requires forall r :: r in added ==> !Expired(r, cutoff)
      modifies this
      ensures rows == old(rows) + added && ExpiredIn(rows, cutoff) == ExpiredIn(old(rows), cutoff)
    {
      rows := rows + added;
    }

    /**
      One sweep: batches until one is short, a call fails or the context ends. arrivals(k) is what
      the writer inserts before the k-th batch.
     */
    method PruneOnce(cutoff: int, stops: nat -> bool, arrivals: nat -> set<Row>) returns (total: nat, finished: bool)
      requires forall k, r :: r in arrivals(k) ==> r.createdAt >= cutoff
      modifies this
      ensures forall r :: r in old(rows) && r.createdAt >= cutoff ==> r in rows
      ensures total == |ExpiredIn(old(rows), cutoff)| - |ExpiredIn(rows, cutoff)|
      ensures finished ==> total == |ExpiredIn(old(rows), cutoff)| && forall r :: r in rows ==> r.createdAt >= cutoff
    {
      total := 0;
      var k := 0;
      while true
        invariant forall r :: r in old(rows) && !Expired(r, cutoff) ==> r in rows
        invariant total == |ExpiredIn(old(rows), cutoff)| - |ExpiredIn(rows, cutoff)|
        decreases |ExpiredIn(rows, cutoff)|
      {
        if stops(k) {
          return total, false;
        }
        Arrive(arrivals(k), cutoff);
        var n := DeleteBefore(cutoff, PRUNE_BATCH);
        total := total + n;
        if n < PRUNE_BATCH {
          return total, true;
        }
        k := k + 1;
      }
    }
  }
}
