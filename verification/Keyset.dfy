/** Keyset pagination: walking a job list page by page while the table changes. */
module Keyset {
  import opened Wrappers
  import opened Jobs
  import opened Statements

  datatype Filter = Filter(
    queue: Option<string>,
    state: Option<JobState>,
    kind: Option<string>,
    from: Option<Time>,
    to: Option<Time>)

  predicate Passes(r: Row, f: Filter) {
    && (f.queue.Some? ==> r.queue == f.queue.value)
    && (f.state.Some? ==> r.state == f.state.value)
    && (f.kind.Some? ==> r.kind == f.kind.value)
    && (f.from.Some? ==> r.enqueuedAt >= f.from.value)
    && (f.to.Some? ==> r.enqueuedAt <= f.to.value)
  }

  function Passing(db: Db, f: Filter): set<Id> {
    set i | i in db.jobs && Passes(db.jobs[i], f)
  }

  /** The members of `ids` below `hi`, newest first. */
  function Descending(ids: set<Id>, hi: nat): seq<Id> {
    if hi == 0 then []
    else (if hi - 1 in ids then [hi - 1] else []) + Descending(ids, hi - 1)
  }

  const MAX_PAGE := 200

  function Clamp(limit: int): nat {
    var least := if limit < 1 then 1 else limit;
    if least > MAX_PAGE then MAX_PAGE else least
  }

  function Take(ids: seq<Id>, n: nat): seq<Id> {
    if n < |ids| then ids[..n] else ids
  }

  /** The rows before the cursor; without one every row is, as ids are all below nextId. */
  function ListJobs(db: Db, f: Filter, beforeId: Option<Id>, limit: int): seq<Id> {
    Take(Descending(Passing(db, f), if beforeId.Some? then beforeId.value else db.nextId), Clamp(limit))
  }

  function NextCursor(page: seq<Id>, limit: int): Option<Id> {
    if |page| == limit && |page| > 0 then Some(page[|page| - 1]) else None
  }

  /** The page's ids strictly descend, and it holds the largest of the listed ids. */
  lemma {:induction false} DescendingSpec(ids: set<Id>, hi: nat)
    ensures var s := Descending(ids, hi);
      && Falling(s)
      && (forall i :: i in s <==> i in ids && i < hi)
  {
    if hi > 0 {
      DescendingSpec(ids, hi - 1);
      var rest := Descending(ids, hi - 1);
      assert forall k | 0 <= k < |rest| :: rest[k] in rest;
    }
  }

  /** Starting again below the last id of a prefix continues the list where the prefix ended. */
  lemma {:induction false} DescendingResumes(ids: set<Id>, hi: nat, n: nat)
    requires 0 < n <= |Descending(ids, hi)|
    ensures var s := Descending(ids, hi); s == s[..n] + Descending(ids, s[n - 1])
  {
    var s := Descending(ids, hi);
    if hi - 1 !in ids {
      DescendingResumes(ids, hi - 1, n);
    } else if n > 1 {
      DescendingResumes(ids, hi - 1, n - 1);
      var rest := Descending(ids, hi - 1);
      assert s[..n] == [hi - 1] + rest[..n - 1];
    }
  }

  /**
   A client following nextCursor: page `k` is read from the table as it is then. The walk ends
   because every cursor is smaller than the one before.
   */
  function Walk(tables: nat -> Db, f: Filter, limit: int, k: nat, cursor: Option<Id>): (pages: seq<seq<Id>>)
    requires 1 <= limit <= MAX_PAGE
    decreases if cursor.Some? then cursor.value else tables(k).nextId
  {
    var page := ListJobs(tables(k), f, cursor, limit);
    match NextCursor(page, limit)
    case None => [page]
    case Some(last) =>
      PageBelow(tables(k), f, cursor, limit);
      assert last in page;
      [page] + Walk(tables, f, limit, k + 1, Some(last))
  }

  predicate Falling(s: seq<Id>) {
    forall j, k | 0 <= j < k < |s| :: s[j] > s[k]
  }

  lemma PageBelow(db: Db, f: Filter, cursor: Option<Id>, limit: int)
    ensures var hi := if cursor.Some? then cursor.value else db.nextId;
      var page := ListJobs(db, f, cursor, limit);
      && |page| <= Clamp(limit)
      && Falling(page)
      && (forall i | i in page :: i in Passing(db, f) && i < hi)
      && (forall i | i in Passing(db, f) && i < hi && i !in page ::
            |page| == Clamp(limit) && i < page[|page| - 1])
  {
    var hi := if cursor.Some? then cursor.value else db.nextId;
    DescendingSpec(Passing(db, f), hi);
    TakeFirst(Descending(Passing(db, f), hi), Clamp(limit));
  }

  lemma TakeFirst(all: seq<Id>, n: nat)
    requires Falling(all) && n > 0
    ensures var page := Take(all, n);
      && |page| <= n && Falling(page)
      && (forall i | i in page :: i in all)
      && (forall i | i in all && i !in page :: |page| == n && i < page[n - 1])
  {
    var page := Take(all, n);
    forall i | i in all && i !in page ensures |page| == n && i < page[n - 1] {
      var k :| 0 <= k < |all| && all[k] == i;
      assert forall j | 0 <= j < |page| :: all[j] == page[j] && page[j] in page;
    }
  }

  function Flat(pages: seq<seq<Id>>): seq<Id> {
    if pages == [] then [] else pages[0] + Flat(pages[1..])
  }

  /** A row that passes the filter whenever one of the `n` pages from page `k` on is read. */
  ghost predicate Stays(tables: nat -> Db, f: Filter, i: Id, k: nat, n: nat) {
    forall m: nat | k <= m < k + n :: i in Passing(tables(m), f)
  }

  /**
   Whatever is inserted, updated or deleted during the walk: the ids returned strictly
   decrease, so none repeats, and every row below the start that passes throughout is returned.
   */
  lemma {:induction false} WalkComplete(tables: nat -> Db, f: Filter, limit: int, k: nat, cursor: Option<Id>)
    requires 1 <= limit <= MAX_PAGE
    ensures var hi := if cursor.Some? then cursor.value else tables(k).nextId;
      var pages := Walk(tables, f, limit, k, cursor);
      var walked := Flat(pages);
      && Falling(walked)
      && (forall i | i in walked :: i < hi)
      && (forall i: Id | Stays(tables, f, i, k, |pages|) && i < hi :: i in walked)
    decreases if cursor.Some? then cursor.value else tables(k).nextId
  {
    var page := ListJobs(tables(k), f, cursor, limit);
    PageBelow(tables(k), f, cursor, limit);
    var hi := if cursor.Some? then cursor.value else tables(k).nextId;
    var pages := Walk(tables, f, limit, k, cursor);
    forall i: Id | Stays(tables, f, i, k, |pages|) ensures i in Passing(tables(k), f) {
      assert |pages| > 0 && k <= k < k + |pages|;
    }
    match NextCursor(page, limit)
    case None =>
      assert Flat([page]) == page + Flat([page][1..]) == page;
    case Some(last) =>
      assert last in page;
      WalkComplete(tables, f, limit, k + 1, Some(last));
      var rest := Walk(tables, f, limit, k + 1, Some(last));
      assert ([page] + rest)[1..] == rest;
      assert Flat([page] + rest) == page + Flat(rest);
      FallingJoin(page, Flat(rest));
      assert pages == [page] + rest;
      assert forall i: Id | Stays(tables, f, i, k, |pages|) :: Stays(tables, f, i, k + 1, |rest|);
  }

  lemma FallingJoin(a: seq<Id>, b: seq<Id>)
    requires Falling(a) && Falling(b) && a != [] && forall i | i in b :: i < a[|a| - 1]
    ensures Falling(a + b)
  {
    forall j, k | 0 <= j < k < |a + b| ensures (a + b)[j] > (a + b)[k] {
      if j < |a| <= k {
        assert (a + b)[k] == b[k - |a|] && b[k - |a|] in b;
      }
    }
  }

  /** Page `n` of a walk holds rows that passed the filter when that page was read. */
  lemma {:induction false} WalkReadsTables(tables: nat -> Db, f: Filter, limit: int, k: nat, cursor: Option<Id>, n: nat)
    requires 1 <= limit <= MAX_PAGE && n < |Walk(tables, f, limit, k, cursor)|
    ensures forall i | i in Walk(tables, f, limit, k, cursor)[n] :: i in Passing(tables(k + n), f)
    decreases n
  {
    var page := ListJobs(tables(k), f, cursor, limit);
    PageBelow(tables(k), f, cursor, limit);
    if n > 0 {
      var last := NextCursor(page, limit).value;
      WalkReadsTables(tables, f, limit, k + 1, Some(last), n - 1);
    }
  }

  /** On a table that does not change, the pages together are the whole filtered list. */
  lemma {:induction false} StaticWalk(db: Db, f: Filter, limit: int, k: nat, cursor: Option<Id>)
    requires 1 <= limit <= MAX_PAGE
    ensures Flat(Walk(_ => db, f, limit, k, cursor))
         == Descending(Passing(db, f), if cursor.Some? then cursor.value else db.nextId)
    decreases if cursor.Some? then cursor.value else db.nextId
  {
    var tables: nat -> Db := _ => db;
    var hi := if cursor.Some? then cursor.value else db.nextId;
    var all := Descending(Passing(db, f), hi);
    var page := ListJobs(db, f, cursor, limit);
    PageBelow(db, f, cursor, limit);
    match NextCursor(page, limit)
    case None =>
      assert Flat([page]) == page + Flat([page][1..]) == page;
      DescendingSpec(Passing(db, f), hi);
      assert page == all;
    case Some(last) =>
      assert last in page;
      StaticWalk(db, f, limit, k + 1, Some(last));
      DescendingResumes(Passing(db, f), hi, limit);
      var rest := Walk(_ => db, f, limit, k + 1, Some(last));
      assert ([page] + rest)[1..] == rest;
      assert Flat([page] + rest) == page + Flat(rest);
  }

  /**
   The envelope compares the page with the limit it was asked for, the list clamps it: a limit
   outside 1..200 never yields a cursor, which the route's schema rules out.
   */
  lemma CursorNeedsLimit(db: Db, f: Filter, cursor: Option<Id>, limit: int)
    ensures limit != Clamp(limit) ==> NextCursor(ListJobs(db, f, cursor, limit), limit).None?
    ensures limit == Clamp(limit) ==>
      (NextCursor(ListJobs(db, f, cursor, limit), limit).Some? <==>
         |Descending(Passing(db, f), if cursor.Some? then cursor.value else db.nextId)| >= limit)
  {
  }

  /** One filter, column by column; a filter that is not set lets everything through. */
  predicate Wanted(r: Row, f: Filter) {
    && (f.queue == None || f.queue == Some(r.queue))
    && (f.state == None || f.state == Some(r.state))
    && (f.kind == None || f.kind == Some(r.kind))
    && (f.from == None || f.from.value <= r.enqueuedAt)
    && (f.to == None || r.enqueuedAt <= f.to.value)
  }

  /** A page holds the newest wanted rows below the cursor: as many as asked for, within 1 and 200. */
  lemma PageExact(db: Db, f: Filter, beforeId: Option<Id>, limit: int)
    requires IdsFresh(db)
    ensures var page := ListJobs(db, f, beforeId, limit);
      var size := if limit < 1 then 1 else if limit > 200 then 200 else limit;
      && |page| <= size && Falling(page)
      && (forall i | i in page :: i in db.jobs && Wanted(db.jobs[i], f) && (beforeId == None || i < beforeId.value))
      && (forall i | i in db.jobs && Wanted(db.jobs[i], f) && (beforeId == None || i < beforeId.value) && i !in page ::
            |page| == size && forall j | j in page :: i < j)
  {
    PageBelow(db, f, beforeId, limit);
    WantedPass(db, f);
    var page := ListJobs(db, f, beforeId, limit);
    forall i, j | i in Passing(db, f) && (beforeId == None || i < beforeId.value) && i !in page && j in page
      ensures i < j
    {
      LastIsLeast(page, j);
    }
  }

  lemma WantedPass(db: Db, f: Filter)
    ensures forall i :: i in Passing(db, f) <==> i in db.jobs && Wanted(db.jobs[i], f)
  {
  }

  lemma LastIsLeast(page: seq<Id>, j: Id)
    requires Falling(page) && j in page
    ensures page[|page| - 1] <= j
  {
  }
}
