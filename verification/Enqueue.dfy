/** Idempotent enqueue: any number of concurrent calls with one key, one job. */
module Enqueue {
  import opened Wrappers
  import opened Jobs
  import opened Statements

  predicate HasKey(r: Row, queue: string, key: string) {
    r.queue == queue && r.idempotencyKey == Some(key)
  }

  /** findByIdempotencyKey: at most one row can match. */
  ghost function Holder(jobs: map<Id, Row>, queue: string, key: string): (i: Option<Id>)
    ensures i.Some? ==> i.value in jobs && HasKey(jobs[i.value], queue, key)
    ensures i.None? ==> forall j | j in jobs :: !HasKey(jobs[j], queue, key)
  {
    if exists j :: j in jobs && HasKey(jobs[j], queue, key) then
      var j :| j in jobs && HasKey(jobs[j], queue, key);
      Some(j)
    else None
  }

  lemma HolderUnique(jobs: map<Id, Row>, queue: string, key: string, i: Id)
    requires IdempotencyUnique(jobs) && i in jobs && HasKey(jobs[i], queue, key)
    ensures Holder(jobs, queue, key) == Some(i)
  {
    var j := Holder(jobs, queue, key).value;
    assert i == j || !SameIdempotency(jobs[i], jobs[j]);
  }

  // ----- what a conflict is -----

  predicate KeyTaken(jobs: map<Id, Row>, j: NewJob) {
    j.idempotencyKey.Some? && exists i | i in jobs :: HasKey(jobs[i], j.queue, j.idempotencyKey.value)
  }

  predicate ActiveTaken(jobs: map<Id, Row>, j: NewJob) {
    j.uniqueKey.Some? &&
    exists i | i in jobs ::
      jobs[i].queue == j.queue && jobs[i].uniqueKey == j.uniqueKey && jobs[i].state in {Available, Running}
  }

  /** ON CONFLICT DO NOTHING skips a row if and only if one of the two lookups would find a holder of its key. */
  lemma ConflictExplained(jobs: map<Id, Row>, j: NewJob, now: Time)
    ensures Conflicts(jobs, FreshRow(j, now)) <==> KeyTaken(jobs, j) || ActiveTaken(jobs, j)
  {
    var r := FreshRow(j, now);
    if KeyTaken(jobs, j) {
      var i :| i in jobs && HasKey(jobs[i], j.queue, j.idempotencyKey.value);
      assert SameIdempotency(r, jobs[i]);
    }
    if ActiveTaken(jobs, j) {
      var i :| i in jobs && jobs[i].queue == j.queue && jobs[i].uniqueKey == j.uniqueKey && IsActive(jobs[i].state);
      assert SameActiveKey(r, jobs[i]);
    }
    if Conflicts(jobs, r) {
      var i :| i in jobs && (SameIdempotency(r, jobs[i]) || SameActiveKey(r, jobs[i]));
      assert SameIdempotency(r, jobs[i]) ==> HasKey(jobs[i], j.queue, j.idempotencyKey.value);
    }
  }

  /** Statements that remove nothing and insert no job of their own under the key. */
  predicate LeavesKey(s: Stmt, queue: string, key: string) {
    && !s.Purge? && !s.Retain?
    && (s.Insert? ==> forall j | j in s.batch :: !(j.queue == queue && j.idempotencyKey == Some(key)))
  }

  lemma HolderStays(db: Db, s: Stmt, now: Time, queue: string, key: string)
    requires Healthy(db) && LeavesKey(s, queue, key)
    ensures Holder(Apply(db, s, now).jobs, queue, key) == Holder(db.jobs, queue, key)
  {
    var db' := Apply(db, s, now);
    ApplySound(db, s, now);
    match Holder(db.jobs, queue, key)
    case Some(i) =>
      RowAfter(db, s, now, i);
      KeysKept(db.jobs[i], s, now);
      HolderUnique(db'.jobs, queue, key, i);
    case None =>
      forall j | j in db'.jobs ensures !HasKey(db'.jobs[j], queue, key) {
        if j in db.jobs {
          RowAfter(db, s, now, j);
          KeysKept(db.jobs[j], s, now);
        } else {
          InsertAllSpec(db.jobs, db.nextId, s.batch, now);
          assert s.batch[j - db.nextId] in s.batch;
        }
      }
  }

  lemma {:induction false} HolderStaysAlong(db: Db, es: seq<Event>, queue: string, key: string)
    requires Healthy(db) && forall e | e in es :: LeavesKey(e.stmt, queue, key)
    ensures Holder(Play(db, es).jobs, queue, key) == Holder(db.jobs, queue, key)
    decreases |es|
  {
    if es != [] {
      HolderStays(db, es[0].stmt, es[0].now, queue, key);
      ApplyHealthy(db, es[0].stmt, es[0].now);
      HolderStaysAlong(Apply(db, es[0].stmt, es[0].now), es[1..], queue, key);
    }
  }

  // ----- concurrent calls -----

  /** Where one call of Client.enqueue stands. */
  datatype Call = Pending | Conflicted | Returned(id: Id, deduplicated: bool) | Failed

  datatype Enqueuers = Enqueuers(db: Db, calls: seq<Call>)

  /** A call's insert, its lookup after a conflict, or a statement of anyone else. */
  datatype Act = TryInsert(call: nat, now: Time) | Lookup(call: nat) | Other(e: Event)

  ghost function Proceed(st: Enqueuers, a: Act, requests: seq<NewJob>, key: string): Enqueuers {
    match a
    case TryInsert(c, now) =>
      if c >= |st.calls| || c >= |requests| || st.calls[c] != Pending then st
      else
        var id := InsertedIds(st.db.jobs, st.db.nextId, [requests[c]], now)[0];
        Enqueuers(Apply(st.db, Insert([requests[c]]), now),
                  st.calls[c := if id.Some? then Returned(id.value, false) else Conflicted])
    case Lookup(c) =>
      if c >= |st.calls| || c >= |requests| || st.calls[c] != Conflicted then st
      else
        var id := Holder(st.db.jobs, requests[c].queue, key);
        st.(calls := st.calls[c := if id.Some? then Returned(id.value, true) else Failed])
    case Other(e) => st.(db := Apply(st.db, e.stmt, e.now))
  }

  ghost function ProceedAll(st: Enqueuers, acts: seq<Act>, requests: seq<NewJob>, key: string): Enqueuers
    decreases |acts|
  {
    if acts == [] then st else ProceedAll(Proceed(st, acts[0], requests, key), acts[1..], requests, key)
  }

  /** Requests for one queue and key that no debounce can reject. */
  predicate SameKey(requests: seq<NewJob>, queue: string, key: string) {
    forall j | j in requests ::
      j.queue == queue && j.idempotencyKey == Some(key) && j.uniqueKey.None? && Insertable(j)
  }

  /** Call `w` created job `i`, and whoever else has returned got that job. */
  ghost predicate WonBy(calls: seq<Call>, w: nat, i: Id) {
    && w < |calls| && calls[w] == Returned(i, false)
    && forall c | 0 <= c < |calls| && c != w ::
         calls[c] == Pending || calls[c] == Conflicted || calls[c] == Returned(i, true)
  }

  /** Nobody has inserted yet, or one call has won. */
  ghost predicate OneWinner(st: Enqueuers, queue: string, key: string) {
    match Holder(st.db.jobs, queue, key)
    case None => forall c | 0 <= c < |st.calls| :: st.calls[c] == Pending
    case Some(i) => exists w :: WonBy(st.calls, w, i)
  }

  lemma InsertOne(db: Db, j: NewJob, now: Time, queue: string, key: string)
    requires Healthy(db) && j.queue == queue && j.idempotencyKey == Some(key) && j.uniqueKey.None? && Insertable(j)
    ensures var db', id := Apply(db, Insert([j]), now), InsertedIds(db.jobs, db.nextId, [j], now)[0];
      match Holder(db.jobs, queue, key)
      case Some(i) => id == None && Holder(db'.jobs, queue, key) == Some(i)
      case None => id == Some(db.nextId) && Holder(db'.jobs, queue, key) == Some(db.nextId)
  {
    var r := FreshRow(j, now);
    var db' := Apply(db, Insert([j]), now);
    ApplySound(db, Insert([j]), now);
    var found := Holder(db.jobs, queue, key);
    assert [j][1..] == [];
    assert InsertAll(db.jobs, db.nextId, [j], now)
      == if Conflicts(db.jobs, r) then db.jobs else db.jobs[db.nextId := r];
    assert db'.jobs == InsertAll(db.jobs, db.nextId, [j], now);
    if found.Some? {
      assert SameIdempotency(r, db.jobs[found.value]);
      assert Conflicts(db.jobs, r);
      HolderUnique(db'.jobs, queue, key, found.value);
    } else {
      assert !Conflicts(db.jobs, r);
      HolderUnique(db'.jobs, queue, key, db.nextId);
    }
  }

  lemma ProceedKeeps(st: Enqueuers, a: Act, requests: seq<NewJob>, queue: string, key: string)
    requires Healthy(st.db) && OneWinner(st, queue, key) && SameKey(requests, queue, key)
    requires a.Other? ==> LeavesKey(a.e.stmt, queue, key)
    ensures Healthy(Proceed(st, a, requests, key).db) && OneWinner(Proceed(st, a, requests, key), queue, key)
  {
    var st' := Proceed(st, a, requests, key);
    match a
    case TryInsert(c, now) =>
      if st' != st {
        InsertOne(st.db, requests[c], now, queue, key);
        ApplyHealthy(st.db, Insert([requests[c]]), now);
        match Holder(st.db.jobs, queue, key)
        case None => assert WonBy(st'.calls, c, st.db.nextId);
        case Some(i) =>
          var w :| WonBy(st.calls, w, i);
          assert WonBy(st'.calls, w, i);
      }
    case Lookup(c) =>
      if st' != st {
        var i := Holder(st.db.jobs, queue, key).value;
        var w :| WonBy(st.calls, w, i);
        assert WonBy(st'.calls, w, i);
      }
    case Other(e) =>
      HolderStays(st.db, e.stmt, e.now, queue, key);
      ApplyHealthy(st.db, e.stmt, e.now);
  }

  lemma {:induction false} WinnerAlways(st: Enqueuers, acts: seq<Act>, requests: seq<NewJob>, queue: string,
                                        key: string)
    requires Healthy(st.db) && OneWinner(st, queue, key) && SameKey(requests, queue, key)
    requires forall a | a in acts :: a.Other? ==> LeavesKey(a.e.stmt, queue, key)
    ensures var st' := ProceedAll(st, acts, requests, key); Healthy(st'.db) && OneWinner(st', queue, key)
    ensures |ProceedAll(st, acts, requests, key).calls| == |st.calls|
    decreases |acts|
  {
    if acts != [] {
      ProceedKeeps(st, acts[0], requests, queue, key);
      WinnerAlways(Proceed(st, acts[0], requests, key), acts[1..], requests, queue, key);
    }
  }

  /** Job `i` is the only one under the key, every call returned it, and only `w` as its creator. */
  ghost predicate SharedJob(st: Enqueuers, queue: string, key: string, i: Id, w: nat) {
    && w < |st.calls| && i in st.db.jobs
    && (forall j | j in st.db.jobs :: HasKey(st.db.jobs[j], queue, key) <==> j == i)
    && forall c | 0 <= c < |st.calls| :: st.calls[c] == Returned(i, c != w)
  }

  /**
   N concurrent enqueues of one key, in any interleaving with statements that remove nothing:
   once all have returned there is one job under the key, every call returned its id, and
   exactly one of them was told that it created it.
   */
  lemma ConcurrentEnqueue(db: Db, acts: seq<Act>, requests: seq<NewJob>, queue: string, key: string)
    requires Healthy(db) && SameKey(requests, queue, key) && Holder(db.jobs, queue, key).None?
    requires forall a | a in acts :: a.Other? ==> LeavesKey(a.e.stmt, queue, key)
    requires requests != []
    ensures var calls := seq(|requests|, _ => Pending);
      var st := ProceedAll(Enqueuers(db, calls), acts, requests, key);
      && |st.calls| == |requests|
      && (forall c | 0 <= c < |st.calls| :: st.calls[c] != Failed)
      && ((forall c | 0 <= c < |st.calls| :: st.calls[c].Returned?) ==>
            exists i, w :: SharedJob(st, queue, key, i, w))
  {
    var calls := seq(|requests|, _ => Pending);
    WinnerAlways(Enqueuers(db, calls), acts, requests, queue, key);
    var st := ProceedAll(Enqueuers(db, calls), acts, requests, key);
    if forall c | 0 <= c < |st.calls| :: st.calls[c].Returned? {
      assert st.calls[0].Returned?;
      var i := Holder(st.db.jobs, queue, key).value;
      var w :| WonBy(st.calls, w, i);
      forall j | j in st.db.jobs ensures HasKey(st.db.jobs[j], queue, key) <==> j == i {
        if HasKey(st.db.jobs[j], queue, key) {
          HolderUnique(st.db.jobs, queue, key, j);
        }
      }
      assert SharedJob(st, queue, key, i, w);
    }
  }
}
