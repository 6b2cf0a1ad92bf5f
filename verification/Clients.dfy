/**
 Client calls made of several statements. Between two of them any other session may run; the
 gaps are arguments, so each contract says what the caller can conclude from the answer.
 */
module Clients {
  import opened Wrappers
  import opened Jobs
  import opened Statements
  import opened JobTable
  import opened Enqueue
  import Columns

  // ----- enqueue -----

  datatype Reply = Created(id: Id) | Deduplicated(id: Id) | Debounced(holder: Id) | Unexplained | Refused

  predicate HoldsKey(jobs: map<Id, Row>, queue: string, key: Option<string>, i: Id) {
    i in jobs && key.Some? && HasKey(jobs[i], queue, key.value)
  }

  predicate HoldsActive(jobs: map<Id, Row>, queue: string, key: Option<string>, i: Id) {
    i in jobs && key.Some? && jobs[i].queue == queue && jobs[i].uniqueKey == key
    && jobs[i].state in {Available, Running}
  }

  method FindByIdempotencyKey(table: Table, j: NewJob) returns (found: Option<Id>)
    ensures found.Some? <==> KeyTaken(table.jobs, j)
    ensures found.Some? ==> HoldsKey(table.jobs, j.queue, j.idempotencyKey, found.value)
  {
    if exists i | i in table.jobs :: HoldsKey(table.jobs, j.queue, j.idempotencyKey, i) {
      var i :| i in table.jobs && HoldsKey(table.jobs, j.queue, j.idempotencyKey, i);
      return Some(i);
    }
    return None;
  }

  method FindByUniqueKey(table: Table, j: NewJob) returns (found: Option<Id>)
    ensures found.Some? <==> ActiveTaken(table.jobs, j)
    ensures found.Some? ==> HoldsActive(table.jobs, j.queue, j.uniqueKey, found.value)
  {
    if exists i | i in table.jobs :: HoldsActive(table.jobs, j.queue, j.uniqueKey, i) {
      var i :| i in table.jobs && HoldsActive(table.jobs, j.queue, j.uniqueKey, i);
      return Some(i);
    }
    return None;
  }

  /** Which index rejected the insert, as far as it can still be seen. */
  method ResolveConflict(table: Table, j: NewJob, gap: seq<Event>) returns (reply: Reply, ghost last: Db)
    requires table.Valid()
    modifies table
    ensures table.Valid() && table.Contents() == last
    ensures last == if KeyTaken(old(table.jobs), j) then old(table.Contents()) else Play(old(table.Contents()), gap)
    ensures !reply.Refused? && !reply.Created?
    ensures reply.Deduplicated? <==> KeyTaken(old(table.jobs), j)
    ensures reply.Deduplicated? ==> HoldsKey(old(table.jobs), j.queue, j.idempotencyKey, reply.id)
    ensures reply.Debounced? <==> !KeyTaken(old(table.jobs), j) && ActiveTaken(last.jobs, j)
    ensures reply.Debounced? ==> HoldsActive(last.jobs, j.queue, j.uniqueKey, reply.holder)
  {
    last := table.Contents();
    var found := FindByIdempotencyKey(table, j);
    if found.Some? {
      return Deduplicated(found.value), last;
    }
    table.Interfere(gap);
    last := table.Contents();
    var active := FindByUniqueKey(table, j);
    if active.Some? {
      return Debounced(active.value), last;
    }
    return Unexplained, last;
  }

  /**
   One enqueue. It creates the job exactly when neither index holds its key; a conflict is
   resolved from the table as later statements find it, so only a change in between can leave
   it unexplained, or turn a debounce into something else.
   */
  method EnqueueJob(table: Table, j: NewJob, now: Time, gap: seq<Event>, gap': seq<Event>)
    returns (reply: Reply, ghost mid: Db, ghost last: Db)
    requires table.Valid()
    modifies table
    ensures table.Valid()
    ensures mid == Play(Apply(old(table.Contents()), Insert([j]), now), gap)
    ensures last == if KeyTaken(mid.jobs, j) then mid else Play(mid, gap')
    ensures reply.Refused? <==> !Insertable(j)
    ensures table.Contents() == if reply.Refused? then old(table.Contents())
                                else if reply.Created? then Apply(old(table.Contents()), Insert([j]), now) else last
    ensures reply.Created? <==> Insertable(j) && !KeyTaken(old(table.jobs), j) && !ActiveTaken(old(table.jobs), j)
    ensures reply.Created? ==>
      reply.id == old(table.nextId) && table.jobs == old(table.jobs)[reply.id := FreshRow(j, now)]
    ensures reply.Created? ==>
      && reply.id in table.jobs && table.jobs[reply.id].state == Available && table.jobs[reply.id].attempt == 0
      && table.jobs[reply.id].runAt == (if j.runAt.Some? then j.runAt.value else now)
    ensures !reply.Created? && !reply.Refused? ==>
      && (reply.Deduplicated? <==> KeyTaken(mid.jobs, j))
      && (reply.Debounced? <==> !KeyTaken(mid.jobs, j) && ActiveTaken(last.jobs, j))
    ensures reply.Deduplicated? ==> HoldsKey(mid.jobs, j.queue, j.idempotencyKey, reply.id)
    ensures gap == [] && gap' == [] ==>
      && !reply.Unexplained?
      && (reply.Deduplicated? <==> Insertable(j) && KeyTaken(old(table.jobs), j))
      && (reply.Debounced? <==> Insertable(j) && !KeyTaken(old(table.jobs), j) && ActiveTaken(old(table.jobs), j))
  {
    ghost var start := table.Contents();
    ghost var inserted := Apply(start, Insert([j]), now);
    mid := Play(inserted, gap);
    last := if KeyTaken(mid.jobs, j) then mid else Play(mid, gap');
    ConflictExplained(start.jobs, j, now);
    if Insertable(j) {
      Inserted(start, j, now);
    }
    var ids := table.InsertJobs([j], now);
    if ids.None? {
      return Refused, mid, last;
    }
    if ids.value[0].Some? {
      return Created(ids.value[0].value), mid, last;
    }
    table.Interfere(gap);
    reply, last := ResolveConflict(table, j, gap');
    return reply, mid, last;
  }

  lemma Inserted(db: Db, j: NewJob, now: Time)
    requires Healthy(db) && Insertable(j)
    ensures Apply(db, Insert([j]), now).jobs
         == if Conflicts(db.jobs, FreshRow(j, now)) then db.jobs else db.jobs[db.nextId := FreshRow(j, now)]
    ensures InsertedIds(db.jobs, db.nextId, [j], now)
         == [if Conflicts(db.jobs, FreshRow(j, now)) then None else Some(db.nextId)]
  {
    assert [j][1..] == [];
    var jobs := if Conflicts(db.jobs, FreshRow(j, now)) then db.jobs else db.jobs[db.nextId := FreshRow(j, now)];
    assert InsertAll(db.jobs, db.nextId, [j], now) == InsertAll(jobs, db.nextId + 1, [], now) == jobs;
    assert InsertedIds(jobs, db.nextId + 1, [], now) == [];
  }

  /** While nothing is removed, a key that was taken stays taken by the same job. */
  lemma KeyStaysTaken(db: Db, j: NewJob, now: Time, gap: seq<Event>, i: Id)
    requires Healthy(db) && HoldsKey(db.jobs, j.queue, j.idempotencyKey, i)
    requires forall e | e in gap :: LeavesKey(e.stmt, j.queue, j.idempotencyKey.value)
    ensures var mid := Play(Apply(db, Insert([j]), now), gap);
      forall k :: HoldsKey(mid.jobs, j.queue, j.idempotencyKey, k) <==> k == i
  {
    var key := j.idempotencyKey.value;
    var db' := Apply(db, Insert([j]), now);
    var mid := Play(db', gap);
    ApplyHealthy(db, Insert([j]), now);
    HolderUnique(db.jobs, j.queue, key, i);
    RowAfter(db, Insert([j]), now, i);
    HolderUnique(db'.jobs, j.queue, key, i);
    HolderStaysAlong(db', gap, j.queue, key);
    PlayHealthy(db', gap);
    forall k | HoldsKey(mid.jobs, j.queue, j.idempotencyKey, k) ensures k == i {
      HolderUnique(mid.jobs, j.queue, key, k);
    }
  }

  // ----- cancel -----

  datatype CancelReply = Acknowledged | Requested | NotFound | InvalidTransition(state: JobState)

  ghost predicate InState(db: Db, i: Id, state: JobState) {
    i in db.jobs && db.jobs[i].state == state
  }

  /**
   Cancel tries the two states one after the other and then reads the state to report. It
   names a terminal state whenever nothing runs in between.
   */
  method Cancel(table: Table, i: Id, now: Time, gap: seq<Event>, gap': seq<Event>)
    returns (reply: CancelReply, ghost mid: Db, ghost last: Db)
    requires table.Valid()
    modifies table
    ensures table.Valid()
    ensures mid == Play(old(table.Contents()), gap) && last == Play(mid, gap')
    ensures reply.Acknowledged? <==> InState(old(table.Contents()), i, Available)
    ensures reply.Requested? <==> !InState(old(table.Contents()), i, Available) && InState(mid, i, Running)
    ensures !reply.Acknowledged? && !reply.Requested? ==>
      reply == if i in last.jobs then InvalidTransition(last.jobs[i].state) else NotFound
    ensures table.Contents() == match reply
      case Acknowledged => Apply(old(table.Contents()), Operate([i], CancelAvailable), now)
      case Requested => Apply(mid, Operate([i], RequestCancel), now)
      case _ => last
    ensures reply.Acknowledged? ==> InState(table.Contents(), i, Cancelled)
    ensures reply.Requested? ==> InState(table.Contents(), i, Running) && table.jobs[i].cancelRequestedAt.Some?
    ensures gap == [] && gap' == [] ==>
      (reply.InvalidTransition? <==> i in old(table.jobs) && IsTerminal(old(table.jobs)[i].state))
  {
    mid := Play(table.Contents(), gap);
    last := Play(mid, gap');
    ghost var start := table.Contents();
    Columns.OneOperated(start, i, CancelAvailable, now);
    var hit := table.CancelAvailableJob(i, now);
    if hit {
      return Acknowledged, mid, last;
    }
    table.Interfere(gap);
    Columns.OneOperated(table.Contents(), i, RequestCancel, now);
    hit := table.RequestCancelRunningJob(i, now);
    if hit {
      return Requested, mid, last;
    }
    table.Interfere(gap');
    if i in table.jobs {
      return InvalidTransition(table.jobs[i].state), mid, last;
    }
    return NotFound, mid, last;
  }

  /**
   A running job that its worker releases between the two attempts is never cancelled: the
   call fails with an invalid transition out of `available`, a state it could have cancelled.
   */
  lemma CancelMissesRelease(db: Db, i: Id, now: Time)
    requires Healthy(db) && InState(db, i, Running)
    ensures var gap := [Event(Send(Fence(i, db.jobs[i].workerId.value, db.jobs[i].attempt), Release), now)];
      var mid := Play(db, gap);
      && !InState(db, i, Available) && !InState(mid, i, Running) && InState(mid, i, Available)
      && mid.jobs[i].cancelRequestedAt == db.jobs[i].cancelRequestedAt
  {
    var f := Fence(i, db.jobs[i].workerId.value, db.jobs[i].attempt);
    var gap := [Event(Send(f, Release), now)];
    Reported(db, f, Release, now);
    assert gap[1..] == [];
    assert Play(db, gap) == Play(Apply(db, Send(f, Release), now), []);
  }

  // ----- bulk replay -----

  function Skipped(ids: seq<Id>, replayed: set<Id>): seq<Id> {
    if ids == [] then []
    else Skipped(ids[..|ids| - 1], replayed)
         + if ids[|ids| - 1] in replayed then [] else [ids[|ids| - 1]]
  }

  function DeadOf(db: Db, ids: seq<Id>): set<Id> {
    set i | i in ids && i in db.jobs && db.jobs[i].state == Dead
  }

  function ReplayedAll(jobs: map<Id, Row>, replayed: set<Id>, now: Time): map<Id, Row> {
    map i | i in jobs :: if i in replayed then SetAdmin(jobs[i], Replay, now) else jobs[i]
  }

  /** Replays the dead jobs among `ids` and reports the rest; one taken unique key fails the call. */
  method ReplayMany(table: Table, ids: seq<Id>, now: Time) returns (replayed: set<Id>, skipped: seq<Id>, ok: bool)
    requires table.Valid()
    modifies table`jobs
    ensures table.Valid()
    ensures ok <==> ids == [] || !ReplayCollides(old(table.Contents()), Operate(ids, Replay))
    ensures !ok ==> table.jobs == old(table.jobs)
    ensures ok ==> replayed == DeadOf(old(table.Contents()), ids)
    ensures ok ==> skipped == Skipped(ids, replayed)
    ensures ok ==> table.jobs == ReplayedAll(old(table.jobs), replayed, now)
  {
    if ids == [] {
      return {}, [], true;
    }
    ReplayedRows(table.Contents(), ids, now);
    replayed, ok := table.ReplayDeadJobs(ids, now);
    skipped := [];
    for k := 0 to |ids|
      invariant skipped == Skipped(ids[..k], replayed)
    {
      assert ids[..k + 1][..k] == ids[..k];
      if ids[k] !in replayed {
        skipped := skipped + [ids[k]];
      }
    }
    assert ids[..|ids|] == ids;
  }

  lemma ReplayedRows(db: Db, ids: seq<Id>, now: Time)
    requires Healthy(db)
    ensures var s := Operate(ids, Replay);
      Apply(db, s, now) == if ReplayCollides(db, s) then db else db.(jobs := ReplayedAll(db.jobs, DeadOf(db, ids), now))
  {
    var s := Operate(ids, Replay);
    var rows := UpdateRows(db.jobs, Targets(db, s), s, now);
    AllOrNothing(db, s, now, rows);
    assert Targets(db, s) == DeadOf(db, ids);
    assert rows == ReplayedAll(db.jobs, DeadOf(db, ids), now);
  }

  /** An id is replayed or skipped, never both, and skipped ids keep their order. */
  lemma {:induction false} SkippedExactly(ids: seq<Id>, replayed: set<Id>)
    ensures forall i :: i in Skipped(ids, replayed) <==> i in ids && i !in replayed
  {
    if ids != [] {
      var n := |ids| - 1;
      SkippedExactly(ids[..n], replayed);
      assert ids == ids[..n] + [ids[n]];
    }
  }
}
