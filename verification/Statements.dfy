/**
 The SQL statements as atomic steps over the database. Everything SKIP LOCKED leaves to
 chance, which rows a statement gets to lock, is the statement's own argument `picks`.
 */
module Statements {
  import opened Wrappers
  import opened Jobs

  const DEFAULT_RETAIN_SUCCEEDED: Time := 24 * 3600 * SECOND
  const DEFAULT_RETAIN_DEAD: Time := 30 * 24 * 3600 * SECOND

  datatype QueueConfig = QueueConfig(paused: bool, retainSucceeded: Time, retainDead: Time)

  type Configs = map<string, QueueConfig>

  /** The retention windows a process passes for queues without a queue_config row. */
  datatype Windows = Windows(succeeded: Time, dead: Time)

  datatype Db = Db(
    jobs: map<Id, Row>,
    nextId: Id,
    configs: Configs,
    archive: seq<(Id, Row)>)

  datatype Stmt =
    | Insert(batch: seq<NewJob>)
    | Claim(queue: string, limit: nat, worker: string, picks: seq<Id>)
    | Send(fence: Fence, report: Report)
    | Reap(limit: nat, delay: Time, picks: seq<Id>)
    | Operate(ids: seq<Id>, admin: Admin)
    | Purge(queue: string, states: set<JobState>, limit: nat, picks: seq<Id>)
    | Retain(limit: nat, archive: bool, windows: Windows, picks: seq<Id>)
    | SetPaused(queue: string, paused: bool)

  datatype Result = Ok(db: Db) | Rejected

  predicate Paused(configs: Configs, queue: string) {
    queue in configs && configs[queue].paused
  }

  /** Terminal, and finished longer ago than the window for its queue and outcome. */
  predicate PastRetention(r: Row, configs: Configs, w: Windows, now: Time) {
    && IsTerminal(r.state)
    && r.finishedAt.Some?
    && var window :=
         if r.state == Dead then if r.queue in configs then configs[r.queue].retainDead else w.dead
         else if r.queue in configs then configs[r.queue].retainSucceeded else w.succeeded;
       r.finishedAt.value < now - window
  }

  /** The WHERE clause of a statement that locks rows with SKIP LOCKED. */
  predicate Matches(s: Stmt, r: Row, configs: Configs, now: Time) {
    match s
    case Claim(queue, _, _, _) => Eligible(r, queue, Paused(configs, queue), now)
    case Reap(_, _, _) => Expired(r, now)
    case Purge(queue, states, _, _) => r.queue == queue && r.state in states
    case Retain(_, _, windows, _) => PastRetention(r, configs, windows, now)
    case _ => false
  }

  predicate Distinct<T(==)>(s: seq<T>) {
    forall i, j | 0 <= i < j < |s| :: s[i] != s[j]
  }

  predicate Skips(s: Stmt) {
    s.Claim? || s.Reap? || s.Purge? || s.Retain?
  }

  /** A skip-locked statement takes at most `limit` rows, each matching its WHERE clause. */
  predicate Enabled(db: Db, s: Stmt, now: Time) {
    Skips(s) ==>
      && Distinct(s.picks)
      && |s.picks| <= s.limit
      && forall i | i in s.picks :: i in db.jobs && Matches(s, db.jobs[i], db.configs, now)
  }

  /** The rows a statement acts on; these are the ids its RETURNING clause reports. */
  function Targets(db: Db, s: Stmt): (ids: set<Id>)
    ensures ids <= db.jobs.Keys
  {
    match s
    case Send(f, report) =>
      if f.id in db.jobs && ReportGuard(db.jobs[f.id], f, report) then {f.id} else {}
    case Operate(which, admin) =>
      set i | i in which && i in db.jobs && AdminGuard(db.jobs[i], admin)
    case Claim(_, _, _, picks) => set i | i in picks && i in db.jobs
    case Reap(_, _, picks) => set i | i in picks && i in db.jobs
    case Purge(_, _, _, picks) => set i | i in picks && i in db.jobs
    case Retain(_, _, _, picks) => set i | i in picks && i in db.jobs
    case _ => {}
  }

  /** The SET clause of an updating statement. */
  function SetRow(s: Stmt, r: Row, now: Time): Row {
    match s
    case Claim(_, _, worker, _) => SetClaim(r, worker, now)
    case Send(_, report) => SetReport(r, report, now)
    case Reap(_, delay, _) => SetReap(r, delay, now)
    case Operate(_, admin) => SetAdmin(r, admin, now)
    case _ => r
  }

  function UpdateRows(jobs: map<Id, Row>, ids: set<Id>, s: Stmt, now: Time): (jobs': map<Id, Row>)
    ensures jobs'.Keys == jobs.Keys
  {
    map i | i in jobs :: if i in ids then SetRow(s, jobs[i], now) else jobs[i]
  }

  /** Inserts the batch in order, skipping conflicts; identity values are never reused. */
  function InsertAll(jobs: map<Id, Row>, nextId: Id, batch: seq<NewJob>, now: Time): map<Id, Row>
    decreases |batch|
  {
    if batch == [] then jobs
    else
      var r := FreshRow(batch[0], now);
      InsertAll(if Conflicts(jobs, r) then jobs else jobs[nextId := r], nextId + 1, batch[1..], now)
  }

  /** What RETURNING says item by item: the id given to it, or nothing where it conflicted. */
  function InsertedIds(jobs: map<Id, Row>, nextId: Id, batch: seq<NewJob>, now: Time): (ids: seq<Option<Id>>)
    ensures |ids| == |batch|
    decreases |batch|
  {
    if batch == [] then []
    else
      var r := FreshRow(batch[0], now);
      if Conflicts(jobs, r) then [None] + InsertedIds(jobs, nextId + 1, batch[1..], now)
      else [Some(nextId)] + InsertedIds(jobs[nextId := r], nextId + 1, batch[1..], now)
  }

  function ArchiveRows(jobs: map<Id, Row>, picks: seq<Id>): seq<(Id, Row)>
    requires forall i | i in picks :: i in jobs
  {
    seq(|picks|, k requires 0 <= k < |picks| => (picks[k], jobs[picks[k]]))
  }

  /** The upsert of setQueuePaused: a missing config row is created with the column defaults. */
  function Pause(configs: Configs, queue: string, paused: bool): Configs {
    configs[queue :=
      if queue in configs then configs[queue].(paused := paused)
      else QueueConfig(paused, DEFAULT_RETAIN_SUCCEEDED, DEFAULT_RETAIN_DEAD)]
  }

  /** One statement, atomically; a violated constraint rejects it whole. */
  function Exec(db: Db, s: Stmt, now: Time): Result
    requires s.Retain? ==> forall i | i in s.picks :: i in db.jobs
  {
    match s
    case Insert(batch) =>
      if forall j | j in batch :: Insertable(j) then
        Ok(db.(jobs := InsertAll(db.jobs, db.nextId, batch, now), nextId := db.nextId + |batch|))
      else Rejected
    case SetPaused(queue, paused) =>
      Ok(db.(configs := Pause(db.configs, queue, paused)))
    case Purge(_, _, _, _) =>
      Ok(db.(jobs := db.jobs - Targets(db, s)))
    case Retain(_, archive, _, picks) =>
      Ok(db.(jobs := db.jobs - Targets(db, s),
             archive := if archive then db.archive + ArchiveRows(db.jobs, picks) else db.archive))
    case _ =>
      var jobs := UpdateRows(db.jobs, Targets(db, s), s, now);
      if Accepted(jobs) then Ok(db.(jobs := jobs)) else Rejected
  }

  /** A step of a run: a statement that cannot happen, or is rejected, changes nothing. */
  function Apply(db: Db, s: Stmt, now: Time): Db {
    if Enabled(db, s, now) then
      match Exec(db, s, now)
      case Ok(db') => db'
      case Rejected => db
    else db
  }

  datatype Event = Event(stmt: Stmt, now: Time)

  function Play(db: Db, es: seq<Event>): Db
    decreases |es|
  {
    if es == [] then db else Play(Apply(db, es[0].stmt, es[0].now), es[1..])
  }

  lemma {:induction false} PlayAppend(db: Db, es: seq<Event>, fs: seq<Event>)
    ensures Play(db, es + fs) == Play(Play(db, es), fs)
    decreases |es|
  {
    if es == [] {
      assert es + fs == fs;
    } else {
      assert (es + fs)[1..] == es[1..] + fs;
      PlayAppend(Apply(db, es[0].stmt, es[0].now), es[1..], fs);
    }
  }

  const EMPTY := Db(map[], 1, map[], [])

  // ----- the guard a statement's WHERE clause puts on one row -----

  predicate Acts(s: Stmt, r: Row, now: Time) {
    match s
    case Claim(queue, _, _, _) => Eligible(r, queue, false, now)
    case Send(f, report) => ReportGuard(r, f, report)
    case Reap(_, _, _) => Expired(r, now)
    case Operate(_, admin) => AdminGuard(r, admin)
    case Purge(_, _, _, _) => true
    case Retain(_, _, _, _) => IsTerminal(r.state)
    case _ => false
  }

  predicate Updates(s: Stmt) {
    s.Claim? || s.Send? || s.Reap? || s.Operate?
  }

  lemma TargetsAct(db: Db, s: Stmt, now: Time, i: Id)
    requires Enabled(db, s, now) && i in Targets(db, s)
    ensures i in db.jobs && Acts(s, db.jobs[i], now)
  {
  }

  lemma NewRowUnique(jobs: map<Id, Row>, i: Id, r: Row)
    requires IdempotencyUnique(jobs) && ActiveKeyUnique(jobs) && !Conflicts(jobs, r) && i !in jobs
    ensures IdempotencyUnique(jobs[i := r]) && ActiveKeyUnique(jobs[i := r])
  {
    assert forall j | j in jobs :: !SameIdempotency(r, jobs[j]) && !SameActiveKey(r, jobs[j]);
  }

  lemma {:induction false} InsertAllRows(jobs: map<Id, Row>, nextId: Id, batch: seq<NewJob>, now: Time)
    requires forall i | i in jobs :: i < nextId
    ensures var after := InsertAll(jobs, nextId, batch, now);
      && jobs.Keys <= after.Keys
      && (forall i | i in jobs :: after[i] == jobs[i])
      && (forall i | i in after && i !in jobs ::
            nextId <= i < nextId + |batch| && after[i] == FreshRow(batch[i - nextId], now))
    decreases |batch|
  {
    if batch != [] {
      var r := FreshRow(batch[0], now);
      InsertAllRows(if Conflicts(jobs, r) then jobs else jobs[nextId := r], nextId + 1, batch[1..], now);
    }
  }

  lemma {:induction false} InsertAllUnique(jobs: map<Id, Row>, nextId: Id, batch: seq<NewJob>, now: Time)
    requires forall i | i in jobs :: i < nextId
    requires IdempotencyUnique(jobs) && ActiveKeyUnique(jobs)
    ensures var after := InsertAll(jobs, nextId, batch, now); IdempotencyUnique(after) && ActiveKeyUnique(after)
    decreases |batch|
  {
    if batch != [] {
      var r := FreshRow(batch[0], now);
      if Conflicts(jobs, r) {
        InsertAllUnique(jobs, nextId + 1, batch[1..], now);
      } else {
        NewRowUnique(jobs, nextId, r);
        InsertAllUnique(jobs[nextId := r], nextId + 1, batch[1..], now);
      }
    }
  }

  /** What a batch insert leaves: the old rows, and fresh rows under fresh ids, in batch order. */
  lemma InsertAllSpec(jobs: map<Id, Row>, nextId: Id, batch: seq<NewJob>, now: Time)
    requires forall i | i in jobs :: i < nextId
    requires IdempotencyUnique(jobs) && ActiveKeyUnique(jobs)
    ensures var after := InsertAll(jobs, nextId, batch, now);
      && jobs.Keys <= after.Keys
      && (forall i | i in jobs :: after[i] == jobs[i])
      && (forall i | i in after && i !in jobs ::
            nextId <= i < nextId + |batch| && after[i] == FreshRow(batch[i - nextId], now))
      && IdempotencyUnique(after) && ActiveKeyUnique(after)
  {
    InsertAllRows(jobs, nextId, batch, now);
    InsertAllUnique(jobs, nextId, batch, now);
  }

  /** An item is skipped if and only if it conflicts with the table as the items before it left it. */
  lemma {:induction false} InsertedUnlessConflict(jobs: map<Id, Row>, nextId: Id, batch: seq<NewJob>, now: Time, k: nat)
    requires (forall i | i in jobs :: i < nextId) && k < |batch|
    ensures var before := InsertAll(jobs, nextId, batch[..k], now);
      nextId + k in InsertAll(jobs, nextId, batch, now) <==> !Conflicts(before, FreshRow(batch[k], now))
    decreases |batch|
  {
    var taken := Conflicts(jobs, FreshRow(batch[0], now));
    var jobs' := if taken then jobs else jobs[nextId := FreshRow(batch[0], now)];
    if k == 0 {
      LaterIdsOnly(jobs', nextId + 1, batch[1..], now, nextId);
    } else {
      assert batch[..k][1..] == batch[1..][..k - 1];
      InsertedUnlessConflict(jobs', nextId + 1, batch[1..], now, k - 1);
    }
  }

  lemma {:induction false} LaterIdsOnly(jobs: map<Id, Row>, nextId: Id, batch: seq<NewJob>, now: Time, i: Id)
    requires i < nextId
    ensures i in InsertAll(jobs, nextId, batch, now) <==> i in jobs
    decreases |batch|
  {
    if batch != [] {
      var r := FreshRow(batch[0], now);
      LaterIdsOnly(if Conflicts(jobs, r) then jobs else jobs[nextId := r], nextId + 1, batch[1..], now, i);
    }
  }

  /** The row an item was given an id for. */
  lemma {:induction false} RowOfItem(jobs: map<Id, Row>, nextId: Id, batch: seq<NewJob>, now: Time, i: nat)
    requires (forall j | j in jobs :: j < nextId) && i < |batch|
    ensures var id := InsertedIds(jobs, nextId, batch, now)[i]; var after := InsertAll(jobs, nextId, batch, now);
      id.Some? ==> id.value == nextId + i && id.value in after && after[id.value] == FreshRow(batch[i], now)
    decreases |batch|
  {
    var r := FreshRow(batch[0], now);
    var jobs' := if Conflicts(jobs, r) then jobs else jobs[nextId := r];
    if i > 0 {
      RowOfItem(jobs', nextId + 1, batch[1..], now, i - 1);
    } else if !Conflicts(jobs, r) {
      InsertAllRows(jobs', nextId + 1, batch[1..], now);
    }
  }

  /** Identity values are handed out once. */
  ghost predicate IdsFresh(db: Db) {
    forall i | i in db.jobs :: i < db.nextId
  }

  /** A well-formed database: every constraint holds and no id is reused. */
  ghost predicate Sound(db: Db) {
    IdsFresh(db) && Accepted(db.jobs)
  }

  lemma {:induction false} InsertAccepted(jobs: map<Id, Row>, nextId: Id, batch: seq<NewJob>, now: Time)
    requires forall i | i in jobs :: i < nextId
    requires Accepted(jobs) && forall j | j in batch :: Insertable(j)
    ensures Accepted(InsertAll(jobs, nextId, batch, now))
    decreases |batch|
  {
    InsertAllSpec(jobs, nextId, batch, now);
    var after := InsertAll(jobs, nextId, batch, now);
    forall i | i in after ensures Checked(after[i]) {
      if i !in jobs {
        assert batch[i - nextId] in batch;
      }
    }
  }

  lemma ApplySound(db: Db, s: Stmt, now: Time)
    requires Sound(db)
    ensures Sound(Apply(db, s, now))
  {
    if s.Insert? && forall j | j in s.batch :: Insertable(j) {
      InsertAllSpec(db.jobs, db.nextId, s.batch, now);
      InsertAccepted(db.jobs, db.nextId, s.batch, now);
    }
  }

  lemma {:induction false} PlaySound(db: Db, es: seq<Event>)
    requires Sound(db)
    ensures Sound(Play(db, es))
    decreases |es|
  {
    if es != [] {
      ApplySound(db, es[0].stmt, es[0].now);
      PlaySound(Apply(db, es[0].stmt, es[0].now), es[1..]);
    }
  }

  /** The only ways one row can come out of one statement. */
  lemma RowAfter(db: Db, s: Stmt, now: Time, i: Id)
    requires IdsFresh(db) && i in db.jobs && IdempotencyUnique(db.jobs) && ActiveKeyUnique(db.jobs)
    ensures var db' := Apply(db, s, now);
      if i in db'.jobs then
        || db'.jobs[i] == db.jobs[i]
        || (Updates(s) && i in Targets(db, s) && Acts(s, db.jobs[i], now)
            && db'.jobs[i] == SetRow(s, db.jobs[i], now) && Checked(db'.jobs[i]))
      else (s.Purge? || s.Retain?) && i in Targets(db, s) && Acts(s, db.jobs[i], now)
  {
    if s.Insert? {
      InsertAllSpec(db.jobs, db.nextId, s.batch, now);
    } else if Enabled(db, s, now) && i in Targets(db, s) {
      TargetsAct(db, s, now, i);
    }
  }

  /** A removed id never comes back. */
  lemma {:induction false} GoneStays(db: Db, es: seq<Event>, i: Id)
    requires Sound(db) && i !in db.jobs && i < db.nextId
    ensures i !in Play(db, es).jobs
    decreases |es|
  {
    if es != [] {
      var s, now := es[0].stmt, es[0].now;
      ApplySound(db, s, now);
      if s.Insert? {
        InsertAllSpec(db.jobs, db.nextId, s.batch, now);
      }
      GoneStays(Apply(db, s, now), es[1..], i);
    }
  }

  // ----- when the database rejects an update -----

  ghost predicate ClaimsExhausted(db: Db, s: Stmt) {
    s.Claim? && exists i | i in s.picks :: i in db.jobs && db.jobs[i].attempt == db.jobs[i].maxAttempts
  }

  ghost predicate ReplayCollides(db: Db, s: Stmt) {
    s.Operate? && s.admin.Replay? &&
    exists i, j | i in Targets(db, s) && j in db.jobs && i != j ::
      && db.jobs[i].uniqueKey.Some? && db.jobs[i].uniqueKey == db.jobs[j].uniqueKey
      && db.jobs[i].queue == db.jobs[j].queue
      && (IsActive(db.jobs[j].state) || j in Targets(db, s))
  }

  lemma ConsistentKept(r: Row, s: Stmt, now: Time)
    requires Consistent(r) && Updates(s) && Acts(s, r, now)
    ensures Consistent(SetRow(s, r, now))
  {
  }

  /** What no update touches, and the only update that makes an inactive row active. */
  lemma KeysKept(r: Row, s: Stmt, now: Time)
    ensures var r' := SetRow(s, r, now);
      && r'.queue == r.queue && r'.idempotencyKey == r.idempotencyKey && r'.uniqueKey == r.uniqueKey
      && r'.maxAttempts == r.maxAttempts && r'.leaseSeconds == r.leaseSeconds
      && r'.priority == r.priority && r'.kind == r.kind && r'.enqueuedAt == r.enqueuedAt
      && r'.scheduleId == r.scheduleId
    ensures Acts(s, r, now) && IsActive(SetRow(s, r, now).state) && !IsActive(r.state) ==>
      s.Operate? && s.admin.Replay?
  {
  }

  lemma ConsistentUpdate(r: Row, s: Stmt, now: Time)
    requires Checked(r) && Consistent(r) && Updates(s) && Acts(s, r, now)
    ensures Checked(SetRow(s, r, now)) <==> !(s.Claim? && r.attempt == r.maxAttempts)
  {
    ConsistentKept(r, s, now);
  }

  lemma UpdateFits(db: Db, s: Stmt, now: Time)
    requires Sound(db) && Updates(s) && Enabled(db, s, now)
    requires !ClaimsExhausted(db, s) && !ReplayCollides(db, s)
    requires forall i | i in db.jobs :: Consistent(db.jobs[i])
    ensures Accepted(UpdateRows(db.jobs, Targets(db, s), s, now))
  {
    var jobs := UpdateRows(db.jobs, Targets(db, s), s, now);
    forall i | i in jobs ensures Checked(jobs[i]) {
      if i in Targets(db, s) {
        TargetsAct(db, s, now, i);
        ConsistentUpdate(db.jobs[i], s, now);
      }
    }
    forall i, j | i in jobs && j in jobs && i != j
      ensures !SameIdempotency(jobs[i], jobs[j]) && !SameActiveKey(jobs[i], jobs[j])
    {
      assert !SameIdempotency(db.jobs[i], db.jobs[j]) && !SameActiveKey(db.jobs[i], db.jobs[j]);
      KeysKept(db.jobs[i], s, now);
      KeysKept(db.jobs[j], s, now);
      if i in Targets(db, s) { TargetsAct(db, s, now, i); }
      if j in Targets(db, s) { TargetsAct(db, s, now, j); }
    }
  }

  lemma RejectedUpdate(db: Db, s: Stmt, now: Time)
    requires Updates(s) && Enabled(db, s, now) && (ClaimsExhausted(db, s) || ReplayCollides(db, s))
    ensures !Accepted(UpdateRows(db.jobs, Targets(db, s), s, now))
  {
    var jobs := UpdateRows(db.jobs, Targets(db, s), s, now);
    if ClaimsExhausted(db, s) {
      var i :| i in s.picks && i in db.jobs && db.jobs[i].attempt == db.jobs[i].maxAttempts;
      assert i in Targets(db, s);
      assert !Checked(jobs[i]);
    } else {
      var i, j :| i in Targets(db, s) && j in db.jobs && i != j
        && db.jobs[i].uniqueKey.Some? && db.jobs[i].uniqueKey == db.jobs[j].uniqueKey
        && db.jobs[i].queue == db.jobs[j].queue
        && (IsActive(db.jobs[j].state) || j in Targets(db, s));
      assert SameActiveKey(jobs[i], jobs[j]);
    }
  }

  // ----- databases as the statements leave them -----

  ghost predicate Healthy(db: Db) {
    Sound(db) && forall i | i in db.jobs :: Consistent(db.jobs[i])
  }

  /** The consistency of every row survives every statement, whatever the CHECKs would catch. */
  lemma ApplyHealthy(db: Db, s: Stmt, now: Time)
    requires Healthy(db)
    ensures Healthy(Apply(db, s, now))
  {
    var db' := Apply(db, s, now);
    ApplySound(db, s, now);
    forall i | i in db'.jobs ensures Consistent(db'.jobs[i]) {
      if i in db.jobs {
        RowAfter(db, s, now, i);
        if Updates(s) && Acts(s, db.jobs[i], now) {
          ConsistentKept(db.jobs[i], s, now);
        }
      } else {
        InsertAllSpec(db.jobs, db.nextId, s.batch, now);
      }
    }
  }

  lemma {:induction false} PlayHealthy(db: Db, es: seq<Event>)
    requires Healthy(db)
    ensures Healthy(Play(db, es))
    decreases |es|
  {
    if es != [] {
      ApplyHealthy(db, es[0].stmt, es[0].now);
      PlayHealthy(Apply(db, es[0].stmt, es[0].now), es[1..]);
    }
  }

  lemma NeverRejected(db: Db, s: Stmt, now: Time)
    requires Healthy(db) && Enabled(db, s, now) && (s.Send? || s.Reap? || s.Operate?)
    requires s.Operate? ==> !s.admin.Replay?
    ensures Accepted(UpdateRows(db.jobs, Targets(db, s), s, now))
    ensures Apply(db, s, now) == db.(jobs := UpdateRows(db.jobs, Targets(db, s), s, now))
  {
    UpdateFits(db, s, now);
  }

  /** A report of one row: accepted if the fence lets it through, without any effect if not. */
  lemma Reported(db: Db, f: Fence, report: Report, now: Time)
    requires Healthy(db)
    ensures var db' := Apply(db, Send(f, report), now);
      if f.id in db.jobs && ReportGuard(db.jobs[f.id], f, report)
      then db' == db.(jobs := db.jobs[f.id := SetReport(db.jobs[f.id], report, now)])
      else db' == db
  {
    var s := Send(f, report);
    NeverRejected(db, s, now);
    if Targets(db, s) == {} {
      assert UpdateRows(db.jobs, {}, s, now) == db.jobs;
    } else {
      assert UpdateRows(db.jobs, {f.id}, s, now) == db.jobs[f.id := SetReport(db.jobs[f.id], report, now)];
    }
  }
}
