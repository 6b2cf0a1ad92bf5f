/**
 What each statement does to the columns of the rows it names. The rest of the model speaks of
 SET clauses by name; here they are spelled out against the table before and after.
 */
module Columns {
  import opened Wrappers
  import opened Jobs
  import opened Statements

  type Rows = map<Id, Row>

  /** The fence, in columns. */
  predicate Mine(jobs: Rows, f: Fence) {
    && f.id in jobs
    && jobs[f.id].state == Running && jobs[f.id].workerId == Some(f.worker) && jobs[f.id].attempt == f.attempt
  }

  // ----- enqueue -----

  lemma InsertAccepts(db: Db, batch: seq<NewJob>, now: Time)
    ensures Exec(db, Insert(batch), now).Ok? <==>
      forall j | j in batch :: -32768 <= j.priority <= 32767 && 1 <= j.maxAttempts <= 1000 && 0 < j.leaseSeconds
  {
  }

  /** A created job is available and untried, due when it was asked to be or at once, and otherwise as requested. */
  lemma InsertColumns(db: Db, batch: seq<NewJob>, now: Time, k: nat)
    requires IdsFresh(db) && k < |batch| && Exec(db, Insert(batch), now).Ok?
    requires InsertedIds(db.jobs, db.nextId, batch, now)[k].Some?
    ensures var j, i := batch[k], db.nextId + k; var jobs := Apply(db, Insert(batch), now).jobs;
      && InsertedIds(db.jobs, db.nextId, batch, now)[k] == Some(i) && i !in db.jobs && i in jobs
      && var r := jobs[i];
      && r.state == Available && r.attempt == 0
      && (j.runAt.None? ==> r.runAt == now) && (j.runAt.Some? ==> r.runAt == j.runAt.value)
      && r.queue == j.queue && r.kind == j.kind && r.priority == j.priority
      && r.maxAttempts == j.maxAttempts && r.leaseSeconds == j.leaseSeconds
      && r.idempotencyKey == j.idempotencyKey && r.uniqueKey == j.uniqueKey && r.scheduleId == j.scheduleId
      && r.enqueuedAt == now && r.startedAt == r.finishedAt == r.leaseExpiresAt == r.cancelRequestedAt == None
      && r.workerId == None && r.deadReason == None && r.errors == []
  {
    RowOfItem(db.jobs, db.nextId, batch, now, k);
  }

  // ----- claim -----

  /** Which rows a claim may take. */
  lemma ClaimTakes(db: Db, s: Stmt, now: Time)
    requires s.Claim?
    ensures Enabled(db, s, now) <==>
      && |s.picks| <= s.limit && (forall a, b | 0 <= a < b < |s.picks| :: s.picks[a] != s.picks[b])
      && forall i | i in s.picks ::
           && i in db.jobs && db.jobs[i].queue == s.queue && db.jobs[i].state == Available && db.jobs[i].runAt <= now
           && !(s.queue in db.configs && db.configs[s.queue].paused)
  {
  }

  lemma ClaimColumns(db: Db, s: Stmt, now: Time)
    requires Healthy(db) && s.Claim? && Enabled(db, s, now)
    requires forall i | i in s.picks :: db.jobs[i].attempt < db.jobs[i].maxAttempts
    ensures Apply(db, s, now) == db.(jobs := map i | i in db.jobs ::
      if i !in s.picks then db.jobs[i]
      else
        db.jobs[i].(state := Running, attempt := db.jobs[i].attempt + 1, workerId := Some(s.worker),
                    startedAt := Some(now), leaseExpiresAt := Some(now + db.jobs[i].leaseSeconds * 1_000_000)))
  {
    UpdateFits(db, s, now);
  }

  // ----- reports -----

  lemma FencedOut(db: Db, f: Fence, report: Report, now: Time)
    requires !Mine(db.jobs, f) || (report.AckCancel? && db.jobs[f.id].cancelRequestedAt == None)
    ensures Apply(db, Send(f, report), now) == db
  {
    assert UpdateRows(db.jobs, {}, Send(f, report), now) == db.jobs;
  }

  lemma CompleteColumns(db: Db, f: Fence, now: Time)
    requires Healthy(db) && Mine(db.jobs, f)
    ensures Apply(db, Send(f, Complete), now) == db.(jobs := db.jobs[f.id := db.jobs[f.id].(
      state := Succeeded, finishedAt := Some(now), leaseExpiresAt := None, workerId := None)])
  {
    Reported(db, f, Complete, now);
  }

  /** The error log with one more record: the oldest goes when the log is full. */
  predicate OneMoreError(before: seq<ErrorRecord>, after: seq<ErrorRecord>, limit: int, e: ErrorRecord) {
    if |before| >= limit && before != [] then after == before[1..] + [e] else after == before + [e]
  }

  /** A failure that may be retried, with attempts left: due again after exactly the delay. */
  lemma RetryColumns(db: Db, f: Fence, delay: Time, limit: int, e: ErrorRecord, now: Time)
    requires Healthy(db) && Mine(db.jobs, f) && db.jobs[f.id].attempt < db.jobs[f.id].maxAttempts
    ensures var db' := Apply(db, Send(f, Fail(false, delay, limit, e)), now);
      && f.id in db'.jobs && OneMoreError(db.jobs[f.id].errors, db'.jobs[f.id].errors, limit, e)
      && db' == db.(jobs := db.jobs[f.id := db.jobs[f.id].(
           state := Available, deadReason := None, runAt := now + delay, finishedAt := None,
           errors := db'.jobs[f.id].errors, leaseExpiresAt := None, workerId := None)])
  {
    Reported(db, f, Fail(false, delay, limit, e), now);
  }

  /** A failure that may not, or that was the last attempt: dead, and not to run again. */
  lemma DeadColumns(db: Db, f: Fence, nonRetryable: bool, delay: Time, limit: int, e: ErrorRecord, now: Time)
    requires Healthy(db) && Mine(db.jobs, f)
    requires nonRetryable || db.jobs[f.id].attempt == db.jobs[f.id].maxAttempts
    ensures var db' := Apply(db, Send(f, Fail(nonRetryable, delay, limit, e)), now);
      && f.id in db'.jobs && OneMoreError(db.jobs[f.id].errors, db'.jobs[f.id].errors, limit, e)
      && db' == db.(jobs := db.jobs[f.id := db.jobs[f.id].(
           state := Dead, deadReason := Some(if nonRetryable then NonRetryableError else AttemptsExhausted),
           finishedAt := Some(now), errors := db'.jobs[f.id].errors, leaseExpiresAt := None, workerId := None)])
  {
    Reported(db, f, Fail(nonRetryable, delay, limit, e), now);
  }

  lemma HeartbeatColumns(db: Db, f: Fence, leaseSeconds: int, now: Time)
    requires Healthy(db) && Mine(db.jobs, f)
    ensures Apply(db, Send(f, Heartbeat(leaseSeconds)), now) == db.(jobs := db.jobs[f.id := db.jobs[f.id].(
      leaseExpiresAt := Some(now + leaseSeconds * 1_000_000))])
  {
    Reported(db, f, Heartbeat(leaseSeconds), now);
  }

  lemma AckColumns(db: Db, f: Fence, now: Time)
    requires Healthy(db) && Mine(db.jobs, f) && db.jobs[f.id].cancelRequestedAt != None
    ensures Apply(db, Send(f, AckCancel), now) == db.(jobs := db.jobs[f.id := db.jobs[f.id].(
      state := Cancelled, deadReason := None, finishedAt := Some(now), leaseExpiresAt := None, workerId := None)])
  {
    Reported(db, f, AckCancel, now);
  }

  lemma ReleaseColumns(db: Db, f: Fence, now: Time)
    requires Healthy(db) && Mine(db.jobs, f)
    ensures Apply(db, Send(f, Release), now) == db.(jobs := db.jobs[f.id := db.jobs[f.id].(
      state := Available, runAt := now, leaseExpiresAt := None, workerId := None, startedAt := None)])
  {
    Reported(db, f, Release, now);
  }

  // ----- reaper, retention, purge -----

  lemma ReapTakes(db: Db, s: Stmt, now: Time)
    requires s.Reap?
    ensures Enabled(db, s, now) <==>
      && |s.picks| <= s.limit && (forall a, b | 0 <= a < b < |s.picks| :: s.picks[a] != s.picks[b])
      && forall i | i in s.picks ::
           && i in db.jobs && db.jobs[i].state == Running
           && db.jobs[i].leaseExpiresAt != None && db.jobs[i].leaseExpiresAt.value < now
  {
  }

  /** What a reap makes of a row: available after the delay, or dead with its lease as the reason. */
  predicate Reaped(r: Row, r': Row, delay: Time, now: Time) {
    && OneMoreError(r.errors, r'.errors, 5, ErrorRecord(r.attempt, now, LeaseExpiry, r.workerId))
    && (if r.attempt < r.maxAttempts then
          r' == r.(state := Available, deadReason := None, runAt := now + delay, finishedAt := None, startedAt := None,
                   errors := r'.errors, leaseExpiresAt := None, workerId := None)
        else
          r' == r.(state := Dead, deadReason := Some(LeaseExpired), finishedAt := Some(now), errors := r'.errors,
                   leaseExpiresAt := None, workerId := None))
  }

  lemma ReapColumns(db: Db, s: Stmt, now: Time)
    requires Healthy(db) && s.Reap? && Enabled(db, s, now)
    ensures var db' := Apply(db, s, now);
      && db' == db.(jobs := db'.jobs) && db'.jobs.Keys == db.jobs.Keys
      && forall i | i in db.jobs ::
           if i in s.picks then Reaped(db.jobs[i], db'.jobs[i], s.delay, now) else db'.jobs[i] == db.jobs[i]
  {
    NeverRejected(db, s, now);
  }

  /** The window a finished row is kept for: dead rows have one of their own, a queue's configuration wins. */
  function Window(r: Row, configs: Configs, w: Windows): Time {
    match (r.state == Dead, r.queue in configs)
    case (true, true) => configs[r.queue].retainDead
    case (true, false) => w.dead
    case (false, true) => configs[r.queue].retainSucceeded
    case (false, false) => w.succeeded
  }

  lemma RetainTakes(db: Db, s: Stmt, now: Time)
    requires s.Retain?
    ensures Enabled(db, s, now) <==>
      && |s.picks| <= s.limit && (forall a, b | 0 <= a < b < |s.picks| :: s.picks[a] != s.picks[b])
      && forall i | i in s.picks ::
           && i in db.jobs && db.jobs[i].state in {Succeeded, Dead, Cancelled}
           && db.jobs[i].finishedAt != None
           && db.jobs[i].finishedAt.value + Window(db.jobs[i], db.configs, s.windows) < now
  {
  }

  lemma PurgeTakes(db: Db, s: Stmt, now: Time)
    requires s.Purge?
    ensures Enabled(db, s, now) <==>
      && |s.picks| <= s.limit && (forall a, b | 0 <= a < b < |s.picks| :: s.picks[a] != s.picks[b])
      && forall i | i in s.picks :: i in db.jobs && db.jobs[i].queue == s.queue && db.jobs[i].state in s.states
  {
  }

  /** Both delete their rows and nothing else; archiving first copies them, each with its id. */
  lemma DeleteColumns(db: Db, s: Stmt, now: Time)
    requires (s.Purge? || s.Retain?) && Enabled(db, s, now)
    ensures var db' := Apply(db, s, now);
      && db'.jobs == (map i | i in db.jobs && i !in s.picks :: db.jobs[i])
      && db'.nextId == db.nextId && db'.configs == db.configs
      && |db'.archive| == |db.archive| + (if s.Retain? && s.archive then |s.picks| else 0)
      && db.archive <= db'.archive
      && (s.Retain? && s.archive ==>
            forall k | 0 <= k < |s.picks| :: db'.archive[|db.archive| + k] == (s.picks[k], db.jobs[s.picks[k]]))
  {
  }

  // ----- operators -----

  lemma CancelColumns(db: Db, i: Id, now: Time)
    requires Healthy(db)
    ensures Apply(db, Operate([i], CancelAvailable), now) ==
      if i in db.jobs && db.jobs[i].state == Available
      then db.(jobs := db.jobs[i := db.jobs[i].(state := Cancelled, finishedAt := Some(now))]) else db
  {
    OneOperated(db, i, CancelAvailable, now);
  }

  lemma RequestColumns(db: Db, i: Id, now: Time)
    requires Healthy(db)
    ensures Apply(db, Operate([i], RequestCancel), now) ==
      if i in db.jobs && db.jobs[i].state == Running && db.jobs[i].cancelRequestedAt == None
      then db.(jobs := db.jobs[i := db.jobs[i].(cancelRequestedAt := Some(now))]) else db
  {
    OneOperated(db, i, RequestCancel, now);
  }

  lemma RetryNowColumns(db: Db, i: Id, now: Time)
    requires Healthy(db)
    ensures Apply(db, Operate([i], RetryNow), now) ==
      if i in db.jobs && db.jobs[i].state == Available
      then db.(jobs := db.jobs[i := db.jobs[i].(runAt := now)]) else db
  {
    OneOperated(db, i, RetryNow, now);
  }

  lemma OneOperated(db: Db, i: Id, admin: Admin, now: Time)
    requires Healthy(db) && !admin.Replay?
    ensures Apply(db, Operate([i], admin), now) ==
      if i in db.jobs && AdminGuard(db.jobs[i], admin)
      then db.(jobs := db.jobs[i := SetAdmin(db.jobs[i], admin, now)]) else db
  {
    var s := Operate([i], admin);
    NeverRejected(db, s, now);
    if i in db.jobs && AdminGuard(db.jobs[i], admin) {
      assert Targets(db, s) == {i};
      assert UpdateRows(db.jobs, {i}, s, now) == db.jobs[i := SetAdmin(db.jobs[i], admin, now)];
    } else {
      assert Targets(db, s) == {};
      assert UpdateRows(db.jobs, {}, s, now) == db.jobs;
    }
  }

  /** A replay starts dead jobs afresh, but keeps their errors and a cancellation request. */
  lemma ReplayColumns(db: Db, ids: seq<Id>, now: Time)
    requires Healthy(db) && Exec(db, Operate(ids, Replay), now).Ok?
    ensures Apply(db, Operate(ids, Replay), now) == db.(jobs := map i | i in db.jobs ::
      if i !in ids || db.jobs[i].state != Dead then db.jobs[i]
      else
        db.jobs[i].(state := Available, attempt := 0, deadReason := None, runAt := now, finishedAt := None,
                    startedAt := None))
  {
  }

  /** Pausing keeps the windows of a configured queue; any other gets a day and thirty days. */
  lemma PauseColumns(db: Db, queue: string, paused: bool, now: Time)
    ensures var db' := Apply(db, SetPaused(queue, paused), now);
      && db' == db.(configs := db'.configs)
      && db'.configs == db.configs[queue :=
           if queue in db.configs then db.configs[queue].(paused := paused)
           else QueueConfig(paused, 86_400_000_000, 2_592_000_000_000)]
  {
  }
}
