/** Jobs that wait: a job due later is handed to nobody before, whatever happens in the meantime. */
module Waiting {
  import opened Wrappers
  import opened Jobs
  import opened Statements
  import opened Columns

  /** Statements that move the time of an available job, or claim it at or after `due`. */
  predicate Hastens(e: Event, i: Id, due: Time) {
    || (e.stmt.Operate? && e.stmt.admin.RetryNow? && i in e.stmt.ids)
    || (e.stmt.Claim? && i in e.stmt.picks && due <= e.now)
  }

  predicate Unhastened(es: seq<Event>, i: Id, due: Time) {
    forall e | e in es :: !Hastens(e, i, due)
  }

  /** The job waits until `due`; or it no longer waits, because it was cancelled or removed. */
  predicate Waits(db: Db, i: Id, due: Time) {
    i in db.jobs ==>
      (db.jobs[i].state == Available && db.jobs[i].runAt == due) || db.jobs[i].state == Cancelled
  }

  lemma WaitsStep(db: Db, e: Event, i: Id, due: Time)
    requires Sound(db) && i < db.nextId && Waits(db, i, due) && !Hastens(e, i, due)
    ensures var db' := Apply(db, e.stmt, e.now); Waits(db', i, due) && i < db'.nextId
  {
    if i in db.jobs {
      RowAfter(db, e.stmt, e.now, i);
    } else if e.stmt.Insert? {
      InsertAllSpec(db.jobs, db.nextId, e.stmt.batch, e.now);
    }
  }

  lemma {:induction false} WaitsAlong(db: Db, es: seq<Event>, i: Id, due: Time)
    requires Sound(db) && i < db.nextId && Waits(db, i, due) && Unhastened(es, i, due)
    ensures Waits(Play(db, es), i, due) && Sound(Play(db, es))
    decreases |es|
  {
    if es != [] {
      WaitsStep(db, es[0], i, due);
      ApplySound(db, es[0].stmt, es[0].now);
      WaitsAlong(Apply(db, es[0].stmt, es[0].now), es[1..], i, due);
    }
  }

  /** No claim may take the job before `due`, on this table or after any run that does not hasten it. */
  ghost predicate NotBefore(db: Db, i: Id, due: Time) {
    forall es, s: Stmt, now: Time | Unhastened(es, i, due) && s.Claim? && now < due && i in s.picks ::
      !Enabled(Play(db, es), s, now) && Apply(Play(db, es), s, now) == Play(db, es)
  }

  lemma NeverBefore(db: Db, i: Id, due: Time)
    requires Sound(db) && i in db.jobs && db.jobs[i].state == Available && db.jobs[i].runAt == due
    ensures NotBefore(db, i, due)
  {
    forall es, s: Stmt, now: Time | Unhastened(es, i, due) && s.Claim? && now < due && i in s.picks
      ensures !Enabled(Play(db, es), s, now) && Apply(Play(db, es), s, now) == Play(db, es)
    {
      WaitsAlong(db, es, i, due);
      ClaimTakes(Play(db, es), s, now);
    }
  }

  /** A job enqueued for a time of its own: nobody gets it before. */
  lemma ScheduledWaits(db: Db, batch: seq<NewJob>, now: Time, k: nat)
    requires Sound(db) && k < |batch| && Exec(db, Insert(batch), now).Ok? && batch[k].runAt.Some?
    requires InsertedIds(db.jobs, db.nextId, batch, now)[k].Some?
    ensures NotBefore(Apply(db, Insert(batch), now), db.nextId + k, batch[k].runAt.value)
  {
    InsertColumns(db, batch, now, k);
    ApplySound(db, Insert(batch), now);
    NeverBefore(Apply(db, Insert(batch), now), db.nextId + k, batch[k].runAt.value);
  }

  /** A retryable failure with attempts left: the backoff it reports is waited out. */
  lemma RetryWaits(db: Db, f: Fence, delay: Time, limit: int, error: ErrorRecord, now: Time)
    requires Healthy(db) && Mine(db.jobs, f) && db.jobs[f.id].attempt < db.jobs[f.id].maxAttempts
    ensures NotBefore(Apply(db, Send(f, Fail(false, delay, limit, error)), now), f.id, now + delay)
  {
    RetryColumns(db, f, delay, limit, error, now);
    ApplySound(db, Send(f, Fail(false, delay, limit, error)), now);
    NeverBefore(Apply(db, Send(f, Fail(false, delay, limit, error)), now), f.id, now + delay);
  }

  /** So is the backoff of a reap. */
  lemma ReapWaits(db: Db, s: Stmt, now: Time, i: Id)
    requires Healthy(db) && s.Reap? && Enabled(db, s, now) && i in s.picks
    requires db.jobs[i].attempt < db.jobs[i].maxAttempts
    ensures NotBefore(Apply(db, s, now), i, now + s.delay)
  {
    ReapColumns(db, s, now);
    ApplySound(db, s, now);
    NeverBefore(Apply(db, s, now), i, now + s.delay);
  }

  // ----- and when it is due it can be had -----

  /**
   A claim of one job goes through exactly when the job is available, due and has attempts
   left, and its queue is not paused.
   */
  lemma CanBeHad(db: Db, i: Id, worker: string, now: Time)
    requires Healthy(db) && i in db.jobs
    ensures var r, s := db.jobs[i], Claim(db.jobs[i].queue, 1, worker, [i]);
      Enabled(db, s, now) && Exec(db, s, now).Ok? <==>
        && r.state == Available && r.runAt <= now && r.attempt < r.maxAttempts
        && !(r.queue in db.configs && db.configs[r.queue].paused)
  {
    var s := Claim(db.jobs[i].queue, 1, worker, [i]);
    ClaimTakes(db, s, now);
    if Enabled(db, s, now) {
      if db.jobs[i].attempt < db.jobs[i].maxAttempts {
        UpdateFits(db, s, now);
      } else {
        assert i in s.picks && db.jobs[i].attempt == db.jobs[i].maxAttempts;
        RejectedUpdate(db, s, now);
      }
    }
  }

  /** A job that is handed back can be had again at once. */
  lemma HandedBack(db: Db, f: Fence, worker: string, now: Time)
    requires Healthy(db) && Mine(db.jobs, f) && db.jobs[f.id].attempt < db.jobs[f.id].maxAttempts
    requires !(db.jobs[f.id].queue in db.configs && db.configs[db.jobs[f.id].queue].paused)
    ensures var db' := Apply(db, Send(f, Release), now); var s := Claim(db.jobs[f.id].queue, 1, worker, [f.id]);
      Enabled(db', s, now) && Exec(db', s, now).Ok?
  {
    ReleaseColumns(db, f, now);
    ApplyHealthy(db, Send(f, Release), now);
    CanBeHad(Apply(db, Send(f, Release), now), f.id, worker, now);
  }

  lemma RetriedNow(db: Db, i: Id, worker: string, now: Time)
    requires Healthy(db) && i in db.jobs && db.jobs[i].state == Available
    requires db.jobs[i].attempt < db.jobs[i].maxAttempts
    requires !(db.jobs[i].queue in db.configs && db.configs[db.jobs[i].queue].paused)
    ensures var db' := Apply(db, Operate([i], RetryNow), now); var s := Claim(db.jobs[i].queue, 1, worker, [i]);
      Enabled(db', s, now) && Exec(db', s, now).Ok?
  {
    RetryNowColumns(db, i, now);
    ApplyHealthy(db, Operate([i], RetryNow), now);
    CanBeHad(Apply(db, Operate([i], RetryNow), now), i, worker, now);
  }
}
