/** Heartbeats on time keep the lease: no reaper takes the job from a live handler. */
module LeaseSafety {
  import opened Wrappers
  import opened Jobs
  import opened Statements
  import opened Columns

  const MIN_HEARTBEAT_MS := 500

  /** The runner's heartbeat interval in milliseconds. */
  function HeartbeatMs(leaseSeconds: nat, fraction: real): int {
    var ms := (leaseSeconds as real * 1000.0 * fraction).Floor;
    if ms > MIN_HEARTBEAT_MS then ms else MIN_HEARTBEAT_MS
  }

  /** With the fractions configuration allows, at least a tenth of the lease is left as slack. */
  lemma HeartbeatFitsLease(leaseSeconds: nat, fraction: real)
    requires 1 <= leaseSeconds && fraction <= 0.9
    ensures HeartbeatMs(leaseSeconds, fraction) <= 900 * leaseSeconds
    ensures HeartbeatMs(leaseSeconds, fraction) >= 500
    ensures var exact := leaseSeconds as real * 1000.0 * fraction;
      exact >= 500.0 ==> exact - 1.0 < HeartbeatMs(leaseSeconds, fraction) as real <= exact
  {
    var ms := leaseSeconds as real * 1000.0;
    ScaleBelow(ms, fraction, 0.9);
    assert ms * 0.9 == (900 * leaseSeconds) as real;
  }

  lemma ScaleBelow(x: real, a: real, b: real)
    requires x >= 0.0 && a <= b
    ensures x * a <= x * b
  {
    assert x * (b - a) >= 0.0;
  }

  predicate Beats(e: Event, f: Fence) {
    e.stmt.Send? && e.stmt.fence == f && e.stmt.report.Heartbeat?
  }

  /** Statements that end the delivery itself: its own outcome report, or a purge of the row. */
  predicate Ends(e: Event, f: Fence) {
    || (e.stmt.Send? && e.stmt.fence == f && !e.stmt.report.Heartbeat?)
    || (e.stmt.Purge? && f.id in e.stmt.picks)
  }

  /** No statement starts later than the lease last granted runs; heartbeats grant it anew. */
  predicate OnTime(es: seq<Event>, f: Fence, lease: int, granted: Time)
    decreases |es|
  {
    es != [] ==>
      && es[0].now <= granted + lease * SECOND
      && (Beats(es[0], f) ==> es[0].stmt.report.leaseSeconds == lease)
      && OnTime(es[1..], f, lease, if Beats(es[0], f) then es[0].now else granted)
  }

  ghost predicate Leased(db: Db, f: Fence, lease: int, granted: Time) {
    && f.id in db.jobs
    && Owns(db.jobs[f.id], f)
    && db.jobs[f.id].leaseExpiresAt == Some(granted + lease * SECOND)
  }

  lemma LeaseStep(db: Db, e: Event, f: Fence, lease: int, granted: Time)
    requires Healthy(db) && Leased(db, f, lease, granted) && !Ends(e, f)
    requires e.now <= granted + lease * SECOND
    requires Beats(e, f) ==> e.stmt.report.leaseSeconds == lease
    ensures Leased(Apply(db, e.stmt, e.now), f, lease, if Beats(e, f) then e.now else granted)
  {
    if Beats(e, f) {
      Reported(db, f, e.stmt.report, e.now);
    } else {
      RowAfter(db, e.stmt, e.now, f.id);
    }
  }

  /**
   Whatever else every other session does, a delivery whose heartbeats are on time still owns
   its row: no reap in the run has taken it.
   */
  lemma {:induction false} OnTimeKeepsJob(db: Db, es: seq<Event>, f: Fence, lease: int, granted: Time)
    requires Healthy(db) && Leased(db, f, lease, granted)
    requires OnTime(es, f, lease, granted) && forall e | e in es :: !Ends(e, f)
    ensures f.id in Play(db, es).jobs && Owns(Play(db, es).jobs[f.id], f)
    decreases |es|
  {
    if es != [] {
      LeaseStep(db, es[0], f, lease, granted);
      ApplyHealthy(db, es[0].stmt, es[0].now);
      OnTimeKeepsJob(Apply(db, es[0].stmt, es[0].now), es[1..], f, lease,
                     if Beats(es[0], f) then es[0].now else granted);
    }
  }

  /**
   The timer started at `start`, ticks every `interval` and gets each tick's heartbeat
   committed within `delay`; `beats` ticks have been committed so far. A heartbeat the handler
   sends in between only has to carry the time at which it was sent.
   */
  predicate Punctual(es: seq<Event>, f: Fence, lease: int, start: Time, interval: Time, delay: Time,
                     startup: Time, beats: nat)
    decreases |es|
  {
    es != [] ==>
      && es[0].now <= start + (beats + 1) * interval + delay
      && (Beats(es[0], f) ==>
            es[0].stmt.report.leaseSeconds == lease && es[0].now >= start + beats * interval - startup)
      && Punctual(es[1..], f, lease, start, interval, delay, startup,
                  if Beats(es[0], f) && es[0].now >= start + (beats + 1) * interval then beats + 1 else beats)
  }

  lemma {:induction false} PunctualIsOnTime(es: seq<Event>, f: Fence, lease: int, start: Time, interval: Time,
                                            delay: Time, startup: Time, beats: nat, granted: Time)
    requires Punctual(es, f, lease, start, interval, delay, startup, beats)
    requires granted >= start + beats * interval - startup
    requires 0 <= startup && interval + delay + startup <= lease * SECOND
    ensures OnTime(es, f, lease, granted)
    decreases |es|
  {
    if es != [] {
      assert (beats + 1) * interval == beats * interval + interval;
      var ticked := Beats(es[0], f) && es[0].now >= start + (beats + 1) * interval;
      PunctualIsOnTime(es[1..], f, lease, start, interval, delay, startup,
                       if ticked then beats + 1 else beats,
                       if Beats(es[0], f) then es[0].now else granted);
    }
  }

  /** A claim leases each job it takes for the job's own lease time. */
  lemma ClaimLeases(db: Db, s: Stmt, now: Time, i: Id)
    requires Healthy(db) && s.Claim? && Enabled(db, s, now) && i in s.picks
    requires forall j | j in s.picks :: db.jobs[j].attempt < db.jobs[j].maxAttempts
    ensures Leased(Apply(db, s, now), Fence(i, s.worker, db.jobs[i].attempt + 1), db.jobs[i].leaseSeconds, now)
  {
    ClaimColumns(db, s, now);
  }

  /** The reaper's side: it may take a job exactly when more than the granted time has gone by. */
  lemma ReapedAfterLease(db: Db, f: Fence, lease: int, granted: Time, delay: Time, now: Time)
    requires Leased(db, f, lease, granted)
    ensures Enabled(db, Reap(1, delay, [f.id]), now) <==> now > granted + lease * 1_000_000
  {
    ReapTakes(db, Reap(1, delay, [f.id]), now);
  }

  /** A leased delivery whose delays fit in a tenth of the lease stays the owner. */
  lemma LeasedHandlerKeepsJob(db: Db, es: seq<Event>, f: Fence, lease: nat, fraction: real,
                              claimed: Time, start: Time, startup: Time, delay: Time)
    requires Healthy(db) && Leased(db, f, lease, claimed)
    requires 1 <= lease && fraction <= 0.9 && startup + delay <= lease * SECOND / 10
    requires claimed <= start <= claimed + startup
    requires Punctual(es, f, lease, start, HeartbeatMs(lease, fraction) * 1000, delay, startup, 0)
    requires forall e | e in es :: !Ends(e, f)
    ensures f.id in Play(db, es).jobs && Owns(Play(db, es).jobs[f.id], f)
  {
    HeartbeatFitsLease(lease, fraction);
    PunctualIsOnTime(es, f, lease, start, HeartbeatMs(lease, fraction) * 1000, delay, startup, 0, claimed);
    OnTimeKeepsJob(db, es, f, lease, claimed);
  }

  /**
   The promise to handlers: claimed at `claimed`, with the timer started within `startup` and
   every heartbeat committed within `delay` of its tick, the job cannot be lost to a reaper as
   long as the two together fit in a tenth of the lease.
   */
  lemma LiveHandlerKeepsJob(db: Db, s: Stmt, es: seq<Event>, i: Id, fraction: real, claimed: Time, start: Time,
                            startup: Time, delay: Time)
    requires Healthy(db) && s.Claim? && Enabled(db, s, claimed) && i in s.picks
    requires forall j | j in s.picks :: db.jobs[j].attempt < db.jobs[j].maxAttempts
    requires var lease := db.jobs[i].leaseSeconds; var f := Fence(i, s.worker, db.jobs[i].attempt + 1);
      && 1 <= lease && fraction <= 0.9 && startup + delay <= lease * SECOND / 10
      && claimed <= start <= claimed + startup
      && Punctual(es, f, lease, start, HeartbeatMs(lease, fraction) * 1000, delay, startup, 0)
      && forall e | e in es :: !Ends(e, f)
    ensures var f := Fence(i, s.worker, db.jobs[i].attempt + 1); var db' := Play(Apply(db, s, claimed), es);
      i in db'.jobs && Owns(db'.jobs[i], f)
  {
    var lease, f := db.jobs[i].leaseSeconds, Fence(i, s.worker, db.jobs[i].attempt + 1);
    var db' := Apply(db, s, claimed);
    ClaimLeases(db, s, claimed, i);
    ApplyHealthy(db, s, claimed);
    LeasedHandlerKeepsJob(db', es, f, lease, fraction, claimed, start, startup, delay);
  }
}
