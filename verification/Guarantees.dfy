/**
 Promises about one job's whole life: the bounded error log, the backoff it can accumulate,
 cancellation requests, uniqueness of keys and conservation of jobs.
 */
module Guarantees {
  import opened Wrappers
  import opened Jobs
  import opened Statements
  import opened History

  // ----- the error log -----

  /**
   `errors` is the end of the unbounded failure history. It is never longer than the largest
   limit used, the reaper's literal 5 included, and never drops below the smallest one once
   there are that many failures.
   */
  lemma ErrorsAreSuffix(es: seq<Event>, i: Id)
    requires i in Run(START, es).db.jobs
    ensures var w := Run(START, es); i in w.past && var errors, h := w.db.jobs[i].errors, w.past[i];
      && |errors| <= |h.failures|
      && errors == seq(|errors|, k requires 0 <= k < |errors| => h.failures[|h.failures| - |errors| + k].error)
      && |errors| <= h.cap
      && (|errors| == |h.failures| || |errors| >= h.floor)
  {
    Reachable(es);
    var w := Run(START, es);
    assert RowInv(w.db.jobs[i], w.past[i]);
  }

  /** Every failure of the run is reported with a limit between the two. */
  predicate LimitsWithin(s: Stmt, least: int, most: int) {
    s.Send? && s.report.Fail? ==> least <= s.report.maxHistory <= most
  }

  ghost predicate Within(h: Past, least: int, most: int) {
    least <= h.floor && h.cap <= most
  }

  ghost predicate AllWithin(w: World, least: int, most: int) {
    forall i | i in w.db.jobs && i in w.past :: Within(w.past[i], least, most)
  }

  lemma WithinKept(r: Row, h: Past, s: Stmt, now: Time, least: int, most: int)
    requires Within(h, least, most) && least <= 5 <= most && LimitsWithin(s, least, most)
    ensures Within(LogRow(h, r, s, now), least, most)
  {
  }

  lemma WithinStep(w: World, e: Event, least: int, most: int)
    requires Inv(w) && AllWithin(w, least, most) && least <= 5 <= most && LimitsWithin(e.stmt, least, most)
    ensures AllWithin(Next(w, e), least, most)
  {
    var w' := Next(w, e);
    forall i | i in w'.db.jobs && i in w'.past ensures Within(w'.past[i], least, most) {
      if i !in w.db.jobs {
        Newcomer(w, e, i);
      } else {
        Survivor(w, e, i);
        WithinKept(w.db.jobs[i], w.past[i], e.stmt, e.now, least, most);
      }
    }
  }

  lemma {:induction false} WithinAlways(w: World, es: seq<Event>, least: int, most: int)
    requires Inv(w) && AllWithin(w, least, most) && least <= 5 <= most
    requires forall e | e in es :: LimitsWithin(e.stmt, least, most)
    ensures AllWithin(Run(w, es), least, most)
    decreases |es|
  {
    if es != [] {
      WithinStep(w, es[0], least, most);
      StepKept(w, es[0]);
      WithinAlways(Next(w, es[0]), es[1..], least, most);
    }
  }

  /**
   For the caller: with limits from `least` to `most`, the reaper's 5 among them, the log never
   holds more than `most` records, and all of the failures or at least `least`.
   */
  lemma ErrorsBounded(es: seq<Event>, least: int, most: int, i: Id)
    requires least <= 5 <= most && (forall e | e in es :: LimitsWithin(e.stmt, least, most))
    requires i in Run(START, es).db.jobs
    ensures var w := Run(START, es); i in w.past && var n := |w.db.jobs[i].errors|;
      n <= most && (n == |w.past[i].failures| || n >= least)
  {
    ErrorsAreSuffix(es, i);
    WithinAlways(START, es, least, most);
  }

  /** The runner stamps its own attempt on the failure it reports. */
  predicate Stamped(s: Stmt) {
    s.Send? && s.report.Fail? ==> s.report.error.attempt == s.fence.attempt
  }

  predicate FailedBefore(f: Failure, g: Failure) {
    f.epoch < g.epoch || (f.epoch == g.epoch && f.error.attempt < g.error.attempt)
  }

  ghost predicate FailuresInOrder(r: Row, h: Past) {
    && (forall i, j | 0 <= i < j < |h.failures| :: FailedBefore(h.failures[i], h.failures[j]))
    && (forall i | 0 <= i < |h.failures| ::
          var f := h.failures[i];
          f.epoch <= h.epoch &&
          (f.epoch == h.epoch ==>
             f.error.attempt <= r.attempt && (r.state == Running ==> f.error.attempt < r.attempt)))
  }

  lemma FailuresKept(r: Row, h: Past, s: Stmt, now: Time)
    requires FailuresInOrder(r, h) && Updates(s) && Acts(s, r, now) && Stamped(s)
    ensures FailuresInOrder(SetRow(s, r, now), LogRow(h, r, s, now))
  {
  }

  ghost predicate AllFailuresInOrder(w: World) {
    forall i | i in w.db.jobs && i in w.past :: FailuresInOrder(w.db.jobs[i], w.past[i])
  }

  /** What one step does to a row that stays, together with its past. */
  ghost predicate Evolves(r: Row, h: Past, r': Row, h': Past, e: Event) {
    || (r' == r && h' == h)
    || (Updates(e.stmt) && Acts(e.stmt, r, e.now)
        && r' == SetRow(e.stmt, r, e.now) && h' == LogRow(h, r, e.stmt, e.now))
  }

  lemma Survivor(w: World, e: Event, i: Id)
    requires Inv(w) && i in w.db.jobs && i in Next(w, e).db.jobs
    ensures i in w.past && i in Next(w, e).past
    ensures Evolves(w.db.jobs[i], w.past[i], Next(w, e).db.jobs[i], Next(w, e).past[i], e)
  {
    if Enabled(w.db, e.stmt, e.now) && Exec(w.db, e.stmt, e.now).Ok? {
      if e.stmt.Insert? {
        InsertAllSpec(w.db.jobs, w.db.nextId, e.stmt.batch, e.now);
      } else if i in Targets(w.db, e.stmt) {
        TargetsAct(w.db, e.stmt, e.now, i);
        assert Updates(e.stmt);
      } else {
        assert Next(w, e).past[i] == w.past[i];
        assert Next(w, e).db.jobs[i] == w.db.jobs[i];
      }
    }
  }

  lemma Newcomer(w: World, e: Event, i: Id)
    requires Inv(w) && i !in w.db.jobs && i in Next(w, e).db.jobs
    ensures e.stmt.Insert? && i in Next(w, e).past
    ensures exists j :: Insertable(j) && Next(w, e).db.jobs[i] == FreshRow(j, e.now)
    ensures Next(w, e).past[i] == FreshPast(Next(w, e).db.jobs[i])
  {
    if e.stmt.Insert? {
      InsertAllSpec(w.db.jobs, w.db.nextId, e.stmt.batch, e.now);
      assert e.stmt.batch[i - w.db.nextId] in e.stmt.batch;
    }
  }

  lemma FailuresStep(w: World, e: Event)
    requires Inv(w) && AllFailuresInOrder(w) && Stamped(e.stmt)
    ensures AllFailuresInOrder(Next(w, e))
  {
    var w' := Next(w, e);
    forall i | i in w'.db.jobs && i in w'.past ensures FailuresInOrder(w'.db.jobs[i], w'.past[i]) {
      if i !in w.db.jobs {
        Newcomer(w, e, i);
      } else {
        Survivor(w, e, i);
        if !(w'.db.jobs[i] == w.db.jobs[i] && w'.past[i] == w.past[i]) {
          FailuresKept(w.db.jobs[i], w.past[i], e.stmt, e.now);
        }
      }
    }
  }

  /** Within a replay epoch the attempts of the recorded failures strictly increase. */
  lemma {:induction false} FailureAttemptsIncrease(w: World, es: seq<Event>)
    requires Inv(w) && AllFailuresInOrder(w) && forall e | e in es :: Stamped(e.stmt)
    ensures AllFailuresInOrder(Run(w, es))
    decreases |es|
  {
    if es != [] {
      FailuresStep(w, es[0]);
      StepKept(w, es[0]);
      FailureAttemptsIncrease(Next(w, es[0]), es[1..]);
    }
  }

  // ----- accumulated backoff -----

  predicate DelayAtMost(s: Stmt, cap: Time) {
    && (s.Send? && s.report.Fail? ==> s.report.delay <= cap)
    && (s.Reap? ==> s.delay <= cap)
  }

  ghost predicate Backed(r: Row, h: Past, cap: Time) {
    && h.retries < r.maxAttempts
    && h.retries + (if r.state == Running then 1 else 0) <= r.attempt
    && h.delayed <= h.retries * cap
  }

  lemma BackedKept(r: Row, h: Past, s: Stmt, now: Time, cap: Time)
    requires Checked(r) && Backed(r, h, cap) && 0 <= cap
    requires Updates(s) && Acts(s, r, now) && DelayAtMost(s, cap)
    ensures Backed(SetRow(s, r, now), LogRow(h, r, s, now), cap)
  {
    assert (h.retries + 1) * cap == h.retries * cap + cap;
  }

  ghost predicate AllBacked(w: World, cap: Time) {
    forall i | i in w.db.jobs && i in w.past :: Backed(w.db.jobs[i], w.past[i], cap)
  }

  lemma BackedStep(w: World, e: Event, cap: Time)
    requires Inv(w) && AllBacked(w, cap) && 0 <= cap && DelayAtMost(e.stmt, cap)
    ensures AllBacked(Next(w, e), cap)
  {
    var w' := Next(w, e);
    forall i | i in w'.db.jobs && i in w'.past ensures Backed(w'.db.jobs[i], w'.past[i], cap) {
      if i !in w.db.jobs {
        Newcomer(w, e, i);
      } else {
        Survivor(w, e, i);
        if !(w'.db.jobs[i] == w.db.jobs[i] && w'.past[i] == w.past[i]) {
          assert RowInv(w.db.jobs[i], w.past[i]);
          BackedKept(w.db.jobs[i], w.past[i], e.stmt, e.now, cap);
        }
      }
    }
  }

  lemma {:induction false} BackedAlways(w: World, es: seq<Event>, cap: Time)
    requires Inv(w) && AllBacked(w, cap) && 0 <= cap && forall e | e in es :: DelayAtMost(e.stmt, cap)
    ensures AllBacked(Run(w, es), cap)
    decreases |es|
  {
    if es != [] {
      BackedStep(w, es[0], cap);
      StepKept(w, es[0]);
      BackedAlways(Next(w, es[0]), es[1..], cap);
    }
  }

  /**
   Between two replays, failures and reaps together postpone a job by at most
   (max_attempts - 1) times the longest single delay.
   */
  lemma LifetimeBackoff(es: seq<Event>, cap: Time, i: Id)
    requires 0 <= cap && (forall e | e in es :: DelayAtMost(e.stmt, cap)) && i in Run(START, es).db.jobs
    ensures var w := Run(START, es);
      && i in w.past
      && w.past[i].delayed <= (w.db.jobs[i].maxAttempts - 1) * cap
  {
    BackedRow(es, cap, i);
    var w := Run(START, es);
    MulMonotone(w.past[i].retries, w.db.jobs[i].maxAttempts - 1, cap);
  }

  lemma BackedRow(es: seq<Event>, cap: Time, i: Id)
    requires 0 <= cap && (forall e | e in es :: DelayAtMost(e.stmt, cap)) && i in Run(START, es).db.jobs
    ensures var w := Run(START, es); i in w.past && Backed(w.db.jobs[i], w.past[i], cap)
  {
    Reachable(es);
    BackedAlways(START, es, cap);
  }

  /**
   What is added up is what the row is really put off by: a retry adds the distance from the
   statement to the time the row is due again, a replay starts from nothing, all else adds none.
   */
  lemma DelayIsPostponement(w: World, e: Event, i: Id)
    requires Inv(w) && i in w.db.jobs && i in Next(w, e).db.jobs
    ensures i in w.past && i in Next(w, e).past
    ensures var r, r', h, h' := w.db.jobs[i], Next(w, e).db.jobs[i], w.past[i], Next(w, e).past[i];
      if r.state == Running && r'.state == Available && !(e.stmt.Send? && e.stmt.report.Release?) then
        h'.delayed == h.delayed + (r'.runAt - e.now) && h'.retries == h.retries + 1
      else if r.state == Dead && r'.state == Available then h'.delayed == 0 && h'.retries == 0
      else h'.delayed == h.delayed && h'.retries == h.retries
  {
    Survivor(w, e, i);
    var r, h := w.db.jobs[i], w.past[i];
    if !(Next(w, e).db.jobs[i] == r && Next(w, e).past[i] == h) {
      Postponed(r, h, e.stmt, e.now);
    }
  }

  /** An epoch is what lies between two replays: it is counted up by each, and by nothing else. */
  lemma EpochsAreReplays(w: World, e: Event, i: Id)
    requires Inv(w) && i in w.db.jobs && i in Next(w, e).db.jobs
    ensures i in w.past && i in Next(w, e).past
    ensures Next(w, e).past[i].epoch == w.past[i].epoch +
      (if w.db.jobs[i].state == Dead && Next(w, e).db.jobs[i].state == Available then 1 else 0)
  {
    Survivor(w, e, i);
    var r, h := w.db.jobs[i], w.past[i];
    if !(Next(w, e).db.jobs[i] == r && Next(w, e).past[i] == h) {
      EpochOf(r, h, e.stmt, e.now);
    }
  }

  lemma EpochOf(r: Row, h: Past, s: Stmt, now: Time)
    requires Updates(s) && Acts(s, r, now)
    ensures LogRow(h, r, s, now).epoch == h.epoch +
      (if r.state == Dead && SetRow(s, r, now).state == Available then 1 else 0)
  {
  }

  lemma Postponed(r: Row, h: Past, s: Stmt, now: Time)
    requires Updates(s) && Acts(s, r, now)
    ensures var r', h' := SetRow(s, r, now), LogRow(h, r, s, now);
      if r.state == Running && r'.state == Available && !(s.Send? && s.report.Release?) then
        h'.delayed == h.delayed + (r'.runAt - now) && h'.retries == h.retries + 1
      else if r.state == Dead && r'.state == Available then h'.delayed == 0 && h'.retries == 0
      else h'.delayed == h.delayed && h'.retries == h.retries
  {
  }

  lemma MulMonotone(m: int, n: int, c: int)
    requires m <= n && 0 <= c
    ensures m * c <= n * c
  {
  }

  // ----- cancellation -----

  lemma CancelRow(r: Row, s: Stmt, now: Time)
    requires r.cancelRequestedAt.Some?
    ensures SetRow(s, r, now).cancelRequestedAt == r.cancelRequestedAt
  {
  }

  lemma CancelStep(db: Db, s: Stmt, now: Time, i: Id)
    requires Sound(db) && i in db.jobs && db.jobs[i].cancelRequestedAt.Some?
    ensures var db' := Apply(db, s, now);
      if i in db'.jobs then db'.jobs[i].cancelRequestedAt == db.jobs[i].cancelRequestedAt
      else i < db'.nextId
  {
    RowAfter(db, s, now, i);
    CancelRow(db.jobs[i], s, now);
    if i !in Apply(db, s, now).jobs {
      assert i < db.nextId;
    }
  }

  /** Nothing clears a cancellation request: not a retry, a reap, a release or a replay. */
  lemma {:induction false} CancelRequestStays(db: Db, es: seq<Event>, i: Id)
    requires Sound(db) && i in db.jobs && db.jobs[i].cancelRequestedAt.Some?
    ensures i in Play(db, es).jobs ==>
      Play(db, es).jobs[i].cancelRequestedAt == db.jobs[i].cancelRequestedAt
    decreases |es|
  {
    if es != [] {
      var db' := Apply(db, es[0].stmt, es[0].now);
      CancelStep(db, es[0].stmt, es[0].now, i);
      ApplySound(db, es[0].stmt, es[0].now);
      if i in db'.jobs {
        CancelRequestStays(db', es[1..], i);
      } else {
        GoneStays(db', es[1..], i);
      }
    }
  }

  // ----- uniqueness and conservation -----

  /** In every run: one row per idempotency key, one active row per unique key. */
  lemma KeysUnique(es: seq<Event>, i: Id, j: Id)
    requires var jobs := Run(START, es).db.jobs; i in jobs && j in jobs && i != j
    ensures var jobs := Run(START, es).db.jobs; var r, r' := jobs[i], jobs[j];
      r.queue == r'.queue ==>
        && (r.idempotencyKey.Some? ==> r.idempotencyKey != r'.idempotencyKey)
        && (r.uniqueKey.Some? && r.uniqueKey == r'.uniqueKey ==>
              IsTerminal(r.state) || IsTerminal(r'.state))
  {
    Reachable(es);
    var jobs := Run(START, es).db.jobs;
    assert !SameIdempotency(jobs[i], jobs[j]) && !SameActiveKey(jobs[i], jobs[j]);
  }

  /**
   Every id ever inserted is in exactly one place: in the table, once in the archive, or
   removed by a prune or a purge.
   */
  lemma JobsConserved(es: seq<Event>, i: Id)
    requires i in Run(START, es).past
    ensures var w := Run(START, es);
      && (i in w.db.jobs <==> w.past[i].gone.None?)
      && (w.past[i].gone == Some(Archived) <==> exists k | 0 <= k < |w.db.archive| :: w.db.archive[k].0 == i)
      && (forall j, k | 0 <= j < |w.db.archive| && 0 <= k < |w.db.archive|
            && w.db.archive[j].0 == i && w.db.archive[k].0 == i :: j == k)
  {
    Reachable(es);
    var w := Run(START, es);
    if i in w.db.jobs {
      assert RowInv(w.db.jobs[i], w.past[i]);
    }
  }

  /**
   A job leaves the table only by a purge that names its queue and state, or by retention
   once it is terminal and past its window.
   */
  lemma RemovedOnlyBy(db: Db, s: Stmt, now: Time, i: Id)
    requires Sound(db) && i in db.jobs && i !in Apply(db, s, now).jobs
    ensures (s.Purge? || s.Retain?) && i in s.picks
    ensures if s.Purge? then db.jobs[i].queue == s.queue && db.jobs[i].state in s.states
            else s.Retain? && PastRetention(db.jobs[i], db.configs, s.windows, now)
                 && (s.archive ==> (i, db.jobs[i]) in Apply(db, s, now).archive)
  {
    RowAfter(db, s, now, i);
    if s.Retain? && s.archive {
      var k :| 0 <= k < |s.picks| && s.picks[k] == i;
      assert Apply(db, s, now).archive[|db.archive| + k] == (i, db.jobs[i]);
    }
  }

  /** How it left is on record: purged, pruned, or archived. */
  lemma RemovedHow(w: World, e: Event, i: Id)
    requires Inv(w) && i in w.db.jobs && i !in Next(w, e).db.jobs
    ensures i in Next(w, e).past
    ensures var s, gone := e.stmt, Next(w, e).past[i].gone;
      && (gone == Some(Purged) <==> s.Purge?)
      && (gone == Some(Archived) <==> s.Retain? && s.archive)
      && (gone == Some(Pruned) <==> s.Retain? && !s.archive)
  {
    RemovedOnlyBy(w.db, e.stmt, e.now, i);
  }
}
