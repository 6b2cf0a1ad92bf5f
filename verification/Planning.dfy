/** Which schedules a tick takes, what it makes of them, and what pausing, resuming and creating one does. */
module Planning {
  import opened Wrappers
  import opened Jobs
  import opened Statements
  import opened Occurrences
  import opened Scheduler

  // ----- one step at a time, on the columns -----

  /** Enabled, and planned for a time that has come. */
  predicate DueNow(s: Schedule, now: Time) {
    s.enabled && s.nextRunAt * 1000 <= now
  }

  /** An idle scheduler may claim any due schedules, and nothing else; it remembers what they were planned for. */
  lemma ClaimExactly(w: SWorld, env: Env, p: nat, limit: nat, picks: seq<Id>, now: Time)
    ensures var w' := Step(w, env, ClaimDue(p, limit, picks, now));
      if && ProcOf(w, p) == Proc([], None, None) && |picks| <= limit
         && (forall a, b | 0 <= a < b < |picks| :: picks[a] != picks[b])
         && (forall i | i in picks :: i in w.schedules && DueNow(w.schedules[i], now))
      then
        && w' == w.(procs := w.procs[p := ProcOf(w', p)], schedules := w'.schedules)
        && ProcOf(w', p).read == None && ProcOf(w', p).move == None && Remembered(w, picks, ProcOf(w', p).todo)
        && w'.schedules.Keys == w.schedules.Keys
        && (forall i | i in w.schedules :: w'.schedules[i] ==
              if i in picks then w.schedules[i].(lastRunAt := Some(w.schedules[i].nextRunAt)) else w.schedules[i])
      else w' == w
  {
  }

  ghost predicate Remembered(w: SWorld, picks: seq<Id>, todo: seq<Due>) {
    && |todo| == |picks|
    && forall k | 0 <= k < |todo| ::
         && picks[k] in w.schedules
         && var d, s := todo[k], w.schedules[picks[k]];
         && d.id == picks[k] && d.planned == s.nextRunAt
         && d.queue == s.queue && d.kind == s.kind && d.cron == s.cron && d.catchup == s.catchup
  }

  /** The job made for an occurrence: at once, under its key, with the defaults of a scheduled job. */
  lemma MadeColumns(w: SWorld, env: Env, p: nat, now: Time)
    requires SInv(w, env) && Ready(w, p)
    ensures var d, w', i := ProcOf(w, p).todo[0], Step(w, env, Fire(p, now)), w.db.nextId;
      i in w'.db.jobs ==>
        && i !in w.db.jobs && w'.db.jobs == w.db.jobs[i := w'.db.jobs[i]]
        && var r := w'.db.jobs[i];
        && r.state == Available && r.attempt == 0 && r.runAt == now
        && r.queue == d.queue && r.kind == d.kind && r.priority == 0 && r.maxAttempts == 5 && r.leaseSeconds == 30
        && r.idempotencyKey == Some("sched:" + Decimal(d.id) + ":" + env.iso(d.planned)) && r.uniqueKey == None
        && r.scheduleId == Some(d.id)
  {
    FiresExactly(w, env, p, now);
    assert w.db.nextId !in w.db.jobs;
  }

  /** skip_missed lets an occurrence pass that is more than an hour late; run_once never does. */
  lemma FiresWithinHour(catchup: Catchup, planned: Millis, clock: Millis)
    ensures ShouldFire(catchup, planned, clock) <==> catchup == RunOnce || clock <= planned + 3_600_000
  {
  }

  /** A request to pause or resume that nothing comes in between of. */
  lemma EditExactly(w: SWorld, env: Env, q: nat, i: Id, enabled: bool, clock: Millis)
    requires q !in w.edits && i in w.schedules
    ensures var s, w' := w.schedules[i], Step(Step(w, env, ReadEdit(q, i, enabled, clock)), env, WriteEdit(q));
      var next := env.cal.next(s.cron, clock);
      if enabled && next.None? then w' == w
      else
        w' == w.(schedules := w.schedules[i :=
          if enabled then s.(enabled := true, nextRunAt := next.value) else s.(enabled := false)])
  {
    var w1 := Step(w, env, ReadEdit(q, i, enabled, clock));
    if !(enabled && env.cal.next(w.schedules[i].cron, clock).None?) {
      assert w1.edits - {q} == w.edits;
    }
  }

  /** A new schedule is planned for the first occurrence after the clock, and has not run. */
  lemma CreateExactly(w: SWorld, env: Env, schedule: Schedule, clock: Millis)
    ensures var w', i := Step(w, env, Create(schedule, clock)), w.nextSchedule;
      match env.cal.next(schedule.cron, clock)
      case None => w' == w
      case Some(next) =>
        && w'.db == w.db && w'.procs == w.procs && w'.edits == w.edits && w'.made == w.made
        && w'.schedules == w.schedules[i :=
             Schedule(schedule.queue, schedule.kind, schedule.cron, schedule.catchup, schedule.enabled, next,
                      None, None)]
        && w'.nextSchedule == i + 1
  {
  }

  /** Deleting a schedule unlinks its jobs, and changes nothing else about any job. */
  lemma DeleteExactly(w: SWorld, env: Env, d: Id)
    ensures var w' := Step(w, env, Delete(d));
      && w'.schedules == w.schedules - {d} && w'.db.jobs.Keys == w.db.jobs.Keys
      && forall i | i in w.db.jobs ::
           var r := w.db.jobs[i];
           w'.db.jobs[i] == if r.scheduleId == Some(d) then r.(scheduleId := None) else r
  {
  }

  // ----- a paused schedule makes nothing -----

  /** The schedule is paused, or gone, whenever a step of the run is taken. */
  predicate StaysPaused(w: SWorld, env: Env, actions: seq<Action>, i: Id)
    decreases |actions|
  {
    && (i in w.schedules ==> !w.schedules[i].enabled)
    && (actions != [] ==> StaysPaused(Step(w, env, actions[0]), env, actions[1..], i))
  }

  /** Some scheduler claimed this occurrence and has not processed it. */
  ghost predicate Pending(w: SWorld, o: Occurrence) {
    exists p, d :: p in w.procs && d in w.procs[p].todo && (d.id, d.planned) == o
  }

  lemma PausedStep(w: SWorld, env: Env, a: Action, i: Id, t: Millis)
    requires i in w.schedules ==> !w.schedules[i].enabled
    requires !Pending(w, (i, t))
    ensures !Pending(Step(w, env, a), (i, t))
  {
    var w' := Step(w, env, a);
    forall p, d | p in w'.procs && d in w'.procs[p].todo ensures (d.id, d.planned) != (i, t) {
      if a.ClaimDue? && p == a.p && CanClaim(w, p, a.limit, a.picks, a.now) {
        ClaimExactly(w, env, p, a.limit, a.picks, a.now);
        assert d.id in a.picks;
      } else if a.Fire? && Ready(w, a.p) {
        var proc := ProcOf(w, a.p);
        FireShape(w, env, a.p, proc.todo[0], proc.todo[1..], proc.read.value, a.now);
        assert p in w.procs && d in w.procs[p].todo;
      } else {
        assert p in w.procs && d in w.procs[p].todo;
      }
    }
  }

  /** Only an occurrence that is pending gets a job. */
  lemma MadeWasPending(w: SWorld, env: Env, a: Action, n: Id)
    requires n in Step(w, env, a).made && n !in w.made
    ensures Pending(w, Step(w, env, a).made[n])
  {
    var proc := ProcOf(w, a.p);
    FireShape(w, env, a.p, proc.todo[0], proc.todo[1..], proc.read.value, a.now);
    assert proc.todo[0] in w.procs[a.p].todo;
  }

  lemma MadeStays(w: SWorld, env: Env, a: Action, n: Id)
    requires SInv(w, env) && n in w.made
    ensures n in Step(w, env, a).made && Step(w, env, a).made[n] == w.made[n]
  {
    if a.Fire? && Ready(w, a.p) {
      var proc := ProcOf(w, a.p);
      FireShape(w, env, a.p, proc.todo[0], proc.todo[1..], proc.read.value, a.now);
      assert n < w.db.nextId;
    }
  }

  /**
   While a schedule stays paused, whatever any schedulers do, it gets no job but for occurrences
   that a scheduler had claimed before it was paused.
   */
  lemma {:induction false} PausedMakesNone(w: SWorld, env: Env, actions: seq<Action>, i: Id, n: Id)
    requires SInv(w, env) && StaysPaused(w, env, actions, i)
    requires n !in w.made && n in Steps(w, env, actions).made && Steps(w, env, actions).made[n].0 == i
    ensures Pending(w, Steps(w, env, actions).made[n])
    decreases |actions|
  {
    if actions != [] {
      var w', o := Step(w, env, actions[0]), Steps(w, env, actions).made[n];
      StepKept(w, env, actions[0]);
      if n in w'.made {
        MadeStaysAlong(w', env, actions[1..], n);
        MadeWasPending(w, env, actions[0], n);
      } else {
        PausedMakesNone(w', env, actions[1..], i, n);
        if !Pending(w, o) {
          PausedStep(w, env, actions[0], i, o.1);
        }
      }
    }
  }

  lemma {:induction false} MadeStaysAlong(w: SWorld, env: Env, actions: seq<Action>, n: Id)
    requires SInv(w, env) && n in w.made
    ensures n in Steps(w, env, actions).made && Steps(w, env, actions).made[n] == w.made[n]
    decreases |actions|
  {
    if actions != [] {
      MadeStays(w, env, actions[0], n);
      StepKept(w, env, actions[0]);
      MadeStaysAlong(Step(w, env, actions[0]), env, actions[1..], n);
    }
  }
}
