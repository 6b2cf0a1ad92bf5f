/**
 Runs with a single scheduler. However late it ticks, and whatever clients do, no occurrence is
 processed twice and none is backfilled, as long as no operator's resume writes a time it
 computed before the schedule was processed.
 */
module Outages {
  import opened Wrappers
  import opened Jobs
  import opened Occurrences
  import opened Scheduler

  /** One occurrence as a scheduler processed it; `fired` says whether it went on to insert. */
  datatype Record = Record(id: Id, planned: Millis, clock: Millis, cron: string, catchup: Catchup, fired: bool)

  function Processed(w: SWorld, env: Env, a: Action): seq<Record> {
    if a.Fire? && Ready(w, a.p) then
      var d, clock := ProcOf(w, a.p).todo[0], ProcOf(w, a.p).read.value;
      [Record(d.id, d.planned, clock, d.cron, d.catchup,
              env.cal.next(d.cron, clock).Some? && ShouldFire(d.catchup, d.planned, clock))]
    else []
  }

  /** Every occurrence processed in a run, in order. */
  function Log(w: SWorld, env: Env, actions: seq<Action>): seq<Record>
    decreases |actions|
  {
    if actions == [] then [] else Processed(w, env, actions[0]) + Log(Step(w, env, actions[0]), env, actions[1..])
  }

  predicate Solo(a: Action) {
    a.ClaimDue? || a.Read? || a.Fire? || a.Advance? || a.Abandon? ==> a.p == 0
  }

  /** The clock an action reads; the database's in whole milliseconds. */
  function ClockOf(a: Action): Option<Millis> {
    match a
    case ClaimDue(_, _, _, now) => Some(now / 1000)
    case Read(_, clock) => Some(clock)
    case ReadEdit(_, _, _, clock) => Some(clock)
    case _ => None
  }

  function Later(t: Millis, a: Action): Millis {
    match ClockOf(a) case Some(u) => u case None => t
  }

  /** One scheduler, and clocks that never go back from one reading to the next. */
  predicate Timely(actions: seq<Action>, t: Millis)
    decreases |actions|
  {
    actions != [] ==>
      && Solo(actions[0]) && Later(t, actions[0]) >= t
      && Timely(actions[1..], Later(t, actions[0]))
  }

  /** A failure between an insert and its advance: the schedule stays where it was. */
  predicate LosesAdvance(w: SWorld, a: Action) {
    a.Abandon? && ProcOf(w, 0).move.Some?
  }

  predicate KeepsAdvances(w: SWorld, env: Env, actions: seq<Action>)
    decreases |actions|
  {
    actions != [] ==>
      !LosesAdvance(w, actions[0]) && KeepsAdvances(Step(w, env, actions[0]), env, actions[1..])
  }

  // ----- what is left to process lies past what was -----

  /** Past the clock it was processed at; or, with `strict` off, not before its planned time. */
  predicate Past(u: Millis, r: Record, strict: bool) {
    if strict then u > r.clock else u >= r.planned
  }

  predicate Owed(w: SWorld, i: Id) {
    ProcOf(w, 0).move.Some? && ProcOf(w, 0).move.value.id == i
  }

  /** Whatever can still be processed for the schedule of `r` lies past it. */
  ghost predicate Ahead(w: SWorld, r: Record, strict: bool) {
    && r.planned <= r.clock && r.id in w.home
    && (forall d | d in ProcOf(w, 0).todo && d.id == r.id :: Past(d.planned, r, strict))
    && (Owed(w, r.id) ==> ProcOf(w, 0).move.value.next > r.clock)
    && (r.id in w.schedules ==> Past(w.schedules[r.id].nextRunAt, r, strict) || (strict && Owed(w, r.id)))
  }

  /** `a` is a resume writing a time for schedule `i`. */
  predicate Resumes(w: SWorld, a: Action, i: Id) {
    a.WriteEdit? && a.q in w.edits && w.edits[a.q].id == i && w.edits[a.q].next.Some? && i in w.schedules
  }

  /** The time a resume writes is not past `r`, and no advance is about to overwrite it. */
  predicate Stale(w: SWorld, a: Action, r: Record, strict: bool) {
    Resumes(w, a, r.id) && !Past(w.edits[a.q].next.value, r, strict) && !(strict && Owed(w, r.id))
  }

  /** The time a resume writes is before one its schedule is already claimed for. */
  predicate BehindTodo(w: SWorld, a: Action) {
    exists d | d in ProcOf(w, 0).todo :: Resumes(w, a, d.id) && w.edits[a.q].next.value < d.planned
  }

  /** No resume of the run writes a stale time; `log` is what was processed before it. */
  ghost predicate FreshWrites(w: SWorld, env: Env, actions: seq<Action>, log: seq<Record>, strict: bool)
    decreases |actions|
  {
    actions != [] ==>
      && (forall r | r in log :: !Stale(w, actions[0], r, strict))
      && (strict || !BehindTodo(w, actions[0]))
      && FreshWrites(Step(w, env, actions[0]), env, actions[1..], log + Processed(w, env, actions[0]), strict)
  }

  /** A resume keeps a processed occurrence behind its schedule if and only if it is not stale. */
  lemma WriteKeepsExactly(w: SWorld, env: Env, a: Action, r: Record, strict: bool)
    requires Ahead(w, r, strict) && Resumes(w, a, r.id)
    ensures Ahead(Step(w, env, a), r, strict) <==> !Stale(w, a, r, strict)
  {
    var w' := Step(w, env, a);
    assert w'.schedules[r.id].nextRunAt == w.edits[a.q].next.value && ProcOf(w', 0) == ProcOf(w, 0);
  }

  // ----- the scheduler's own state -----

  /** Rows to process: one per schedule and due already; the clock is read for the first of them only. */
  ghost predicate TodoInv(w: SWorld, t: Millis, strict: bool) {
    var proc := ProcOf(w, 0);
    && OneRowEach(proc.todo)
    && (forall d | d in proc.todo :: d.planned <= t && !Owed(w, d.id))
    && (forall d | d in proc.todo && d.id in w.schedules :: strict || d.planned <= w.schedules[d.id].nextRunAt)
    && (proc.read.Some? ==> proc.todo != [] && proc.move.None? && proc.todo[0].planned <= proc.read.value <= t)
  }

  lemma ClaimTodo(w: SWorld, env: Env, t: Millis, a: Action, strict: bool)
    requires a.ClaimDue? && Solo(a) && TodoInv(w, t, strict) && Later(t, a) >= t
    ensures TodoInv(Step(w, env, a), Later(t, a), strict)
  {
    var w' := Step(w, env, a);
    if CanClaim(w, a.p, a.limit, a.picks, a.now) {
      var todo := ProcOf(w', 0).todo;
      assert |todo| == |a.picks| && forall k | 0 <= k < |todo| :: a.picks[k] in a.picks;
      assert forall k | 0 <= k < |todo| :: todo[k] == DueRow(a.picks[k], w.schedules[a.picks[k]]);
      assert forall k | 0 <= k < |todo| :: todo[k].planned * 1000 <= a.now;
    }
  }

  lemma ShorterTodo(todo: seq<Due>)
    requires OneRowEach(todo) && todo != []
    ensures OneRowEach(todo[1..]) && forall d | d in todo[1..] :: d in todo && d.id != todo[0].id
  {
  }

  /** What is left of the tick once its row was fired: the advance it owes, or nothing if it failed. */
  ghost predicate Owing(w: SWorld, cal: Calendar, d: Due, todo: seq<Due>, clock: Millis) {
    && 0 in w.procs
    && (|| w.procs[0] == Proc(todo, None, Some(Move(d.id, MoveTo(cal, d.cron, clock), None)))
        || (exists n :: w.procs[0] == Proc(todo, None, Some(Move(d.id, MoveTo(cal, d.cron, clock), Some(n)))))
        || (w.procs[0] == IDLE && d.id !in w.schedules))
  }

  lemma FireOwing(w: SWorld, env: Env, d: Due, todo: seq<Due>, clock: Millis, now: Time)
    ensures Owing(FireRow(w, env, 0, d, todo, clock, now), env.cal, d, todo, clock)
  {
    var w' := FireRow(w, env, 0, d, todo, clock, now);
    if env.cal.next(d.cron, clock).Some? && ShouldFire(d.catchup, d.planned, clock) {
      var next := env.cal.next(d.cron, clock).value;
      if Materialised(w.db.jobs, d, env.iso, now) {
        assert w'.procs[0] == Proc(todo, None, Some(Move(d.id, next, None)));
      } else if d.id in w.schedules {
        assert w'.procs[0] == Proc(todo, None, Some(Move(d.id, next, Some(w.db.nextId))));
      } else {
        assert w' == w.(procs := w.procs[0 := IDLE]);
      }
    } else {
      assert w'.procs[0] == Proc(todo, None, Some(Move(d.id, MoveTo(env.cal, d.cron, clock), None)));
    }
  }

  lemma FireOwes(w: SWorld, env: Env, d: Due, todo: seq<Due>, clock: Millis, now: Time)
    requires Lawful(env.cal)
    ensures var w' := FireRow(w, env, 0, d, todo, clock, now);
      && w'.procs[0].read.None?
      && (if w'.procs[0].move.Some? then
            && w'.procs[0].todo == todo
            && w'.procs[0].move.value.id == d.id
            && w'.procs[0].move.value.next == MoveTo(env.cal, d.cron, clock) > clock
          else d.id !in w'.schedules && w'.procs[0] == IDLE)
  {
    FireOwing(w, env, d, todo, clock, now);
  }

  lemma FireTodo(w: SWorld, env: Env, t: Millis, a: Action, strict: bool)
    requires a.Fire? && Solo(a) && TodoInv(w, t, strict) && Lawful(env.cal)
    ensures TodoInv(Step(w, env, a), t, strict)
  {
    var proc := ProcOf(w, 0);
    if Ready(w, 0) {
      ShorterTodo(proc.todo);
      FireShape(w, env, 0, proc.todo[0], proc.todo[1..], proc.read.value, a.now);
      FireOwes(w, env, proc.todo[0], proc.todo[1..], proc.read.value, a.now);
    }
  }

  lemma AdvanceTodo(w: SWorld, env: Env, t: Millis, strict: bool)
    requires TodoInv(w, t, strict)
    ensures TodoInv(Step(w, env, Advance(0)), t, strict)
  {
  }

  lemma ReadTodo(w: SWorld, env: Env, t: Millis, a: Action, strict: bool)
    requires a.Read? && Solo(a) && TodoInv(w, t, strict) && a.clock >= t
    ensures TodoInv(Step(w, env, a), a.clock, strict)
  {
    assert ProcOf(w, 0).todo != [] ==> ProcOf(w, 0).todo[0] in ProcOf(w, 0).todo;
  }

  lemma WriteTodo(w: SWorld, env: Env, t: Millis, a: Action, strict: bool)
    requires a.WriteEdit? && TodoInv(w, t, strict) && (strict || !BehindTodo(w, a))
    ensures TodoInv(Step(w, env, a), t, strict)
  {
    assert forall d | d in ProcOf(w, 0).todo && !strict && Resumes(w, a, d.id) :: d.planned <= w.edits[a.q].next.value;
  }

  lemma OtherTodo(w: SWorld, env: Env, t: Millis, a: Action, strict: bool)
    requires a.ReadEdit? || a.DropEdit? || a.Create? || a.Delete? || a.Client? || a.Abandon?
    requires Solo(a) && TodoInv(w, t, strict) && Later(t, a) >= t && SchedulesKnown(w)
    ensures TodoInv(Step(w, env, a), Later(t, a), strict)
  {
    assert forall d | d in ProcOf(w, 0).todo :: d.id < w.nextSchedule;
  }

  lemma TodoStep(w: SWorld, env: Env, t: Millis, a: Action, strict: bool)
    requires Solo(a) && TodoInv(w, t, strict) && Later(t, a) >= t && SchedulesKnown(w) && Lawful(env.cal)
    requires strict || !BehindTodo(w, a)
    ensures TodoInv(Step(w, env, a), Later(t, a), strict)
  {
    match a
    case ClaimDue(_, _, _, _) => ClaimTodo(w, env, t, a, strict);
    case Read(_, _) => ReadTodo(w, env, t, a, strict);
    case Fire(_, _) => FireTodo(w, env, t, a, strict);
    case Advance(_) => AdvanceTodo(w, env, t, strict);
    case WriteEdit(_) => WriteTodo(w, env, t, a, strict);
    case _ => OtherTodo(w, env, t, a, strict);
  }

  // ----- a processed occurrence stays behind -----

  lemma FireAhead(w: SWorld, env: Env, t: Millis, a: Action, r: Record, strict: bool)
    requires a.Fire? && Solo(a) && Ahead(w, r, strict) && Lawful(env.cal) && TodoInv(w, t, strict)
    requires Ready(w, 0) && ProcOf(w, 0).todo[0].id == r.id ==> r.clock <= ProcOf(w, 0).read.value
    ensures Ahead(Step(w, env, a), r, strict)
    ensures forall r' | r' in Processed(w, env, a) && r'.id == r.id :: Past(r'.planned, r, strict)
  {
    var proc := ProcOf(w, 0);
    if Ready(w, 0) {
      var d := proc.todo[0];
      ShorterTodo(proc.todo);
      FireShape(w, env, 0, d, proc.todo[1..], proc.read.value, a.now);
      FireOwes(w, env, d, proc.todo[1..], proc.read.value, a.now);
      assert d in proc.todo;
    }
  }

  lemma ClaimAhead(w: SWorld, env: Env, a: Action, r: Record, strict: bool)
    requires a.ClaimDue? && Solo(a) && Ahead(w, r, strict)
    ensures Ahead(Step(w, env, a), r, strict)
  {
    var w' := Step(w, env, a);
    if CanClaim(w, a.p, a.limit, a.picks, a.now) {
      var todo := ProcOf(w', 0).todo;
      forall d | d in todo && d.id == r.id ensures Past(d.planned, r, strict) {
        var k :| 0 <= k < |todo| && todo[k] == d;
        assert d == DueRow(a.picks[k], w.schedules[a.picks[k]]);
      }
    }
  }

  lemma AdvanceAhead(w: SWorld, env: Env, r: Record, strict: bool)
    requires Ahead(w, r, strict)
    ensures Ahead(Step(w, env, Advance(0)), r, strict)
  {
  }

  lemma WriteAhead(w: SWorld, env: Env, a: Action, r: Record, strict: bool)
    requires a.WriteEdit? && Ahead(w, r, strict) && !Stale(w, a, r, strict)
    ensures Ahead(Step(w, env, a), r, strict)
  {
    if Resumes(w, a, r.id) {
      WriteKeepsExactly(w, env, a, r, strict);
    }
  }

  lemma OtherAhead(w: SWorld, env: Env, a: Action, r: Record, strict: bool)
    requires !a.ClaimDue? && !a.Fire? && !a.Advance? && !a.WriteEdit? && Solo(a) && Ahead(w, r, strict)
    requires SchedulesKnown(w) && (strict ==> !LosesAdvance(w, a))
    ensures Ahead(Step(w, env, a), r, strict)
  {
    assert r.id < w.nextSchedule;
  }

  /** The clock read for the row in hand is not before `r`, if they are of one schedule. */
  predicate ReadAfter(w: SWorld, r: Record) {
    Ready(w, 0) && ProcOf(w, 0).todo[0].id == r.id ==> r.clock <= ProcOf(w, 0).read.value
  }

  lemma ReadAfterStep(w: SWorld, env: Env, t: Millis, a: Action, r: Record, strict: bool)
    requires Solo(a) && TodoInv(w, t, strict) && ReadAfter(w, r) && r.clock <= t <= Later(t, a) && Lawful(env.cal)
    ensures ReadAfter(Step(w, env, a), r)
  {
    if a.Fire? && Ready(w, 0) {
      var proc := ProcOf(w, 0);
      FireShape(w, env, 0, proc.todo[0], proc.todo[1..], proc.read.value, a.now);
      FireOwes(w, env, proc.todo[0], proc.todo[1..], proc.read.value, a.now);
    }
  }

  lemma AheadStep(w: SWorld, env: Env, t: Millis, a: Action, r: Record, strict: bool)
    requires Solo(a) && Ahead(w, r, strict) && ReadAfter(w, r) && TodoInv(w, t, strict)
    requires SchedulesKnown(w) && Lawful(env.cal) && (strict ==> !LosesAdvance(w, a)) && !Stale(w, a, r, strict)
    ensures Ahead(Step(w, env, a), r, strict)
    ensures forall r' | r' in Processed(w, env, a) && r'.id == r.id :: Past(r'.planned, r, strict)
  {
    match a
    case ClaimDue(_, _, _, _) => ClaimAhead(w, env, a, r, strict);
    case Fire(_, _) => FireAhead(w, env, t, a, r, strict);
    case Advance(_) => AdvanceAhead(w, env, r, strict);
    case WriteEdit(_) => WriteAhead(w, env, a, r, strict);
    case _ => OtherAhead(w, env, a, r, strict);
  }

  /** A processed occurrence starts out behind everything its schedule has left. */
  lemma StartsAhead(w: SWorld, env: Env, t: Millis, a: Action, r: Record, strict: bool)
    requires Solo(a) && TodoInv(w, t, strict) && SchedulesKnown(w) && Lawful(env.cal) && r in Processed(w, env, a)
    ensures Ahead(Step(w, env, a), r, strict) && ReadAfter(Step(w, env, a), r) && r.clock <= t
  {
    var proc := ProcOf(w, 0);
    var d := proc.todo[0];
    ShorterTodo(proc.todo);
    FireShape(w, env, 0, d, proc.todo[1..], proc.read.value, a.now);
    FireOwes(w, env, d, proc.todo[1..], proc.read.value, a.now);
    assert d in proc.todo && r.id == d.id;
  }

  /** Everything processed after `r` for the same schedule lies past it. */
  lemma {:induction false} LaterAhead(w: SWorld, env: Env, actions: seq<Action>, t: Millis, log: seq<Record>, r: Record,
                                      strict: bool)
    requires SInv(w, env) && Lawful(env.cal) && Timely(actions, t) && TodoInv(w, t, strict)
    requires FreshWrites(w, env, actions, log, strict) && (strict ==> KeepsAdvances(w, env, actions))
    requires r in log && Ahead(w, r, strict) && ReadAfter(w, r) && r.clock <= t
    ensures forall r' | r' in Log(w, env, actions) && r'.id == r.id :: Past(r'.planned, r, strict)
    decreases |actions|
  {
    if actions != [] {
      AheadStep(w, env, t, actions[0], r, strict);
      ReadAfterStep(w, env, t, actions[0], r, strict);
      TodoStep(w, env, t, actions[0], strict);
      StepKept(w, env, actions[0]);
      LaterAhead(Step(w, env, actions[0]), env, actions[1..], Later(t, actions[0]),
                 log + Processed(w, env, actions[0]), r, strict);
    }
  }

  ghost predicate InOrder(log: seq<Record>, strict: bool) {
    && (forall k | 0 <= k < |log| :: log[k].planned <= log[k].clock)
    && (forall j, k | 0 <= j < k < |log| && log[j].id == log[k].id :: Past(log[k].planned, log[j], strict))
  }

  lemma {:induction false} LogInOrder(w: SWorld, env: Env, actions: seq<Action>, t: Millis, log: seq<Record>,
                                      strict: bool)
    requires SInv(w, env) && Lawful(env.cal) && Timely(actions, t) && TodoInv(w, t, strict)
    requires FreshWrites(w, env, actions, log, strict) && (strict ==> KeepsAdvances(w, env, actions))
    ensures InOrder(Log(w, env, actions), strict)
    decreases |actions|
  {
    if actions != [] {
      var w', t' := Step(w, env, actions[0]), Later(t, actions[0]);
      var first, rest := Processed(w, env, actions[0]), Log(w', env, actions[1..]);
      TodoStep(w, env, t, actions[0], strict);
      StepKept(w, env, actions[0]);
      LogInOrder(w', env, actions[1..], t', log + first, strict);
      if first != [] {
        assert first[0] in first;
        StartsAhead(w, env, t, actions[0], first[0], strict);
        LaterAhead(w', env, actions[1..], t', log + first, first[0], strict);
        assert forall k | 0 <= k < |rest| :: rest[k] in rest;
      }
      FrontInOrder(first, rest, strict);
    }
  }

  lemma FrontInOrder(first: seq<Record>, rest: seq<Record>, strict: bool)
    requires |first| <= 1 && InOrder(rest, strict)
    requires first != [] ==>
      first[0].planned <= first[0].clock
      && forall k | 0 <= k < |rest| && rest[k].id == first[0].id :: Past(rest[k].planned, first[0], strict)
    ensures InOrder(first + rest, strict)
  {
    var log := first + rest;
    assert forall k | |first| <= k < |log| :: log[k] == rest[k - |first|];
  }

  /**
   With one scheduler, however long the gaps between its ticks: each occurrence processed lies
   after the clock at which the previous one of its schedule was processed. So planned times
   strictly increase, and an outage yields one occurrence and not one for each it missed. Two
   things are asked for: no tick fails between an insert and its advance, and no resume writes
   a time that its schedule was processed at or after.
   */
  lemma OutageCollapses(env: Env, actions: seq<Action>, t: Millis, j: nat, k: nat)
    requires Lawful(env.cal) && Timely(actions, t)
    requires KeepsAdvances(START, env, actions) && FreshWrites(START, env, actions, [], true)
    requires j < k < |Log(START, env, actions)| && Log(START, env, actions)[j].id == Log(START, env, actions)[k].id
    ensures var log := Log(START, env, actions);
      log[j].planned <= log[j].clock < log[k].planned <= log[k].clock
  {
    LogInOrder(START, env, actions, t, [], true);
  }

  /**
   Even when advances are lost to failures, a schedule is never processed for an earlier time
   again, as long as no resume writes a time before one the schedule was claimed for.
   */
  lemma PlannedNeverBack(env: Env, actions: seq<Action>, t: Millis, j: nat, k: nat)
    requires Lawful(env.cal) && Timely(actions, t) && FreshWrites(START, env, actions, [], false)
    requires j < k < |Log(START, env, actions)| && Log(START, env, actions)[j].id == Log(START, env, actions)[k].id
    ensures Log(START, env, actions)[j].planned <= Log(START, env, actions)[k].planned
  {
    LogInOrder(START, env, actions, t, [], false);
  }

  // ----- resumes nothing is processed behind -----

  /**
   Whenever a resume writes, its schedule was not processed at a later clock than the one it
   read: in particular, nothing of that schedule was processed between the reading and the write.
   */
  ghost predicate Uninterrupted(w: SWorld, env: Env, actions: seq<Action>, log: seq<Record>)
    decreases |actions|
  {
    actions != [] ==>
      && (forall r | r in log && Resumes(w, actions[0], r.id) :: r.clock <= w.edits[actions[0].q].clock)
      && Uninterrupted(Step(w, env, actions[0]), env, actions[1..], log + Processed(w, env, actions[0]))
  }

  /** What a resume is about to write lies after the clock it read. */
  ghost predicate EditsAhead(w: SWorld) {
    forall q | q in w.edits && w.edits[q].next.Some? :: w.edits[q].next.value > w.edits[q].clock
  }

  lemma EditsStep(w: SWorld, env: Env, a: Action)
    requires EditsAhead(w) && Lawful(env.cal)
    ensures EditsAhead(Step(w, env, a))
  {
    if a.Fire? && Ready(w, a.p) {
      var proc := ProcOf(w, a.p);
      FireShape(w, env, a.p, proc.todo[0], proc.todo[1..], proc.read.value, a.now);
    }
  }

  lemma {:induction false} UninterruptedIsFresh(w: SWorld, env: Env, actions: seq<Action>, log: seq<Record>)
    requires EditsAhead(w) && Lawful(env.cal) && Uninterrupted(w, env, actions, log)
    ensures FreshWrites(w, env, actions, log, true)
    decreases |actions|
  {
    if actions != [] {
      EditsStep(w, env, actions[0]);
      UninterruptedIsFresh(Step(w, env, actions[0]), env, actions[1..], log + Processed(w, env, actions[0]));
    }
  }

  // ----- and exactly the next one -----

  /** All that the schedule of `r` has left is the first occurrence after the clock `r` was processed at. */
  ghost predicate OnlyNext(w: SWorld, cal: Calendar, r: Record) {
    var u := MoveTo(cal, r.cron, r.clock);
    && r.id in w.home
    && (forall d | d in ProcOf(w, 0).todo && d.id == r.id :: d.planned == u)
    && (Owed(w, r.id) ==> ProcOf(w, 0).move.value.next == u)
    && (r.id in w.schedules ==> w.schedules[r.id].nextRunAt == u || Owed(w, r.id))
  }

  lemma ClaimNext(w: SWorld, env: Env, a: Action, r: Record)
    requires a.ClaimDue? && Solo(a) && OnlyNext(w, env.cal, r)
    ensures OnlyNext(Step(w, env, a), env.cal, r)
  {
    var w' := Step(w, env, a);
    if CanClaim(w, a.p, a.limit, a.picks, a.now) {
      var todo := ProcOf(w', 0).todo;
      forall d | d in todo && d.id == r.id ensures d.planned == MoveTo(env.cal, r.cron, r.clock) {
        var k :| 0 <= k < |todo| && todo[k] == d;
        assert d == DueRow(a.picks[k], w.schedules[a.picks[k]]);
      }
    }
  }

  lemma FireNext(w: SWorld, env: Env, t: Millis, a: Action, r: Record)
    requires a.Fire? && Solo(a) && OnlyNext(w, env.cal, r) && TodoInv(w, t, true) && Lawful(env.cal)
    requires forall r' | r' in Processed(w, env, a) :: r'.id != r.id
    ensures OnlyNext(Step(w, env, a), env.cal, r)
  {
    if Ready(w, 0) {
      var proc := ProcOf(w, 0);
      assert Processed(w, env, a)[0] in Processed(w, env, a);
      ShorterTodo(proc.todo);
      FireShape(w, env, 0, proc.todo[0], proc.todo[1..], proc.read.value, a.now);
      FireOwes(w, env, proc.todo[0], proc.todo[1..], proc.read.value, a.now);
    }
  }

  lemma OtherNext(w: SWorld, env: Env, a: Action, r: Record)
    requires !a.ClaimDue? && !a.Fire? && Solo(a) && OnlyNext(w, env.cal, r) && SchedulesKnown(w)
    requires !LosesAdvance(w, a) && !Resumes(w, a, r.id)
    ensures OnlyNext(Step(w, env, a), env.cal, r)
  {
    assert r.id < w.nextSchedule;
  }

  lemma NextStep(w: SWorld, env: Env, t: Millis, a: Action, r: Record)
    requires Solo(a) && OnlyNext(w, env.cal, r) && TodoInv(w, t, true) && SchedulesKnown(w) && Lawful(env.cal)
    requires !LosesAdvance(w, a) && !Resumes(w, a, r.id) && forall r' | r' in Processed(w, env, a) :: r'.id != r.id
    ensures OnlyNext(Step(w, env, a), env.cal, r)
  {
    match a
    case ClaimDue(_, _, _, _) => ClaimNext(w, env, a, r);
    case Fire(_, _) => FireNext(w, env, t, a, r);
    case _ => OtherNext(w, env, a, r);
  }

  /** A run without a resume of schedule `i`. */
  predicate NeverResumed(w: SWorld, env: Env, actions: seq<Action>, i: Id)
    decreases |actions|
  {
    actions != [] ==> !Resumes(w, actions[0], i) && NeverResumed(Step(w, env, actions[0]), env, actions[1..], i)
  }

  /** The first record of schedule `i` in a log is its k-th. */
  predicate FirstAt(log: seq<Record>, i: Id, k: nat) {
    k < |log| && log[k].id == i && forall m | 0 <= m < k :: log[m].id != i
  }

  lemma FirstInRest(first: seq<Record>, rest: seq<Record>, i: Id, k: nat)
    requires FirstAt(first + rest, i, k) && |first| <= k
    ensures FirstAt(rest, i, k - |first|) && rest[k - |first|] == (first + rest)[k]
    ensures forall r | r in first :: r.id != i
  {
    var log := first + rest;
    assert forall m | 0 <= m < k - |first| :: rest[m] == log[m + |first|];
    assert forall m | 0 <= m < |first| :: first[m] == log[m];
  }

  lemma HeadIsNext(w: SWorld, env: Env, a: Action, r: Record)
    requires Solo(a) && OnlyNext(w, env.cal, r)
    ensures forall r' | r' in Processed(w, env, a) && r'.id == r.id :: r'.planned == MoveTo(env.cal, r.cron, r.clock)
  {
    if a.Fire? && Ready(w, 0) {
      assert ProcOf(w, 0).todo[0] in ProcOf(w, 0).todo;
    }
  }

  /** A timely run of one scheduler that loses no advance and resumes schedule `i` nowhere. */
  predicate Quiet(w: SWorld, env: Env, actions: seq<Action>, t: Millis, i: Id) {
    Timely(actions, t) && KeepsAdvances(w, env, actions) && NeverResumed(w, env, actions, i)
  }

  lemma QuietTail(w: SWorld, env: Env, actions: seq<Action>, t: Millis, i: Id)
    requires Quiet(w, env, actions, t, i) && actions != []
    ensures Solo(actions[0]) && Later(t, actions[0]) >= t
    ensures !LosesAdvance(w, actions[0]) && !Resumes(w, actions[0], i)
    ensures Quiet(Step(w, env, actions[0]), env, actions[1..], Later(t, actions[0]), i)
  {
  }

  lemma LogUnfolds(w: SWorld, env: Env, actions: seq<Action>)
    requires actions != []
    ensures Log(w, env, actions) == Processed(w, env, actions[0]) + Log(Step(w, env, actions[0]), env, actions[1..])
  {
  }

  lemma {:induction false} FirstIsNext(w: SWorld, env: Env, actions: seq<Action>, t: Millis, r: Record, k: nat)
    requires SInv(w, env) && Lawful(env.cal) && TodoInv(w, t, true)
    requires Quiet(w, env, actions, t, r.id) && OnlyNext(w, env.cal, r)
    requires FirstAt(Log(w, env, actions), r.id, k)
    ensures Log(w, env, actions)[k].planned == MoveTo(env.cal, r.cron, r.clock)
    decreases |actions|
  {
    var a := actions[0];
    var first, rest := Processed(w, env, a), Log(Step(w, env, a), env, actions[1..]);
    LogUnfolds(w, env, actions);
    QuietTail(w, env, actions, t, r.id);
    if k < |first| {
      HeadIsNext(w, env, a, r);
      assert (first + rest)[k] == first[k] && first[k] in first;
    } else {
      FirstInRest(first, rest, r.id, k);
      NextStep(w, env, t, a, r);
      TodoStep(w, env, t, a, true);
      StepKept(w, env, a);
      FirstIsNext(Step(w, env, a), env, actions[1..], Later(t, a), r, k - |first|);
    }
  }

  /**
   After an occurrence is processed, the next one of its schedule to be processed, if it is not
   resumed meanwhile, is exactly the first one after the clock the tick read: an outage yields
   that one occurrence, and none is skipped.
   */
  lemma NextFollows(w: SWorld, env: Env, a: Action, actions: seq<Action>, t: Millis, k: nat)
    requires SInv(w, env) && Lawful(env.cal) && TodoInv(w, t, true) && Timely([a] + actions, t)
    requires Processed(w, env, a) != []
    requires var w', i := Step(w, env, a), Processed(w, env, a)[0].id;
      KeepsAdvances(w', env, actions) && NeverResumed(w', env, actions, i) && FirstAt(Log(w', env, actions), i, k)
    ensures var r := Processed(w, env, a)[0];
      && Log(Step(w, env, a), env, actions)[k].planned == MoveTo(env.cal, r.cron, r.clock)
      && (env.cal.next(r.cron, r.clock).Some? ==>
            Log(Step(w, env, a), env, actions)[k].planned == env.cal.next(r.cron, r.clock).value)
  {
    assert ([a] + actions)[0] == a && ([a] + actions)[1..] == actions;
    var proc, r := ProcOf(w, 0), Processed(w, env, a)[0];
    TodoStep(w, env, t, a, true);
    StepKept(w, env, a);
    ShorterTodo(proc.todo);
    assert proc.todo[0] in proc.todo;
    FireShape(w, env, 0, proc.todo[0], proc.todo[1..], proc.read.value, a.now);
    FireOwes(w, env, proc.todo[0], proc.todo[1..], proc.read.value, a.now);
    FirstIsNext(Step(w, env, a), env, actions, t, r, k);
  }

  /** The state a scheduler is in at any point of a run of its own. */
  lemma {:induction false} SoloReachable(w: SWorld, env: Env, actions: seq<Action>, t: Millis) returns (t': Millis)
    requires SInv(w, env) && Lawful(env.cal) && Timely(actions, t) && TodoInv(w, t, true)
    ensures t' >= t && SInv(Steps(w, env, actions), env) && TodoInv(Steps(w, env, actions), t', true)
    decreases |actions|
  {
    if actions == [] {
      t' := t;
    } else {
      TodoStep(w, env, t, actions[0], true);
      StepKept(w, env, actions[0]);
      t' := SoloReachable(Step(w, env, actions[0]), env, actions[1..], Later(t, actions[0]));
    }
  }

  // ----- what breaks it -----

  /** A lost advance: the next tick gets the very same occurrence. */
  lemma LostAdvanceRepeats(w: SWorld, env: Env, d: Due, clock: Millis, now: Time, again: Time)
    requires ProcOf(w, 0) == Proc([d], Some(clock), None) && d.id in w.schedules && d == DueRow(d.id, w.schedules[d.id])
    requires IsDue(w.schedules[d.id], again)
    ensures var w' := Steps(w, env, [Fire(0, now), Abandon(0), ClaimDue(0, 1, [d.id], again)]);
      ProcOf(w', 0) == Proc([d], None, None)
  {
    assert [d][1..] == [];
    FireShape(w, env, 0, d, [], clock, now);
    var w1 := Step(w, env, Fire(0, now));
    assert w1.schedules == w.schedules;
    var w2 := Step(w1, env, Abandon(0));
    var w3 := Step(w2, env, ClaimDue(0, 1, [d.id], again));
    assert CanClaim(w2, 0, 1, [d.id], again);
    assert ProcOf(w3, 0).todo == [d];
    ThreeSteps(w, env, Fire(0, now), Abandon(0), ClaimDue(0, 1, [d.id], again));
  }

  /**
   Schedule `i` is due and its scheduler idle; a resume that reads `before` would write the time the
   schedule has already. Two ticks follow, at their own clocks, and no clock goes back.
   */
  ghost predicate LateResume(w: SWorld, env: Env, q: nat, i: Id, before: Millis, due: Time, clock: Millis, due': Time,
                             clock': Millis)
  {
    && Claimable(w, env, i, clock, due) && q !in w.edits
    && env.cal.next(w.schedules[i].cron, before) == Some(w.schedules[i].nextRunAt)
    && WouldFire(env, w.schedules[i], clock') && IsDue(w.schedules[i], due')
    && before <= due / 1000 <= clock <= due' / 1000 <= clock'
  }

  predicate WouldFire(env: Env, s: Schedule, clock: Millis) {
    env.cal.next(s.cron, clock).Some? && ShouldFire(s.catchup, s.nextRunAt, clock)
  }

  /** A tick that claims, reads its clock, inserts and advances. */
  function WholeTick(i: Id, clock: Millis, due: Time, now: Time): seq<Action> {
    [ClaimDue(0, 1, [i], due), Read(0, clock), Fire(0, now), Advance(0)]
  }

  lemma FourSteps(w: SWorld, env: Env, a: Action, b: Action, c: Action, d: Action)
    ensures Steps(w, env, [a, b, c, d]) == Step(Step(Step(Step(w, env, a), env, b), env, c), env, d)
  {
    assert [a, b, c, d][1..] == [b, c, d];
    ThreeSteps(Step(w, env, a), env, b, c, d);
  }

  ghost predicate Claimable(w: SWorld, env: Env, i: Id, clock: Millis, due: Time) {
    && SInv(w, env) && ProcOf(w, 0) == IDLE && i in w.schedules && IsDue(w.schedules[i], due)
    && WouldFire(env, w.schedules[i], clock)
    && !HoldsKey(w.db.jobs, w.schedules[i].queue, OccurrenceKey(env.iso, i, w.schedules[i].nextRunAt))
  }

  lemma ClaimedAndRead(w: SWorld, env: Env, i: Id, clock: Millis, due: Time)
    requires Claimable(w, env, i, clock, due)
    ensures var w' := Step(Step(w, env, ClaimDue(0, 1, [i], due)), env, Read(0, clock));
      var d := DueRow(i, w.schedules[i]);
      && CanFire(w', env, 0, d, clock)
      && w'.db == w.db && w'.made == w.made && w'.edits == w.edits
      && w'.schedules == w.schedules[i := w.schedules[i].(lastRunAt := Some(w.schedules[i].nextRunAt))]
      && w'.procs == w.procs[0 := Proc([d], Some(clock), None)]
  {
    var w1 := Step(w, env, ClaimDue(0, 1, [i], due));
    StepKept(w, env, ClaimDue(0, 1, [i], due));
    StepKept(w1, env, Read(0, clock));
    assert CanClaim(w, 0, 1, [i], due);
    assert ProcOf(w1, 0).todo == [DueRow(i, w.schedules[i])];
    assert w1.schedules == w.schedules[i := w.schedules[i].(lastRunAt := Some(w.schedules[i].nextRunAt))];
  }

  /** The job is in, and the advance is owed. */
  lemma FiredAndOwed(w: SWorld, env: Env, d: Due, clock: Millis, now: Time)
    requires CanFire(w, env, 0, d, clock)
    ensures var w', n := Step(w, env, Fire(0, now)), w.db.nextId;
      && SInv(w', env) && n !in w.db.jobs && n !in w.made
      && w'.db == w.db.(jobs := w.db.jobs[n := FreshRow(OccurrenceJob(d, env.iso), now)], nextId := n + 1)
      && w' == w.(db := w'.db, made := w.made[n := (d.id, d.planned)], procs := w.procs[0 := w'.procs[0]])
      && w'.procs[0] == Proc([], None, Some(Move(d.id, env.cal.next(d.cron, clock).value, Some(n))))
  {
    FiredOnce(w, env, 0, d, clock, now);
    FiresExactly(w, env, 0, now);
    assert [d][1..] == [];
    FireOwing(w, env, d, [], clock, now);
  }

  /** One whole tick over a due schedule: a job for its occurrence, and the schedule moved past the clock. */
  ghost predicate Ticked(w: SWorld, env: Env, w': SWorld, i: Id, clock: Millis, now: Time)
    requires i in w.schedules && env.cal.next(w.schedules[i].cron, clock).Some?
  {
    var s, n := w.schedules[i], w.db.nextId;
    && SInv(w', env) && ProcOf(w', 0) == IDLE && n !in w.db.jobs && n !in w.made
    && w'.made == w.made[n := (i, s.nextRunAt)] && w'.edits == w.edits
    && w'.db == w.db.(jobs := w.db.jobs[n := FreshRow(OccurrenceJob(DueRow(i, s), env.iso), now)], nextId := n + 1)
    && w'.schedules == w.schedules[i := s.(
         nextRunAt := env.cal.next(s.cron, clock).value, lastRunAt := Some(s.nextRunAt), lastJobId := Some(n))]
  }

  lemma TickMakes(w: SWorld, env: Env, i: Id, clock: Millis, due: Time, now: Time)
    requires Claimable(w, env, i, clock, due)
    ensures Ticked(w, env, Steps(w, env, WholeTick(i, clock, due, now)), i, clock, now)
  {
    var w2 := Step(Step(w, env, ClaimDue(0, 1, [i], due)), env, Read(0, clock));
    FourSteps(w, env, ClaimDue(0, 1, [i], due), Read(0, clock), Fire(0, now), Advance(0));
    ClaimedAndRead(w, env, i, clock, due);
    TickFrom(w, w2, env, i, clock, now);
  }

  lemma TickFrom(w: SWorld, w2: SWorld, env: Env, i: Id, clock: Millis, now: Time)
    requires i in w.schedules && CanFire(w2, env, 0, DueRow(i, w.schedules[i]), clock)
    requires w2.db == w.db && w2.made == w.made && w2.edits == w.edits
    requires w2.schedules == w.schedules[i := w.schedules[i].(lastRunAt := Some(w.schedules[i].nextRunAt))]
    ensures Ticked(w, env, Step(Step(w2, env, Fire(0, now)), env, Advance(0)), i, clock, now)
  {
    FiredAndAdvanced(w2, env, DueRow(i, w.schedules[i]), clock, now);
  }

  lemma FiredAndAdvanced(w: SWorld, env: Env, d: Due, clock: Millis, now: Time)
    requires CanFire(w, env, 0, d, clock)
    ensures var w', n := Step(Step(w, env, Fire(0, now)), env, Advance(0)), w.db.nextId;
      && SInv(w', env) && ProcOf(w', 0) == IDLE && n !in w.db.jobs && n !in w.made
      && w'.made == w.made[n := (d.id, d.planned)] && w'.edits == w.edits
      && w'.db == w.db.(jobs := w.db.jobs[n := FreshRow(OccurrenceJob(d, env.iso), now)], nextId := n + 1)
      && w'.schedules == w.schedules[d.id := w.schedules[d.id].(
           nextRunAt := env.cal.next(d.cron, clock).value, lastJobId := Some(n))]
  {
    FiredAndOwed(w, env, d, clock, now);
    StepKept(Step(w, env, Fire(0, now)), env, Advance(0));
    AdvancedBy(Step(w, env, Fire(0, now)), env);
  }

  lemma AdvancedBy(w: SWorld, env: Env)
    requires ProcOf(w, 0).move.Some? && ProcOf(w, 0).move.value.job.Some? && ProcOf(w, 0).move.value.id in w.schedules
    ensures var m, w' := ProcOf(w, 0).move.value, Step(w, env, Advance(0));
      && ProcOf(w', 0) == Proc(ProcOf(w, 0).todo, ProcOf(w, 0).read, None)
      && w' == w.(procs := w'.procs, schedules := w'.schedules)
      && w'.schedules == w.schedules[m.id := w.schedules[m.id].(nextRunAt := m.next, lastJobId := m.job)]
  {
  }

  /** After a tick, a purge of its job and the resume's write, the schedule can be claimed as before. */
  lemma PutBack(w: SWorld, env: Env, q: nat, i: Id, before: Millis, due: Time, clock: Millis, now: Time, due': Time,
                clock': Millis)
    requires Claimable(w, env, i, clock, due) && WouldFire(env, w.schedules[i], clock') && IsDue(w.schedules[i], due')
    requires q in w.edits && w.edits[q] == Edit(i, true, Some(w.schedules[i].nextRunAt), before)
    ensures var s, n := w.schedules[i], w.db.nextId;
      var w1 := Steps(w, env, WholeTick(i, clock, due, now));
      var w3 := Step(Step(w1, env, PurgeOf(DueRow(i, s), n, now)), env, WriteEdit(q));
      && Claimable(w3, env, i, clock', due')
      && w3.schedules[i].nextRunAt == s.nextRunAt && w3.db.nextId == n + 1 && n !in w.made
      && w3.made == w.made[n := (i, s.nextRunAt)]
  {
    var s, n := w.schedules[i], w.db.nextId;
    var d := DueRow(i, s);
    var w1 := Steps(w, env, WholeTick(i, clock, due, now));
    TickMakes(w, env, i, clock, due, now);
    RowPurged(w, env, w1, d, now);
    var w2 := Step(w1, env, PurgeOf(d, n, now));
    StepKept(w1, env, PurgeOf(d, n, now));
    StepKept(w2, env, WriteEdit(q));
  }

  /** Tick, purge, write and tick again: the occurrence has two jobs. */
  lemma RepeatedTick(w: SWorld, env: Env, q: nat, i: Id, before: Millis, due: Time, clock: Millis, due': Time,
                     clock': Millis, now: Time)
    requires Claimable(w, env, i, clock, due) && WouldFire(env, w.schedules[i], clock') && IsDue(w.schedules[i], due')
    requires q in w.edits && w.edits[q] == Edit(i, true, Some(w.schedules[i].nextRunAt), before)
    ensures var s, n := w.schedules[i], w.db.nextId;
      var tick, tick' := WholeTick(i, clock, due, now), WholeTick(i, clock', due', now);
      var w' := Steps(w, env, tick + [PurgeOf(DueRow(i, s), n, now), WriteEdit(q)] + tick');
      n in w'.made && n + 1 in w'.made && w'.made[n] == w'.made[n + 1] == (i, s.nextRunAt)
  {
    var s, n := w.schedules[i], w.db.nextId;
    var tick, tick' := WholeTick(i, clock, due, now), WholeTick(i, clock', due', now);
    var purge, write := PurgeOf(DueRow(i, s), n, now), WriteEdit(q);
    var w1 := Steps(w, env, tick);
    var w2 := Step(w1, env, purge);
    var w3 := Step(w2, env, write);
    PutBack(w, env, q, i, before, due, clock, now, due', clock');
    TickMakes(w3, env, i, clock', due', now);
    StepsAppend(w, env, tick + [purge, write], tick');
    StepsAppend(w, env, tick, [purge, write]);
    assert [purge, write][1..] == [write] && [write][1..] == [];
    assert Steps(w1, env, [purge, write]) == Steps(w2, env, [write]) == Steps(w3, env, []);
  }

  /** The resume reads its clock, a tick goes by, its job is purged, the resume writes, and the next tick comes. */
  function LateRun(w: SWorld, env: Env, q: nat, i: Id, before: Millis, due: Time, clock: Millis, due': Time,
                   clock': Millis, now: Time): seq<Action>
    requires i in w.schedules
  {
    [ReadEdit(q, i, true, before)]
    + (WholeTick(i, clock, due, now) + [PurgeOf(DueRow(i, w.schedules[i]), w.db.nextId, now), WriteEdit(q)]
       + WholeTick(i, clock', due', now))
  }

  /**
   A resume that read its clock before the tick and writes after it puts the schedule back: the
   next tick gets the occurrence again, at or before the clock it was processed at. If its first
   job is gone by then it gets a second one. One scheduler, and no clock ever goes back.
   */
  lemma LateResumeRepeats(w: SWorld, env: Env, q: nat, i: Id, before: Millis, due: Time, clock: Millis, due': Time,
                          clock': Millis, now: Time)
    requires LateResume(w, env, q, i, before, due, clock, due', clock')
    ensures var run := LateRun(w, env, q, i, before, due, clock, due', clock', now);
      var made, n := Steps(w, env, run).made, w.db.nextId;
      && Timely(run, before)
      && n in made && n + 1 in made && made[n] == made[n + 1] == (i, w.schedules[i].nextRunAt)
  {
    var read := ReadEdit(q, i, true, before);
    var run := LateRun(w, env, q, i, before, due, clock, due', clock', now);
    assert run[1..] == WholeTick(i, clock, due, now)
        + [PurgeOf(DueRow(i, w.schedules[i]), w.db.nextId, now), WriteEdit(q)] + WholeTick(i, clock', due', now);
    var w0 := Step(w, env, read);
    StepKept(w, env, read);
    assert w0 == w.(edits := w.edits[q := Edit(i, true, Some(w.schedules[i].nextRunAt), before)]);
    RepeatedTick(w0, env, q, i, before, due, clock, due', clock', now);
    LateRunTimely(w, env, q, i, before, due, clock, due', clock', now);
  }

  lemma LateRunTimely(w: SWorld, env: Env, q: nat, i: Id, before: Millis, due: Time, clock: Millis, due': Time,
                      clock': Millis, now: Time)
    requires i in w.schedules && before <= due / 1000 <= clock <= due' / 1000 <= clock'
    ensures Timely(LateRun(w, env, q, i, before, due, clock, due', clock', now), before)
  {
    var t, t' := WholeTick(i, clock, due, now), WholeTick(i, clock', due', now);
    var purge, write := PurgeOf(DueRow(i, w.schedules[i]), w.db.nextId, now), WriteEdit(q);
    TickTimely(i, clock', due', now, [], clock);
    assert t' + [] == t';
    TimelyFront([purge, write], t', clock);
    TickTimely(i, clock, due, now, [purge, write] + t', before);
    assert t + ([purge, write] + t') == t + [purge, write] + t';
    var run := LateRun(w, env, q, i, before, due, clock, due', clock', now);
    assert run[1..] == t + [purge, write] + t';
  }

  lemma TickTimely(i: Id, clock: Millis, due: Time, now: Time, rest: seq<Action>, t: Millis)
    requires t <= due / 1000 <= clock && Timely(rest, clock)
    ensures Timely(WholeTick(i, clock, due, now) + rest, t)
  {
    var all := WholeTick(i, clock, due, now) + rest;
    TimelyFront([Fire(0, now), Advance(0)], rest, clock);
    assert all[1..][1..] == [Fire(0, now), Advance(0)] + rest;
    assert all[1..][0] == Read(0, clock);
    assert Timely(all[1..], due / 1000);
  }

  /** Actions that read no clock in front. */
  lemma {:induction false} TimelyFront(front: seq<Action>, rest: seq<Action>, t: Millis)
    requires Timely(rest, t) && forall a | a in front :: Solo(a) && ClockOf(a).None?
    ensures Timely(front + rest, t)
    decreases |front|
  {
    if front == [] {
      assert front + rest == rest;
    } else {
      assert (front + rest)[1..] == front[1..] + rest;
      TimelyFront(front[1..], rest, t);
    }
  }

  // ----- jobs -----

  /** The occurrence was processed, and everything its schedule has left lies past it. */
  ghost predicate MadeBehind(w: SWorld, t: Millis, log: seq<Record>, o: Occurrence) {
    exists r :: r in log && r.id == o.0 && r.planned == o.1 && r.clock <= t && Ahead(w, r, true) && ReadAfter(w, r)
  }

  ghost predicate OneEach(made: map<Id, Occurrence>) {
    forall i, j | i in made && j in made && i != j :: made[i] != made[j]
  }

  ghost predicate MadeInv(w: SWorld, t: Millis, log: seq<Record>) {
    (forall i | i in w.made :: MadeBehind(w, t, log, w.made[i])) && OneEach(w.made)
  }

  /** A step makes at most one job, for the occurrence it processes. */
  lemma MadeBy(w: SWorld, env: Env, a: Action)
    ensures var made, rs := Step(w, env, a).made, Processed(w, env, a);
      made == w.made || (rs != [] && made == w.made[w.db.nextId := (rs[0].id, rs[0].planned)])
  {
    if a.Fire? && Ready(w, a.p) {
      var proc := ProcOf(w, a.p);
      FireShape(w, env, a.p, proc.todo[0], proc.todo[1..], proc.read.value, a.now);
    }
  }

  lemma BehindStep(w: SWorld, env: Env, t: Millis, a: Action, log: seq<Record>, o: Occurrence)
    requires Solo(a) && t <= Later(t, a) && TodoInv(w, t, true) && SchedulesKnown(w) && Lawful(env.cal)
    requires !LosesAdvance(w, a) && (forall r | r in log :: !Stale(w, a, r, true)) && MadeBehind(w, t, log, o)
    ensures MadeBehind(Step(w, env, a), Later(t, a), log + Processed(w, env, a), o)
    ensures forall r | r in Processed(w, env, a) :: o != (r.id, r.planned)
  {
    var r :| r in log && r.id == o.0 && r.planned == o.1 && r.clock <= t && Ahead(w, r, true) && ReadAfter(w, r);
    AheadStep(w, env, t, a, r, true);
    ReadAfterStep(w, env, t, a, r, true);
    assert r in log + Processed(w, env, a);
  }

  lemma AllBehind(w: SWorld, env: Env, t: Millis, a: Action, log: seq<Record>)
    requires Solo(a) && t <= Later(t, a) && TodoInv(w, t, true) && SchedulesKnown(w) && Lawful(env.cal)
    requires !LosesAdvance(w, a) && (forall r | r in log :: !Stale(w, a, r, true)) && MadeInv(w, t, log)
    ensures forall i | i in w.made :: MadeBehind(Step(w, env, a), Later(t, a), log + Processed(w, env, a), w.made[i])
    ensures forall i, r | i in w.made && r in Processed(w, env, a) :: w.made[i] != (r.id, r.planned)
  {
    forall i | i in w.made
      ensures MadeBehind(Step(w, env, a), Later(t, a), log + Processed(w, env, a), w.made[i])
      ensures forall r | r in Processed(w, env, a) :: w.made[i] != (r.id, r.planned)
    {
      BehindStep(w, env, t, a, log, w.made[i]);
    }
  }

  lemma NewBehind(w: SWorld, env: Env, t: Millis, a: Action, log: seq<Record>)
    requires Solo(a) && t <= Later(t, a) && TodoInv(w, t, true) && SchedulesKnown(w) && Lawful(env.cal)
    requires Processed(w, env, a) != []
    ensures var rs := Processed(w, env, a);
      MadeBehind(Step(w, env, a), Later(t, a), log + rs, (rs[0].id, rs[0].planned))
  {
    var rs := Processed(w, env, a);
    assert rs[0] in rs && rs[0] in log + rs;
    StartsAhead(w, env, t, a, rs[0], true);
  }

  lemma MadeStep(w: SWorld, env: Env, t: Millis, a: Action, log: seq<Record>)
    requires Solo(a) && t <= Later(t, a) && TodoInv(w, t, true) && SchedulesKnown(w) && Lawful(env.cal)
    requires !LosesAdvance(w, a) && (forall r | r in log :: !Stale(w, a, r, true)) && MadeInv(w, t, log)
    ensures MadeInv(Step(w, env, a), Later(t, a), log + Processed(w, env, a))
  {
    var rs := Processed(w, env, a);
    AllBehind(w, env, t, a, log);
    MadeBy(w, env, a);
    if rs != [] {
      NewBehind(w, env, t, a, log);
      assert rs[0] in rs;
    }
  }

  lemma {:induction false} MadeAlways(w: SWorld, env: Env, actions: seq<Action>, t: Millis, log: seq<Record>)
    requires SInv(w, env) && Lawful(env.cal) && Timely(actions, t) && TodoInv(w, t, true) && MadeInv(w, t, log)
    requires KeepsAdvances(w, env, actions) && FreshWrites(w, env, actions, log, true)
    ensures OneEach(Steps(w, env, actions).made)
    decreases |actions|
  {
    if actions != [] {
      MadeStep(w, env, t, actions[0], log);
      TodoStep(w, env, t, actions[0], true);
      StepKept(w, env, actions[0]);
      MadeAlways(Step(w, env, actions[0]), env, actions[1..], Later(t, actions[0]),
                 log + Processed(w, env, actions[0]));
    }
  }

  /** In such runs an occurrence never gets a second job, even after its first was purged. */
  lemma OneJobEver(env: Env, actions: seq<Action>, t: Millis, i: Id, j: Id)
    requires Lawful(env.cal) && Timely(actions, t)
    requires KeepsAdvances(START, env, actions) && FreshWrites(START, env, actions, [], true)
    requires var w := Steps(START, env, actions); i in w.made && j in w.made && w.made[i] == w.made[j]
    ensures i == j
  {
    MadeAlways(START, env, actions, t, []);
  }

  // ----- what is processed -----

  /** An expression that always has a next occurrence. */
  ghost predicate Perpetual(cal: Calendar, cron: string) {
    forall t :: cal.next(cron, t).Some?
  }

  ghost predicate RowOccurs(w: SWorld, cal: Calendar, d: Due) {
    && d.id in w.home
    && (d.id in w.schedules ==> d.cron == w.schedules[d.id].cron)
    && (Perpetual(cal, d.cron) ==> cal.occurs(d.cron, d.planned))
  }

  /** `u` is a time for schedule `i` to move to. */
  ghost predicate TimeOccurs(w: SWorld, cal: Calendar, i: Id, u: Millis) {
    && i in w.home
    && (i in w.schedules && Perpetual(cal, w.schedules[i].cron) ==> cal.occurs(w.schedules[i].cron, u))
  }

  ghost predicate OccursInv(w: SWorld, cal: Calendar) {
    && (forall s | s in w.schedules :: TimeOccurs(w, cal, s, w.schedules[s].nextRunAt))
    && (forall p, d | p in w.procs && d in w.procs[p].todo :: RowOccurs(w, cal, d))
    && (forall p | p in w.procs && w.procs[p].move.Some? ::
          TimeOccurs(w, cal, w.procs[p].move.value.id, w.procs[p].move.value.next))
    && (forall q | q in w.edits && w.edits[q].next.Some? :: TimeOccurs(w, cal, w.edits[q].id, w.edits[q].next.value))
  }

  /** Every schedule that is still there keeps its expression. */
  predicate SameCrons(w: SWorld, w': SWorld) {
    && (forall i | i in w.home :: i in w'.home)
    && (forall i | i in w.home && i in w'.schedules :: i in w.schedules && w'.schedules[i].cron == w.schedules[i].cron)
  }

  lemma CarriedOver(w: SWorld, w': SWorld, cal: Calendar)
    requires SameCrons(w, w')
    ensures forall d | RowOccurs(w, cal, d) :: RowOccurs(w', cal, d)
    ensures forall i, u | TimeOccurs(w, cal, i, u) :: TimeOccurs(w', cal, i, u)
  {
  }

  lemma ClaimOccurs(w: SWorld, env: Env, a: Action)
    requires a.ClaimDue? && OccursInv(w, env.cal) && SchedulesKnown(w)
    ensures OccursInv(Step(w, env, a), env.cal)
  {
    var w' := Step(w, env, a);
    CarriedOver(w, w', env.cal);
    if CanClaim(w, a.p, a.limit, a.picks, a.now) {
      forall p, d | p in w'.procs && d in w'.procs[p].todo ensures RowOccurs(w', env.cal, d) {
        if p == a.p {
          var k :| 0 <= k < |w'.procs[p].todo| && w'.procs[p].todo[k] == d;
          assert d == DueRow(a.picks[k], w.schedules[a.picks[k]]);
          assert TimeOccurs(w, env.cal, d.id, d.planned);
        } else {
          assert RowOccurs(w, env.cal, d);
        }
      }
    }
  }

  lemma FireOccurs(w: SWorld, env: Env, a: Action)
    requires a.Fire? && OccursInv(w, env.cal) && Lawful(env.cal)
    ensures OccursInv(Step(w, env, a), env.cal)
  {
    var proc, w' := ProcOf(w, a.p), Step(w, env, a);
    if Ready(w, a.p) {
      var d := proc.todo[0];
      assert d in proc.todo && RowOccurs(w, env.cal, d);
      FireShape(w, env, a.p, d, proc.todo[1..], proc.read.value, a.now);
      FireMove(w, env, a.p, d, proc.todo[1..], proc.read.value, a.now);
      CarriedOver(w, w', env.cal);
      forall p, e | p in w'.procs && e in w'.procs[p].todo ensures RowOccurs(w, env.cal, e) {
        assert p != a.p ==> p in w.procs && w'.procs[p] == w.procs[p];
        assert p == a.p ==> p in w.procs && e in w.procs[p].todo;
      }
    }
  }

  lemma FireMove(w: SWorld, env: Env, p: nat, d: Due, todo: seq<Due>, clock: Millis, now: Time)
    requires RowOccurs(w, env.cal, d) && Lawful(env.cal)
    ensures var move := FireRow(w, env, p, d, todo, clock, now).procs[p].move;
      move.Some? ==> TimeOccurs(w, env.cal, move.value.id, move.value.next)
  {
  }

  lemma AdvanceOccurs(w: SWorld, env: Env, p: nat)
    requires OccursInv(w, env.cal)
    ensures OccursInv(Step(w, env, Advance(p)), env.cal)
  {
    var w' := Step(w, env, Advance(p));
    CarriedOver(w, w', env.cal);
    assert forall q, d | q in w'.procs && d in w'.procs[q].todo :: RowOccurs(w, env.cal, d);
  }

  lemma EditOccurs(w: SWorld, env: Env, a: Action)
    requires (a.ReadEdit? || a.WriteEdit?) && OccursInv(w, env.cal) && SchedulesKnown(w) && Lawful(env.cal)
    ensures OccursInv(Step(w, env, a), env.cal)
  {
    CarriedOver(w, Step(w, env, a), env.cal);
  }

  lemma CreateOccurs(w: SWorld, env: Env, a: Action)
    requires a.Create? && OccursInv(w, env.cal) && SchedulesKnown(w) && Lawful(env.cal)
    ensures OccursInv(Step(w, env, a), env.cal)
  {
    if env.cal.next(a.schedule.cron, a.clock).Some? {
      var next := env.cal.next(a.schedule.cron, a.clock).value;
      var row := a.schedule.(nextRunAt := next, lastRunAt := None, lastJobId := None);
      AddedOccurs(w, Step(w, env, a), env.cal, row);
    }
  }

  lemma AddedOccurs(w: SWorld, w': SWorld, cal: Calendar, row: Schedule)
    requires OccursInv(w, cal) && SchedulesKnown(w) && cal.occurs(row.cron, row.nextRunAt)
    requires w' == w.(schedules := w.schedules[w.nextSchedule := row], nextSchedule := w.nextSchedule + 1,
                      home := w.home[w.nextSchedule := row.queue])
    ensures OccursInv(w', cal)
  {
    CarriedOver(w, w', cal);
    forall s | s in w'.schedules ensures TimeOccurs(w', cal, s, w'.schedules[s].nextRunAt) {
      if s != w.nextSchedule {
        assert TimeOccurs(w, cal, s, w.schedules[s].nextRunAt);
      }
    }
  }

  lemma OtherOccurs(w: SWorld, env: Env, a: Action)
    requires a.Read? || a.Abandon? || a.DropEdit? || a.Delete? || a.Client?
    requires OccursInv(w, env.cal)
    ensures OccursInv(Step(w, env, a), env.cal)
  {
    CarriedOver(w, Step(w, env, a), env.cal);
  }

  lemma OccursStep(w: SWorld, env: Env, a: Action)
    requires OccursInv(w, env.cal) && SchedulesKnown(w) && Lawful(env.cal)
    ensures OccursInv(Step(w, env, a), env.cal)
  {
    match a
    case ClaimDue(_, _, _, _) => ClaimOccurs(w, env, a);
    case Fire(_, _) => FireOccurs(w, env, a);
    case Advance(p) => AdvanceOccurs(w, env, p);
    case ReadEdit(_, _, _, _) => EditOccurs(w, env, a);
    case WriteEdit(_) => EditOccurs(w, env, a);
    case Create(_, _) => CreateOccurs(w, env, a);
    case _ => OtherOccurs(w, env, a);
  }

  lemma {:induction false} LogOccurs(w: SWorld, env: Env, actions: seq<Action>)
    requires SInv(w, env) && Lawful(env.cal) && OccursInv(w, env.cal)
    ensures forall r | r in Log(w, env, actions) && Perpetual(env.cal, r.cron) ::
      env.cal.occurs(r.cron, r.planned) && (r.fired <==> r.catchup == RunOnce || r.clock <= r.planned + HOUR)
    decreases |actions|
  {
    if actions != [] {
      forall r | r in Processed(w, env, actions[0]) && Perpetual(env.cal, r.cron)
        ensures env.cal.occurs(r.cron, r.planned) && (r.fired <==> r.catchup == RunOnce || r.clock <= r.planned + HOUR)
      {
        var proc := ProcOf(w, actions[0].p);
        assert proc.todo[0] in proc.todo;
        assert RowOccurs(w, env.cal, proc.todo[0]);
      }
      OccursStep(w, env, actions[0]);
      StepKept(w, env, actions[0]);
      LogOccurs(Step(w, env, actions[0]), env, actions[1..]);
    }
  }

  /**
   Any number of schedulers: what they process of an expression that never runs out is an
   occurrence of it; run_once fires every one, skip_missed those at most an hour late.
   */
  lemma FiringsOccur(env: Env, actions: seq<Action>, r: Record)
    requires Lawful(env.cal) && r in Log(START, env, actions) && Perpetual(env.cal, r.cron)
    ensures env.cal.occurs(r.cron, r.planned)
    ensures r.fired <==> r.catchup == RunOnce || r.clock <= r.planned + HOUR
  {
    LogOccurs(START, env, actions);
  }
}
