/**
 Schedulers. A tick is not one statement: it claims due schedules, reads the clock for each,
 inserts the occurrence's job and only then advances the schedule. Nor is a resume: it computes
 the next occurrence from the clock it read and writes it later. Other schedulers, operators and
 clients run between any two of these steps.
 */
module Scheduler {
  import opened Wrappers
  import opened Jobs
  import opened Statements
  import opened Occurrences
  import StateMachine

  datatype Schedule = Schedule(
    queue: string,
    kind: string,
    cron: string,
    catchup: Catchup,
    enabled: bool,
    nextRunAt: Millis,
    lastRunAt: Option<Millis>,
    lastJobId: Option<Id>)

  /** A row returned by claimDueSchedules, as the claiming process remembers it. */
  datatype Due = Due(id: Id, queue: string, kind: string, cron: string, catchup: Catchup, planned: Millis)

  datatype Move = Move(id: Id, next: Millis, job: Option<Id>)

  /**
   One scheduler in the middle of a tick: rows still to process, the clock it has read for the
   first of them, and the advance it owes.
   */
  datatype Proc = Proc(todo: seq<Due>, read: Option<Millis>, move: Option<Move>)

  const IDLE := Proc([], None, None)

  /** An operator in the middle of setEnabled: what it computed from `clock`, not written yet. */
  datatype Edit = Edit(id: Id, enabled: bool, next: Option<Millis>, clock: Millis)

  type Occurrence = (Id, Millis)

  /**
   The database, its schedules, and the schedulers and operators at work. `home` (the queue of every schedule
   ever created) and `made` (the occurrence each materialised job is for) are history only.
   */
  datatype SWorld = SWorld(
    db: Db,
    schedules: map<Id, Schedule>,
    nextSchedule: Id,
    procs: map<nat, Proc>,
    edits: map<nat, Edit>,
    home: map<Id, string>,
    made: map<Id, Occurrence>)

  datatype Action =
    | ClaimDue(p: nat, limit: nat, picks: seq<Id>, now: Time)
    | Read(p: nat, clock: Millis)
    | Fire(p: nat, now: Time)
    | Advance(p: nat)
    | Abandon(p: nat)
    | Create(schedule: Schedule, clock: Millis)
    | ReadEdit(q: nat, id: Id, enabled: bool, clock: Millis)
    | WriteEdit(q: nat)
    | DropEdit(q: nat)
    | Delete(id: Id)
    | Client(event: Event)

  datatype Env = Env(cal: Calendar, iso: Millis -> string)

  predicate IsDue(s: Schedule, now: Time) {
    s.enabled && s.nextRunAt * 1000 <= now
  }

  predicate CanClaim(w: SWorld, p: nat, limit: nat, picks: seq<Id>, now: Time) {
    && ProcOf(w, p) == IDLE
    && Distinct(picks) && |picks| <= limit
    && forall i | i in picks :: i in w.schedules && IsDue(w.schedules[i], now)
  }

  function ProcOf(w: SWorld, p: nat): Proc {
    if p in w.procs then w.procs[p] else IDLE
  }

  /** Its first row can be fired: the clock is read and nothing is owed. */
  predicate Ready(w: SWorld, p: nat) {
    ProcOf(w, p).read.Some? && ProcOf(w, p).todo != [] && ProcOf(w, p).move.None?
  }

  predicate OneRowEach(due: seq<Due>) {
    forall j, k | 0 <= j < k < |due| :: due[j].id != due[k].id
  }

  function DueRow(i: Id, s: Schedule): Due {
    Due(i, s.queue, s.kind, s.cron, s.catchup, s.nextRunAt)
  }

  function OccurrenceJob(d: Due, iso: Millis -> string): NewJob {
    NewJob(d.queue, d.kind, 0, 5, 30, None, Some(OccurrenceKey(iso, d.id, d.planned)), None, Some(d.id))
  }

  /** The row's occurrence already has a job in the table. */
  predicate Materialised(jobs: map<Id, Row>, d: Due, iso: Millis -> string, now: Time) {
    Conflicts(jobs, FreshRow(OccurrenceJob(d, iso), now))
  }

  /** The middle of a tick for one row: evaluate, then insert under the occurrence's key. */
  function FireRow(w: SWorld, env: Env, p: nat, d: Due, todo: seq<Due>, clock: Millis, now: Time): SWorld {
    match env.cal.next(d.cron, clock)
    case None => w.(procs := w.procs[p := Proc(todo, None, Some(Move(d.id, clock + HOUR, None)))])
    case Some(next) =>
      if !ShouldFire(d.catchup, d.planned, clock) then
        w.(procs := w.procs[p := Proc(todo, None, Some(Move(d.id, next, None)))])
      else
        var db' := Apply(w.db, Insert([OccurrenceJob(d, env.iso)]), now);
        if Materialised(w.db.jobs, d, env.iso, now) then
          w.(db := db', procs := w.procs[p := Proc(todo, None, Some(Move(d.id, next, None)))])
        else if d.id in w.schedules then
          w.(db := db', made := w.made[w.db.nextId := (d.id, d.planned)],
             procs := w.procs[p := Proc(todo, None, Some(Move(d.id, next, Some(w.db.nextId))))])
        else
          // The schedule is gone: the foreign key rejects the insert and the tick fails.
          w.(procs := w.procs[p := IDLE])
  }

  /** ON DELETE SET NULL. */
  function Unlink(jobs: map<Id, Row>, schedule: Id): map<Id, Row> {
    map i | i in jobs :: if jobs[i].scheduleId == Some(schedule) then jobs[i].(scheduleId := None) else jobs[i]
  }

  /** COALESCE keeps next_run_at when a schedule is paused; a schedule deleted meanwhile stays gone. */
  function Edited(schedules: map<Id, Schedule>, e: Edit): map<Id, Schedule> {
    if e.id !in schedules then schedules
    else
      schedules[e.id := schedules[e.id].(
        enabled := e.enabled,
        nextRunAt := if e.next.Some? then e.next.value else schedules[e.id].nextRunAt)]
  }

  function Step(w: SWorld, env: Env, a: Action): SWorld {
    match a
    case ClaimDue(p, limit, picks, now) =>
      if !CanClaim(w, p, limit, picks, now) then w
      else
        var due := seq(|picks|, k requires 0 <= k < |picks| => DueRow(picks[k], w.schedules[picks[k]]));
        w.(procs := w.procs[p := Proc(due, None, None)],
           schedules := map i | i in w.schedules ::
             if i in picks then w.schedules[i].(lastRunAt := Some(w.schedules[i].nextRunAt)) else w.schedules[i])
    case Read(p, clock) =>
      var proc := ProcOf(w, p);
      if proc.todo == [] || proc.read.Some? || proc.move.Some? then w
      else w.(procs := w.procs[p := proc.(read := Some(clock))])
    case Fire(p, now) =>
      var proc := ProcOf(w, p);
      if !Ready(w, p) then w
      else FireRow(w, env, p, proc.todo[0], proc.todo[1..], proc.read.value, now)
    case Advance(p) =>
      var proc := ProcOf(w, p);
      if proc.move.None? then w
      else
        var m := proc.move.value;
        w.(procs := w.procs[p := Proc(proc.todo, proc.read, None)],
           schedules := if m.id !in w.schedules then w.schedules else
             w.schedules[m.id := w.schedules[m.id].(
               nextRunAt := m.next,
               lastJobId := if m.job.Some? then m.job else w.schedules[m.id].lastJobId)])
    case Abandon(p) => w.(procs := w.procs[p := IDLE])
    case Create(schedule, clock) =>
      if env.cal.next(schedule.cron, clock).None? then w
      else
        var next := env.cal.next(schedule.cron, clock).value;
        var row := schedule.(nextRunAt := next, lastRunAt := None, lastJobId := None);
        w.(schedules := w.schedules[w.nextSchedule := row], nextSchedule := w.nextSchedule + 1,
           home := w.home[w.nextSchedule := schedule.queue])
    case ReadEdit(q, i, enabled, clock) =>
      if q in w.edits || i !in w.schedules || (enabled && env.cal.next(w.schedules[i].cron, clock).None?) then w
      else
        var next := if enabled then env.cal.next(w.schedules[i].cron, clock) else None;
        w.(edits := w.edits[q := Edit(i, enabled, next, clock)])
    case WriteEdit(q) =>
      if q !in w.edits then w
      else w.(edits := w.edits - {q}, schedules := Edited(w.schedules, w.edits[q]))
    case DropEdit(q) => w.(edits := w.edits - {q})
    case Delete(i) =>
      w.(schedules := w.schedules - {i}, db := w.db.(jobs := Unlink(w.db.jobs, i)))
    case Client(e) => w.(db := Apply(w.db, e.stmt, e.now))
  }

  function Steps(w: SWorld, env: Env, actions: seq<Action>): SWorld
    decreases |actions|
  {
    if actions == [] then w else Steps(Step(w, env, actions[0]), env, actions[1..])
  }

  lemma {:induction false} StepsAppend(w: SWorld, env: Env, a: seq<Action>, b: seq<Action>)
    ensures Steps(w, env, a + b) == Steps(Steps(w, env, a), env, b)
    decreases |a|
  {
    if a == [] {
      assert a + b == b;
    } else {
      assert (a + b)[1..] == a[1..] + b;
      StepsAppend(Step(w, env, a[0]), env, a[1..], b);
    }
  }

  const START := SWorld(EMPTY, map[], 1, map[], map[], map[], map[])

  // ----- the invariant -----

  /** A materialised job is in its schedule's queue, under its occurrence's key. */
  ghost predicate Tagged(w: SWorld, env: Env, i: Id)
    requires i in w.db.jobs
  {
    i in w.made ==>
      && w.made[i].0 in w.home
      && w.db.jobs[i].queue == w.home[w.made[i].0]
      && w.db.jobs[i].idempotencyKey == Some(OccurrenceKey(env.iso, w.made[i].0, w.made[i].1))
  }

  ghost predicate SchedulesKnown(w: SWorld) {
    && (forall s | s in w.home :: s < w.nextSchedule)
    && (forall s | s in w.schedules :: s in w.home && w.schedules[s].queue == w.home[s])
    && (forall p, d | p in w.procs && d in w.procs[p].todo :: d.id in w.home && d.queue == w.home[d.id])
  }

  ghost predicate SInv(w: SWorld, env: Env) {
    && Sound(w.db)
    && SchedulesKnown(w)
    && (forall i | i in w.made :: i < w.db.nextId)
    && (forall i | i in w.db.jobs :: Tagged(w, env, i))
  }

  /** No statement changes a queue or a key, and an insert takes new ids. */
  lemma StatementKept(w: SWorld, env: Env, e: Event)
    requires SInv(w, env)
    ensures SInv(w.(db := Apply(w.db, e.stmt, e.now)), env)
  {
    var db' := Apply(w.db, e.stmt, e.now);
    var w' := w.(db := db');
    ApplySound(w.db, e.stmt, e.now);
    forall i | i in db'.jobs ensures Tagged(w', env, i) {
      if i in w.db.jobs {
        assert Tagged(w, env, i);
        RowAfter(w.db, e.stmt, e.now, i);
        KeysKept(w.db.jobs[i], e.stmt, e.now);
      } else {
        InsertAllSpec(w.db.jobs, w.db.nextId, e.stmt.batch, e.now);
      }
    }
  }

  /** Inserting one occurrence: a row under the next id, or nothing but a spent identity value. */
  lemma OccurrenceInserted(db: Db, d: Due, iso: Millis -> string, now: Time)
    ensures var j := OccurrenceJob(d, iso);
      Apply(db, Insert([j]), now) == db.(nextId := db.nextId + 1,
        jobs := if Materialised(db.jobs, d, iso, now) then db.jobs else db.jobs[db.nextId := FreshRow(j, now)])
  {
    var j := OccurrenceJob(d, iso);
    var jobs := if Materialised(db.jobs, d, iso, now) then db.jobs else db.jobs[db.nextId := FreshRow(j, now)];
    assert [j][1..] == [] && Insertable(j) && forall k | k in [j] :: k == j;
    assert InsertAll(db.jobs, db.nextId, [j], now) == InsertAll(jobs, db.nextId + 1, [], now) == jobs;
  }

  /** All that a fired row can change. */
  ghost predicate Fired(w: SWorld, env: Env, w': SWorld, p: nat, d: Due, todo: seq<Due>, now: Time) {
    && w' == w.(db := w'.db, procs := w'.procs, made := w'.made)
    && p in w'.procs && w'.procs == w.procs[p := w'.procs[p]] && (w'.procs[p].todo == todo || w'.procs[p].todo == [])
    && w'.db == w.db.(jobs := w'.db.jobs, nextId := w'.db.nextId) && w'.db.nextId >= w.db.nextId
    && ((w'.db.jobs == w.db.jobs && w'.made == w.made)
        || (&& w'.db.jobs == w.db.jobs[w.db.nextId := FreshRow(OccurrenceJob(d, env.iso), now)]
            && w'.made == w.made[w.db.nextId := (d.id, d.planned)]
            && w'.db.nextId == w.db.nextId + 1
            && !Materialised(w.db.jobs, d, env.iso, now)))
  }

  lemma FireShape(w: SWorld, env: Env, p: nat, d: Due, todo: seq<Due>, clock: Millis, now: Time)
    ensures Fired(w, env, FireRow(w, env, p, d, todo, clock, now), p, d, todo, now)
  {
    if env.cal.next(d.cron, clock).Some? && ShouldFire(d.catchup, d.planned, clock) {
      OccurrenceInserted(w.db, d, env.iso, now);
      TryShape(w, env, p, d, todo, clock, now);
    } else {
      var next := MoveTo(env.cal, d.cron, clock);
      assert FireRow(w, env, p, d, todo, clock, now)
          == w.(procs := w.procs[p := Proc(todo, None, Some(Move(d.id, next, None)))]);
    }
  }

  lemma TryShape(w: SWorld, env: Env, p: nat, d: Due, todo: seq<Due>, clock: Millis, now: Time)
    requires env.cal.next(d.cron, clock).Some? && ShouldFire(d.catchup, d.planned, clock)
    requires var j := OccurrenceJob(d, env.iso);
      Apply(w.db, Insert([j]), now) == w.db.(nextId := w.db.nextId + 1,
        jobs := if Materialised(w.db.jobs, d, env.iso, now) then w.db.jobs
                else w.db.jobs[w.db.nextId := FreshRow(j, now)])
    ensures Fired(w, env, FireRow(w, env, p, d, todo, clock, now), p, d, todo, now)
  {
    var next := env.cal.next(d.cron, clock).value;
    var w' := FireRow(w, env, p, d, todo, clock, now);
    if Materialised(w.db.jobs, d, env.iso, now) {
      assert w'.procs == w.procs[p := Proc(todo, None, Some(Move(d.id, next, None)))];
    } else if d.id in w.schedules {
      assert w'.procs == w.procs[p := Proc(todo, None, Some(Move(d.id, next, Some(w.db.nextId))))];
    } else {
      assert w' == w.(procs := w.procs[p := IDLE]);
    }
  }

  lemma FiredSound(w: SWorld, env: Env, w': SWorld, p: nat, d: Due, todo: seq<Due>, now: Time)
    requires Sound(w.db) && Fired(w, env, w', p, d, todo, now)
    ensures Sound(w'.db)
  {
    OccurrenceInserted(w.db, d, env.iso, now);
    ApplySound(w.db, Insert([OccurrenceJob(d, env.iso)]), now);
  }

  lemma FireKept(w: SWorld, env: Env, w': SWorld, p: nat, d: Due, todo: seq<Due>, now: Time)
    requires SInv(w, env) && Fired(w, env, w', p, d, todo, now) && d.id in w.home && d.queue == w.home[d.id]
    requires forall e | e in todo :: e.id in w.home && e.queue == w.home[e.id]
    ensures SInv(w', env)
  {
    FiredSound(w, env, w', p, d, todo, now);
    FireTags(w, env, w', d, now);
    ProcsKnown(w, w', p);
  }

  lemma ProcsKnown(w: SWorld, w': SWorld, p: nat)
    requires SchedulesKnown(w) && w'.home == w.home && w'.schedules == w.schedules && w'.nextSchedule == w.nextSchedule
    requires p in w'.procs && w'.procs == w.procs[p := w'.procs[p]]
    requires forall d | d in w'.procs[p].todo :: d.id in w.home && d.queue == w.home[d.id]
    ensures SchedulesKnown(w')
  {
  }

  lemma FireTags(w: SWorld, env: Env, w': SWorld, d: Due, now: Time)
    requires SInv(w, env) && d.id in w.home && d.queue == w.home[d.id] && w'.home == w.home
    requires (w'.db.jobs == w.db.jobs && w'.made == w.made)
      || (w'.db.jobs == w.db.jobs[w.db.nextId := FreshRow(OccurrenceJob(d, env.iso), now)]
          && w'.made == w.made[w.db.nextId := (d.id, d.planned)])
    ensures forall i | i in w'.db.jobs :: Tagged(w', env, i)
  {
    forall i | i in w'.db.jobs ensures Tagged(w', env, i) {
      if i in w.db.jobs {
        assert Tagged(w, env, i);
      }
    }
  }

  lemma ClaimKnown(w: SWorld, env: Env, p: nat, limit: nat, picks: seq<Id>, now: Time)
    requires SchedulesKnown(w)
    ensures SchedulesKnown(Step(w, env, ClaimDue(p, limit, picks, now)))
  {
    var w' := Step(w, env, ClaimDue(p, limit, picks, now));
    if CanClaim(w, p, limit, picks, now) {
      assert forall d | d in w'.procs[p].todo :: d.id in w.schedules && d.queue == w.schedules[d.id].queue;
    }
  }

  lemma ScheduleKnown(w: SWorld, env: Env, a: Action)
    requires SchedulesKnown(w) && !a.Fire? && !a.ClaimDue?
    ensures SchedulesKnown(Step(w, env, a))
  {
  }

  /** What the other phases and the operators' schedule statements leave alone. */
  lemma ScheduleStepKept(w: SWorld, env: Env, a: Action)
    requires SInv(w, env) && !a.Fire? && !a.Client? && !a.Delete?
    ensures SInv(Step(w, env, a), env)
  {
    var w' := Step(w, env, a);
    match a {
      case ClaimDue(p, limit, picks, now) => ClaimKnown(w, env, p, limit, picks, now);
      case _ => ScheduleKnown(w, env, a);
    }
    assert w'.db == w.db && w'.made == w.made && forall s | s in w.home :: s in w'.home && w'.home[s] == w.home[s];
    forall i | i in w'.db.jobs ensures Tagged(w', env, i) {
      assert Tagged(w, env, i);
    }
  }

  lemma UnlinkSound(db: Db, i: Id)
    requires Sound(db)
    ensures Sound(db.(jobs := Unlink(db.jobs, i)))
  {
    var jobs := Unlink(db.jobs, i);
    forall j, k | j in jobs && k in jobs && j != k
      ensures !SameIdempotency(jobs[j], jobs[k]) && !SameActiveKey(jobs[j], jobs[k])
    {
      assert !SameIdempotency(db.jobs[j], db.jobs[k]) && !SameActiveKey(db.jobs[j], db.jobs[k]);
    }
  }

  lemma DeleteKept(w: SWorld, env: Env, i: Id)
    requires SInv(w, env)
    ensures SInv(Step(w, env, Delete(i)), env)
  {
    var w' := Step(w, env, Delete(i));
    UnlinkSound(w.db, i);
    ScheduleKnown(w, env, Delete(i));
    forall j | j in w'.db.jobs ensures Tagged(w', env, j) {
      assert Tagged(w, env, j);
    }
  }

  lemma StepKept(w: SWorld, env: Env, a: Action)
    requires SInv(w, env)
    ensures SInv(Step(w, env, a), env)
  {
    match a
    case Fire(p, now) =>
      var proc := ProcOf(w, p);
      if Ready(w, p) {
        assert proc.todo[0] in proc.todo;
        FireShape(w, env, p, proc.todo[0], proc.todo[1..], proc.read.value, now);
        FireKept(w, env, Step(w, env, a), p, proc.todo[0], proc.todo[1..], now);
      }
    case Client(e) => StatementKept(w, env, e);
    case Delete(i) => DeleteKept(w, env, i);
    case _ => ScheduleStepKept(w, env, a);
  }

  lemma {:induction false} StepsKeep(w: SWorld, env: Env, actions: seq<Action>)
    requires SInv(w, env)
    ensures SInv(Steps(w, env, actions), env)
    decreases |actions|
  {
    if actions != [] {
      StepKept(w, env, actions[0]);
      StepsKeep(Step(w, env, actions[0]), env, actions[1..]);
    }
  }

  // ----- rows at rest -----

  /** Deleting a schedule is the one thing that reaches into a terminal row. */
  function Unlinked(r: Row, actions: seq<Action>): Row {
    if exists a | a in actions :: a.Delete? && r.scheduleId == Some(a.id) then r.(scheduleId := None) else r
  }

  predicate ReplaysJob(a: Action, i: Id) {
    a.Client? && StateMachine.Replays(a.event.stmt, i)
  }

  /** What a step does to the database. */
  ghost predicate Touched(db: Db, db': Db, a: Action) {
    match a
    case Client(e) => db' == Apply(db, e.stmt, e.now)
    case Delete(d) => db' == db.(jobs := Unlink(db.jobs, d))
    case _ =>
      && db'.nextId >= db.nextId
      && (|| db'.jobs == db.jobs
          || (db'.nextId > db.nextId && db.nextId in db'.jobs && db'.jobs == db.jobs[db.nextId := db'.jobs[db.nextId]]))
  }

  lemma StepTouches(w: SWorld, env: Env, a: Action)
    ensures Touched(w.db, Step(w, env, a).db, a)
  {
    if a.Fire? && Ready(w, a.p) {
      var proc := ProcOf(w, a.p);
      FireShape(w, env, a.p, proc.todo[0], proc.todo[1..], proc.read.value, a.now);
    }
  }

  /** New rows come under new ids only. */
  lemma NoneReturns(db: Db, db': Db, a: Action, i: Id)
    requires Sound(db) && Touched(db, db', a) && i !in db.jobs && i < db.nextId
    ensures i !in db'.jobs && i < db'.nextId
  {
    if a.Client? && a.event.stmt.Insert? {
      InsertAllSpec(db.jobs, db.nextId, a.event.stmt.batch, a.event.now);
    }
  }

  lemma {:induction false} NoneReturnsAlong(w: SWorld, env: Env, actions: seq<Action>, i: Id)
    requires SInv(w, env) && i !in w.db.jobs && i < w.db.nextId
    ensures i !in Steps(w, env, actions).db.jobs
    decreases |actions|
  {
    if actions != [] {
      StepTouches(w, env, actions[0]);
      NoneReturns(w.db, Step(w, env, actions[0]).db, actions[0], i);
      StepKept(w, env, actions[0]);
      NoneReturnsAlong(Step(w, env, actions[0]), env, actions[1..], i);
    }
  }

  lemma TerminalStep(db: Db, db': Db, a: Action, i: Id)
    requires Sound(db) && Touched(db, db', a) && i in db.jobs && IsTerminal(db.jobs[i].state)
    requires db.jobs[i].state == Dead ==> !ReplaysJob(a, i)
    ensures i in db'.jobs ==> db'.jobs[i] == Unlinked(db.jobs[i], [a])
    ensures i < db.nextId <= db'.nextId
  {
    assert a in [a];
    if a.Client? {
      RowAfter(db, a.event.stmt, a.event.now, i);
    }
  }

  /**
   Whatever schedulers, operators and clients do, a terminal row that is still there is what it
   was, except that it loses its `schedule_id` if and only if its schedule was deleted meanwhile.
   */
  lemma {:induction false} TerminalUnlinked(w: SWorld, env: Env, actions: seq<Action>, i: Id)
    requires SInv(w, env) && i in w.db.jobs && IsTerminal(w.db.jobs[i].state)
    requires w.db.jobs[i].state == Dead ==> forall a | a in actions :: !ReplaysJob(a, i)
    ensures var jobs := Steps(w, env, actions).db.jobs; i in jobs ==> jobs[i] == Unlinked(w.db.jobs[i], actions)
    decreases |actions|
  {
    if actions != [] {
      var w', rest := Step(w, env, actions[0]), actions[1..];
      StepTouches(w, env, actions[0]);
      TerminalStep(w.db, w'.db, actions[0], i);
      StepKept(w, env, actions[0]);
      if i in w'.db.jobs {
        TerminalUnlinked(w', env, rest, i);
        assert forall a :: a in actions <==> a == actions[0] || a in rest;
        assert actions[0] in [actions[0]];
      } else {
        NoneReturnsAlong(w', env, rest, i);
      }
    }
  }

  // ----- the guarantee -----

  /**
   Any number of schedulers, interleaved anyhow and advancing as late as they like, and clients
   that use any keys at all: at no time does the table hold two jobs materialised for one
   occurrence.
   */
  lemma OneJobPerOccurrence(env: Env, actions: seq<Action>, i: Id, j: Id)
    requires var w := Steps(START, env, actions);
      i in w.db.jobs && j in w.db.jobs && i in w.made && j in w.made && w.made[i] == w.made[j]
    ensures i == j
  {
    StepsKeep(START, env, actions);
    var w := Steps(START, env, actions);
    assert Tagged(w, env, i) && Tagged(w, env, j);
    assert SameIdempotency(w.db.jobs[i], w.db.jobs[j]);
  }

  ghost predicate HoldsKey(jobs: map<Id, Row>, queue: string, key: string) {
    exists i :: i in jobs && jobs[i].queue == queue && jobs[i].idempotencyKey == Some(key)
  }

  lemma MaterialisedExactly(jobs: map<Id, Row>, d: Due, iso: Millis -> string, now: Time)
    ensures Materialised(jobs, d, iso, now) <==> HoldsKey(jobs, d.queue, OccurrenceKey(iso, d.id, d.planned))
  {
    var r := FreshRow(OccurrenceJob(d, iso), now);
    forall i | i in jobs
      ensures SameIdempotency(r, jobs[i])
         <==> jobs[i].queue == d.queue && jobs[i].idempotencyKey == Some(OccurrenceKey(iso, d.id, d.planned))
    {
    }
  }

  /**
   A scheduler processing an occurrence creates a job exactly when the expression still has a
   next occurrence, the catch-up rule lets it fire, its schedule still exists and nobody in its
   queue, client or scheduler, holds the occurrence's key.
   */
  lemma FiresExactly(w: SWorld, env: Env, p: nat, now: Time)
    requires SInv(w, env) && Ready(w, p)
    ensures var d, clock, w' := ProcOf(w, p).todo[0], ProcOf(w, p).read.value, Step(w, env, Fire(p, now));
      w'.db.jobs != w.db.jobs <==>
        && env.cal.next(d.cron, clock).Some?
        && ShouldFire(d.catchup, d.planned, clock)
        && d.id in w.schedules
        && !HoldsKey(w.db.jobs, d.queue, OccurrenceKey(env.iso, d.id, d.planned))
    ensures var d, clock, w' := ProcOf(w, p).todo[0], ProcOf(w, p).read.value, Step(w, env, Fire(p, now));
      if w'.db.jobs != w.db.jobs then
        && w'.db.jobs == w.db.jobs[w.db.nextId := FreshRow(OccurrenceJob(d, env.iso), now)]
        && w'.made == w.made[w.db.nextId := (d.id, d.planned)]
        && w'.procs[p].move == Some(Move(d.id, env.cal.next(d.cron, clock).value, Some(w.db.nextId)))
      else w'.made == w.made
  {
    var d, clock := ProcOf(w, p).todo[0], ProcOf(w, p).read.value;
    if env.cal.next(d.cron, clock).Some? && ShouldFire(d.catchup, d.planned, clock) {
      MaterialisedExactly(w.db.jobs, d, env.iso, now);
      OccurrenceInserted(w.db, d, env.iso, now);
      assert w.db.nextId !in w.db.jobs;
    }
  }

  // ----- clients that keep away from the sched: form -----

  predicate ClientKeys(a: Action) {
    a.Client? && a.event.stmt.Insert? ==>
      forall j | j in a.event.stmt.batch :: j.idempotencyKey.Some? ==> !(PREFIX <= j.idempotencyKey.value)
  }

  /** Only materialised jobs have keys of the occurrence form. */
  ghost predicate KeysApart(w: SWorld) {
    forall i | i in w.db.jobs && i !in w.made ::
      w.db.jobs[i].idempotencyKey.Some? ==> !(PREFIX <= w.db.jobs[i].idempotencyKey.value)
  }

  lemma ApartClient(w: SWorld, env: Env, e: Event)
    requires SInv(w, env) && KeysApart(w) && ClientKeys(Client(e))
    ensures KeysApart(w.(db := Apply(w.db, e.stmt, e.now)))
  {
    var jobs := Apply(w.db, e.stmt, e.now).jobs;
    forall i | i in jobs && i !in w.made
      ensures jobs[i].idempotencyKey.Some? ==> !(PREFIX <= jobs[i].idempotencyKey.value)
    {
      if i in w.db.jobs {
        RowAfter(w.db, e.stmt, e.now, i);
        KeysKept(w.db.jobs[i], e.stmt, e.now);
      } else {
        InsertAllSpec(w.db.jobs, w.db.nextId, e.stmt.batch, e.now);
        assert e.stmt.batch[i - w.db.nextId] in e.stmt.batch;
      }
    }
  }

  lemma ApartFire(w: SWorld, env: Env, w': SWorld, p: nat, d: Due, todo: seq<Due>, now: Time)
    requires KeysApart(w) && Fired(w, env, w', p, d, todo, now)
    ensures KeysApart(w')
  {
  }

  lemma ApartStep(w: SWorld, env: Env, a: Action)
    requires SInv(w, env) && KeysApart(w) && ClientKeys(a)
    ensures KeysApart(Step(w, env, a))
  {
    match a
    case Client(e) => ApartClient(w, env, e);
    case Fire(p, now) =>
      var proc := ProcOf(w, p);
      if Ready(w, p) {
        FireShape(w, env, p, proc.todo[0], proc.todo[1..], proc.read.value, now);
        ApartFire(w, env, Step(w, env, a), p, proc.todo[0], proc.todo[1..], now);
      }
    case Delete(i) => ApartDelete(w, env, i);
    case _ => assert Step(w, env, a).db == w.db && Step(w, env, a).made == w.made;
  }

  lemma ApartDelete(w: SWorld, env: Env, i: Id)
    requires KeysApart(w)
    ensures KeysApart(Step(w, env, Delete(i)))
  {
  }

  lemma {:induction false} ApartAlways(w: SWorld, env: Env, actions: seq<Action>)
    requires SInv(w, env) && KeysApart(w) && forall a | a in actions :: ClientKeys(a)
    ensures KeysApart(Steps(w, env, actions))
    decreases |actions|
  {
    if actions != [] {
      assert actions[0] in actions;
      ApartStep(w, env, actions[0]);
      StepKept(w, env, actions[0]);
      ApartAlways(Step(w, env, actions[0]), env, actions[1..]);
    }
  }

  /** Then a job whose key is an occurrence's was materialised for exactly that occurrence. */
  lemma KeyNamesOccurrence(env: Env, actions: seq<Action>, i: Id, s: Id, t: Millis)
    requires Injective(env.iso) && (forall a | a in actions :: ClientKeys(a)) && i in Steps(START, env, actions).db.jobs
    ensures var w := Steps(START, env, actions);
      w.db.jobs[i].idempotencyKey == Some(OccurrenceKey(env.iso, s, t)) <==> i in w.made && w.made[i] == (s, t)
  {
    StepsKeep(START, env, actions);
    ApartAlways(START, env, actions);
    var w := Steps(START, env, actions);
    assert Tagged(w, env, i);
    OccurrenceKeyInjective(env.iso, s, t, s, t);
    if i in w.made {
      OccurrenceKeyInjective(env.iso, s, t, w.made[i].0, w.made[i].1);
    }
  }

  /** The occurrence has a job in the table. */
  ghost predicate HasJob(w: SWorld, o: Occurrence) {
    exists i :: i in w.db.jobs && i in w.made && w.made[i] == o
  }

  /** And an occurrence's key is held exactly when the occurrence has a job. */
  lemma HeldMeansDone(w: SWorld, env: Env, s: Id, t: Millis)
    requires SInv(w, env) && KeysApart(w) && Injective(env.iso) && s in w.home
    ensures HoldsKey(w.db.jobs, w.home[s], OccurrenceKey(env.iso, s, t)) <==> HasJob(w, (s, t))
  {
    var key := OccurrenceKey(env.iso, s, t);
    OccurrenceKeyInjective(env.iso, s, t, s, t);
    if HoldsKey(w.db.jobs, w.home[s], key) {
      var i :| i in w.db.jobs && w.db.jobs[i].queue == w.home[s] && w.db.jobs[i].idempotencyKey == Some(key);
      assert Tagged(w, env, i);
      OccurrenceKeyInjective(env.iso, s, t, w.made[i].0, w.made[i].1);
    }
    if HasJob(w, (s, t)) {
      var i :| i in w.db.jobs && i in w.made && w.made[i] == (s, t);
      assert Tagged(w, env, i);
    }
  }

  // ----- beyond one table row -----

  /** claimDueSchedules does not advance next_run_at: a second scheduler gets the same occurrence. */
  lemma ClaimedTwice(w: SWorld, env: Env, p: nat, q: nat, i: Id, now: Time)
    requires p != q && ProcOf(w, p) == IDLE && ProcOf(w, q) == IDLE && i in w.schedules && IsDue(w.schedules[i], now)
    ensures var w' := Step(Step(w, env, ClaimDue(p, 1, [i], now)), env, ClaimDue(q, 1, [i], now));
      && ProcOf(w', p) == ProcOf(w', q) == Proc([DueRow(i, w.schedules[i])], None, None)
      && w' == w.(procs := w'.procs, schedules := w'.schedules) && w'.schedules.Keys == w.schedules.Keys
  {
    var w1 := Step(w, env, ClaimDue(p, 1, [i], now));
    var w2 := Step(w1, env, ClaimDue(q, 1, [i], now));
    assert ProcOf(w1, p).todo == [DueRow(i, w.schedules[i])];
    assert ProcOf(w2, q).todo == [DueRow(i, w.schedules[i])];
  }

  ghost predicate CanFire(w: SWorld, env: Env, p: nat, d: Due, clock: Millis) {
    && SInv(w, env)
    && ProcOf(w, p) == Proc([d], Some(clock), None)
    && env.cal.next(d.cron, clock).Some? && ShouldFire(d.catchup, d.planned, clock)
    && d.id in w.schedules && !HoldsKey(w.db.jobs, d.queue, OccurrenceKey(env.iso, d.id, d.planned))
  }

  function PurgeOf(d: Due, i: Id, now: Time): Action {
    Client(Event(Purge(d.queue, {Available}, 1, [i]), now))
  }

  /** The one new row, the advance owed for it and the record of what it is for. */
  lemma FiredOnce(w: SWorld, env: Env, p: nat, d: Due, clock: Millis, now: Time)
    requires CanFire(w, env, p, d, clock)
    ensures var i, w' := w.db.nextId, Step(w, env, Fire(p, now));
      && SInv(w', env) && i !in w.db.jobs && i !in w.made
      && w'.db == w.db.(jobs := w.db.jobs[i := FreshRow(OccurrenceJob(d, env.iso), now)], nextId := i + 1)
      && w' == w.(db := w'.db, made := w.made[i := (d.id, d.planned)], procs := w.procs[p := w'.procs[p]])
  {
    assert ProcOf(w, p).todo == [d];
    FiresExactly(w, env, p, now);
    StepKept(w, env, Fire(p, now));
    OccurrenceInserted(w.db, d, env.iso, now);
  }

  lemma FiredThenPurged(w: SWorld, env: Env, p: nat, q: nat, d: Due, clock: Millis, now: Time)
    requires p != q && CanFire(w, env, p, d, clock) && CanFire(w, env, q, d, clock)
    ensures var i, w1 := w.db.nextId, Step(w, env, Fire(p, now));
      && i in w1.made && w1.made[i] == (d.id, d.planned)
      && var w2 := Step(w1, env, PurgeOf(d, i, now));
         w2 == w1.(db := w2.db) && w2.db == w.db.(nextId := i + 1) && CanFire(w2, env, q, d, clock)
  {
    var i := w.db.nextId;
    var w1 := Step(w, env, Fire(p, now));
    FiredOnce(w, env, p, d, clock, now);
    RowPurged(w, env, w1, d, now);
    StepKept(w1, env, PurgeOf(d, i, now));
    StillFires(w, env, w1.(db := w.db.(nextId := i + 1)), p, q, d, clock);
  }

  lemma RowPurged(w: SWorld, env: Env, w1: SWorld, d: Due, now: Time)
    requires w.db.nextId !in w.db.jobs
    requires w1.db == w.db.(nextId := w.db.nextId + 1,
                            jobs := w.db.jobs[w.db.nextId := FreshRow(OccurrenceJob(d, env.iso), now)])
    ensures Step(w1, env, PurgeOf(d, w.db.nextId, now)) == w1.(db := w.db.(nextId := w.db.nextId + 1))
  {
    PurgedOne(w1.db, d.queue, w.db.nextId, now);
    assert w1.db.jobs - {w.db.nextId} == w.db.jobs;
  }

  /** Another scheduler's advance and a spent id leave a scheduler as able to fire as before. */
  lemma StillFires(w: SWorld, env: Env, w': SWorld, p: nat, q: nat, d: Due, clock: Millis)
    requires p != q && CanFire(w, env, q, d, clock) && SInv(w', env)
    requires w'.db.jobs == w.db.jobs && w'.schedules == w.schedules
    requires p in w'.procs && w'.procs == w.procs[p := w'.procs[p]]
    ensures CanFire(w', env, q, d, clock)
  {
  }

  /**
   The key protects an occurrence only while its row stays: when the row is purged between two
   schedulers that both hold the occurrence, the second creates the job again.
   */
  lemma RepeatsAfterPurge(w: SWorld, env: Env, p: nat, q: nat, d: Due, clock: Millis, now: Time)
    requires p != q && CanFire(w, env, p, d, clock) && CanFire(w, env, q, d, clock)
    ensures var i := w.db.nextId;
      var w3 := Steps(w, env, [Fire(p, now), PurgeOf(d, i, now), Fire(q, now)]);
      && i in w3.made && i + 1 in w3.made && w3.made[i] == w3.made[i + 1] == (d.id, d.planned)
  {
    var i := w.db.nextId;
    FiredThenPurged(w, env, p, q, d, clock, now);
    var w2 := Step(Step(w, env, Fire(p, now)), env, PurgeOf(d, i, now));
    FiresExactly(w2, env, q, now);
    ThreeSteps(w, env, Fire(p, now), PurgeOf(d, i, now), Fire(q, now));
  }

  /** A client's request that happens to use an occurrence's key, in its schedule's queue. */
  function Taking(d: Due, iso: Millis -> string, now: Time): Action {
    var key := OccurrenceKey(iso, d.id, d.planned);
    Client(Event(Insert([NewJob(d.queue, "client", 0, 5, 30, None, Some(key), None, None)]), now))
  }

  /** Such a request swallows the occurrence: the scheduler counts it as done and makes no job for it. */
  lemma ClientSuppresses(w: SWorld, env: Env, p: nat, d: Due, clock: Millis, now: Time)
    requires CanFire(w, env, p, d, clock)
    ensures var w' := Steps(w, env, [Taking(d, env.iso, now), Fire(p, now)]);
      && w'.made == w.made
      && ProcOf(w', p) == Proc([], None, Some(Move(d.id, env.cal.next(d.cron, clock).value, None)))
  {
    var take, fire := Taking(d, env.iso, now), Fire(p, now);
    var w1 := Step(w, env, take);
    MaterialisedExactly(w.db.jobs, d, env.iso, now);
    KeyTaken(w.db, d, env.iso, take.event.stmt.batch[0], now);
    assert w1 == w.(db := w1.db);
    FireFindsKey(w1, env, p, d, clock, now);
    assert [take, fire][1..] == [fire] && [fire][1..] == [];
    assert Steps(w, env, [take, fire]) == Steps(w1, env, [fire]) == Steps(Step(w1, env, fire), env, []);
  }

  lemma FireFindsKey(w: SWorld, env: Env, p: nat, d: Due, clock: Millis, now: Time)
    requires ProcOf(w, p) == Proc([d], Some(clock), None)
    requires env.cal.next(d.cron, clock).Some? && ShouldFire(d.catchup, d.planned, clock)
    requires HoldsKey(w.db.jobs, d.queue, OccurrenceKey(env.iso, d.id, d.planned))
    ensures var w' := Step(w, env, Fire(p, now));
      && w'.made == w.made
      && ProcOf(w', p) == Proc([], None, Some(Move(d.id, env.cal.next(d.cron, clock).value, None)))
  {
    MaterialisedExactly(w.db.jobs, d, env.iso, now);
    assert [d][1..] == [];
  }

  lemma KeyTaken(db: Db, d: Due, iso: Millis -> string, j: NewJob, now: Time)
    requires Insertable(j) && j.queue == d.queue && j.uniqueKey.None?
    requires j.idempotencyKey == Some(OccurrenceKey(iso, d.id, d.planned))
    requires IdsFresh(db) && !HoldsKey(db.jobs, d.queue, OccurrenceKey(iso, d.id, d.planned))
    ensures HoldsKey(Apply(db, Insert([j]), now).jobs, d.queue, OccurrenceKey(iso, d.id, d.planned))
  {
    var r := FreshRow(j, now);
    assert forall i | i in db.jobs :: !SameIdempotency(r, db.jobs[i]) && !SameActiveKey(r, db.jobs[i]);
    assert [j][1..] == [] && forall k | k in [j] :: k == j;
    var jobs := db.jobs[db.nextId := r];
    assert InsertAll(db.jobs, db.nextId, [j], now) == InsertAll(jobs, db.nextId + 1, [], now) == jobs;
    assert db.nextId in Apply(db, Insert([j]), now).jobs;
  }

  lemma ThreeSteps(w: SWorld, env: Env, a: Action, b: Action, c: Action)
    ensures Steps(w, env, [a, b, c]) == Step(Step(Step(w, env, a), env, b), env, c)
  {
    assert [a, b, c][1..] == [b, c] && [b, c][1..] == [c] && [c][1..] == [];
    assert Steps(Step(w, env, a), env, [b, c]) == Steps(Step(Step(w, env, a), env, b), env, [c]);
  }

  lemma PurgedOne(db: Db, queue: string, i: Id, now: Time)
    requires i in db.jobs && db.jobs[i].queue == queue && db.jobs[i].state == Available
    ensures Apply(db, Purge(queue, {Available}, 1, [i]), now) == db.(jobs := db.jobs - {i})
  {
    assert Targets(db, Purge(queue, {Available}, 1, [i])) == {i};
  }
}
