/** One scheduler's tick as it is written, proved to be a run of the atomic scheduler steps. */
module Ticks {
  import opened Wrappers
  import opened Jobs
  import opened Statements
  import opened Selection
  import opened Occurrences
  import S = Scheduler
  import opened Claims
  import opened JobTable

  type Schedules = map<Id, S.Schedule>

  /** ORDER BY next_run_at over the due schedules. */
  function DueKeys(schedules: Schedules, now: Time): Keys {
    map i | i in schedules && S.IsDue(schedules[i], now) :: Key(schedules[i].nextRunAt, 0, 0)
  }

  /** The schedules that are enabled and due, with the time each is planned for. */
  function DueTimes(schedules: Schedules, now: Time): map<Id, int> {
    map i | i in schedules && schedules[i].enabled && schedules[i].nextRunAt * 1000 <= now :: schedules[i].nextRunAt
  }

  /** The clocks a tick reads: the scheduler's own, and the database's at each insert. */
  datatype Clocks = Clocks(local: nat -> Millis, db: nat -> Time)

  /** Read the clock, fire and advance, row after row. */
  function RowSteps(k: nat, clocks: Clocks): seq<S.Action> {
    if k == 0 then []
    else RowSteps(k - 1, clocks) + [S.Read(0, clocks.local(k - 1)), S.Fire(0, clocks.db(k - 1)), S.Advance(0)]
  }

  function AfterRow(w: S.SWorld, env: S.Env, clocks: Clocks, k: nat): S.SWorld {
    S.Step(S.Step(S.Step(w, env, S.Read(0, clocks.local(k))), env, S.Fire(0, clocks.db(k))), env, S.Advance(0))
  }

  lemma OneMoreRow(w: S.SWorld, env: S.Env, clocks: Clocks, k: nat)
    ensures S.Steps(w, env, RowSteps(k + 1, clocks)) == AfterRow(S.Steps(w, env, RowSteps(k, clocks)), env, clocks, k)
  {
    var read, fire, advance := S.Read(0, clocks.local(k)), S.Fire(0, clocks.db(k)), S.Advance(0);
    assert RowSteps(k + 1, clocks) == RowSteps(k, clocks) + [read, fire, advance];
    S.StepsAppend(w, env, RowSteps(k, clocks), [read, fire, advance]);
    S.ThreeSteps(S.Steps(w, env, RowSteps(k, clocks)), env, read, fire, advance);
  }

  /** What a row inserts: nothing when it does not fire. */
  predicate Attempts(env: S.Env, d: S.Due, clock: Millis) {
    env.cal.next(d.cron, clock).Some? && ShouldFire(d.catchup, d.planned, clock)
  }

  function DbAfter(db: Db, env: S.Env, d: S.Due, clock: Millis, now: Time): Db {
    if Attempts(env, d, clock) then Apply(db, Insert([S.OccurrenceJob(d, env.iso)]), now) else db
  }

  function JobFor(db: Db, env: S.Env, d: S.Due, clock: Millis, now: Time): Option<Id> {
    if Attempts(env, d, clock) && !S.Materialised(db.jobs, d, env.iso, now) then Some(db.nextId) else None
  }

  function Advanced(schedules: Schedules, i: Id, next: Millis, job: Option<Id>): Schedules {
    if i !in schedules then schedules
    else
      schedules[i := schedules[i].(
        nextRunAt := next, lastJobId := if job.Some? then job else schedules[i].lastJobId)]
  }

  lemma RowFired(w: S.SWorld, env: S.Env, clock: Millis, now: Time, d: S.Due, todo: seq<S.Due>)
    requires d.id in w.schedules
    ensures var w', job := S.FireRow(w, env, 0, d, todo, clock, now), JobFor(w.db, env, d, clock, now);
      && w'.procs == w.procs[0 := S.Proc(todo, None, Some(S.Move(d.id, MoveTo(env.cal, d.cron, clock), job)))]
      && w'.db == DbAfter(w.db, env, d, clock, now)
      && w'.schedules == w.schedules
      && w'.made == if job.Some? then w.made[job.value := (d.id, d.planned)] else w.made
  {
    if Attempts(env, d, clock) {
      RowAttempted(w, env, clock, now, d, todo);
    }
  }

  lemma RowAttempted(w: S.SWorld, env: S.Env, clock: Millis, now: Time, d: S.Due, todo: seq<S.Due>)
    requires d.id in w.schedules && Attempts(env, d, clock)
    ensures var w', job := S.FireRow(w, env, 0, d, todo, clock, now), JobFor(w.db, env, d, clock, now);
      && w'.procs == w.procs[0 := S.Proc(todo, None, Some(S.Move(d.id, MoveTo(env.cal, d.cron, clock), job)))]
      && w'.db == DbAfter(w.db, env, d, clock, now)
      && w'.schedules == w.schedules
      && w'.made == if job.Some? then w.made[job.value := (d.id, d.planned)] else w.made
  {
  }

  lemma RowProcessed(w: S.SWorld, env: S.Env, clocks: Clocks, k: nat, d: S.Due)
    requires S.ProcOf(w, 0).read.None? && S.ProcOf(w, 0).move.None?
    requires S.ProcOf(w, 0).todo != [] && S.ProcOf(w, 0).todo[0] == d
    requires d.id in w.schedules
    ensures var clock, now, w' := clocks.local(k), clocks.db(k), AfterRow(w, env, clocks, k);
      var job := JobFor(w.db, env, d, clock, now);
      && S.ProcOf(w', 0) == S.Proc(S.ProcOf(w, 0).todo[1..], None, None)
      && w'.db == DbAfter(w.db, env, d, clock, now)
      && w'.schedules == Advanced(w.schedules, d.id, MoveTo(env.cal, d.cron, clock), job)
      && w'.made == if job.Some? then w.made[job.value := (d.id, d.planned)] else w.made
  {
    RowFired(S.Step(w, env, S.Read(0, clocks.local(k))), env, clocks.local(k), clocks.db(k), d,
             S.ProcOf(w, 0).todo[1..]);
  }

  lemma RowKept(w: S.SWorld, env: S.Env, clocks: Clocks, k: nat)
    requires S.SInv(w, env)
    ensures S.SInv(AfterRow(w, env, clocks, k), env)
  {
    var w1 := S.Step(w, env, S.Read(0, clocks.local(k)));
    S.StepKept(w, env, S.Read(0, clocks.local(k)));
    S.StepKept(w1, env, S.Fire(0, clocks.db(k)));
    S.StepKept(S.Step(w1, env, S.Fire(0, clocks.db(k))), env, S.Advance(0));
  }

  lemma InsertedOne(db: Db, d: S.Due, iso: Millis -> string, now: Time)
    ensures Insertable(S.OccurrenceJob(d, iso))
    ensures InsertedIds(db.jobs, db.nextId, [S.OccurrenceJob(d, iso)], now)
         == [if S.Materialised(db.jobs, d, iso, now) then None else Some(db.nextId)]
  {
    var j := S.OccurrenceJob(d, iso);
    assert [j][1..] == [];
    assert InsertedIds(map[], 0, [], now) == [];
  }

  /** How many of the first `k` rows try to insert their occurrence. */
  function Attempted(env: S.Env, due: seq<S.Due>, clocks: Clocks, k: nat): nat
    requires k <= |due|
  {
    if k == 0 then 0
    else Attempted(env, due, clocks, k - 1) + if Attempts(env, due[k - 1], clocks.local(k - 1)) then 1 else 0
  }

  predicate Listed(due: seq<S.Due>, i: Id) {
    exists k :: 0 <= k < |due| && due[k].id == i
  }

  /** Every listed schedule was moved past the clock it was read at; no other was touched. */
  ghost predicate Moved(before: Schedules, after: Schedules, cal: Calendar, due: seq<S.Due>, clocks: Clocks) {
    && after.Keys == before.Keys
    && (forall k | 0 <= k < |due| :: due[k].id in after
          && after[due[k].id].nextRunAt == MoveTo(cal, due[k].cron, clocks.local(k)))
    && (forall i | i in after && !Listed(due, i) :: after[i] == before[i])
  }

  /** The claim touches the rows it returns and no other schedule. */
  ghost predicate Touched(before: Schedules, after: Schedules, due: seq<S.Due>) {
    && after.Keys == before.Keys
    && (forall k | 0 <= k < |due| :: due[k].id in after)
    && (forall i | i in after && !Listed(due, i) :: after[i] == before[i])
  }

  lemma NotListedBefore(due: seq<S.Due>, k: nat, i: Id)
    requires k < |due| && !Listed(due[..k + 1], i)
    ensures !Listed(due[..k], i) && due[k].id != i
  {
    assert due[..k + 1][k] == due[k];
    assert forall j | 0 <= j < k :: due[..k][j].id == due[..k + 1][j].id != i;
  }

  lemma MovedMore(before: Schedules, mid: Schedules, cal: Calendar, due: seq<S.Due>, clocks: Clocks, k: nat,
                  job: Option<Id>)
    requires k < |due| && S.OneRowEach(due) && Moved(before, mid, cal, due[..k], clocks) && due[k].id in mid
    ensures var after := Advanced(mid, due[k].id, MoveTo(cal, due[k].cron, clocks.local(k)), job);
      Moved(before, after, cal, due[..k + 1], clocks)
  {
    var after := Advanced(mid, due[k].id, MoveTo(cal, due[k].cron, clocks.local(k)), job);
    assert due[..k + 1][k] == due[k];
    forall j | 0 <= j < k ensures due[..k + 1][j] == due[..k][j] && due[j].id != due[k].id {}
    forall i | i in after && !Listed(due[..k + 1], i) ensures after[i] == before[i] {
      NotListedBefore(due, k, i);
    }
  }

  class Scheduler {
    const table: Table
    const env: S.Env
    var schedules: Schedules
    ghost var world: S.SWorld

    ghost predicate Mirrors()
      reads this, table
    {
      table.Valid() && world.db == table.Contents() && world.schedules == schedules && S.SInv(world, env)
    }

    ghost predicate Valid()
      reads this, table
    {
      Mirrors() && S.ProcOf(world, 0) == S.IDLE
    }

    constructor (table: Table, env: S.Env)
      requires table.Valid() && table.Contents() == EMPTY
      ensures Valid() && this.table == table && this.env == env && world == S.START
    {
      this.table, this.env := table, env;
      schedules, world := map[], S.START;
    }

    /** The UPDATE of the locked rows, and what it returns. */
    method MarkClaimed(ids: seq<Id>, limit: nat, now: Time) returns (due: seq<S.Due>)
      requires Valid() && S.CanClaim(world, 0, limit, ids, now)
      modifies this
      ensures RowsOf(due, ids, old(schedules)) && world == S.Step(old(world), env, S.ClaimDue(0, limit, ids, now))
      ensures schedules.Keys == old(schedules).Keys
      ensures forall i | i in schedules && i !in ids :: schedules[i] == old(schedules)[i]
      ensures Mirrors() && S.ProcOf(world, 0) == S.Proc(due, None, None)
    {
      S.StepKept(world, env, S.ClaimDue(0, limit, ids, now));
      world := S.Step(world, env, S.ClaimDue(0, limit, ids, now));
      assert forall k | 0 <= k < |ids| :: ids[k] in ids;
      var rows := schedules;
      due := seq(|ids|, k requires 0 <= k < |ids| => S.DueRow(ids[k], rows[ids[k]]));
      schedules := map i | i in schedules ::
        if i in ids then schedules[i].(lastRunAt := Some(schedules[i].nextRunAt)) else schedules[i];
    }

    method ClaimDueSchedules(limit: nat, now: Time) returns (due: seq<S.Due>, ghost picks: seq<Id>)
      requires Valid()
      modifies this
      ensures TakesEarliest(picks, DueTimes(old(schedules), now), limit)
      ensures IsFirst(picks, DueKeys(old(schedules), now), limit)
      ensures RowsOf(due, picks, old(schedules)) && S.OneRowEach(due)
      ensures Touched(old(schedules), schedules, due)
      ensures world == S.Step(old(world), env, S.ClaimDue(0, limit, picks, now))
      ensures Mirrors() && S.ProcOf(world, 0) == S.Proc(due, None, None)
    {
      var ids := FirstInOrder(DueKeys(schedules, now), limit);
      picks := ids;
      EarliestTaken(picks, DueKeys(schedules, now), DueTimes(schedules, now), limit);
      due := MarkClaimed(ids, limit, now);
      ClaimedRows(old(schedules), picks, due, now, limit);
    }

    method AdvanceSchedule(i: Id, next: Millis, job: Option<Id>)
      modifies this`schedules
      ensures schedules == Advanced(old(schedules), i, next, job)
      ensures i in old(schedules) ==>
        var s := old(schedules)[i];
        schedules == old(schedules)[i :=
          S.Schedule(s.queue, s.kind, s.cron, s.catchup, s.enabled, next, s.lastRunAt,
                     if job.Some? then job else s.lastJobId)]
      ensures i !in old(schedules) ==> schedules == old(schedules)
    {
      if i in schedules {
        var s := schedules[i].(nextRunAt := next);
        if job.Some? {
          s := s.(lastJobId := job);
        }
        schedules := schedules[i := s];
      }
    }

    /** The body of the loop for one row: the new job if this insert made it. */
    method ProcessRow(d: S.Due, clocks: Clocks, k: nat) returns (attempted: bool, job: Option<Id>)
      requires Mirrors() && S.ProcOf(world, 0).read.None? && S.ProcOf(world, 0).move.None?
      requires S.ProcOf(world, 0).todo != [] && S.ProcOf(world, 0).todo[0] == d
      requires d.id in schedules
      modifies this, table`jobs, table`nextId
      ensures Mirrors() && world == AfterRow(old(world), env, clocks, k)
      ensures S.ProcOf(world, 0) == S.Proc(S.ProcOf(old(world), 0).todo[1..], None, None)
      ensures attempted <==> Attempts(env, d, clocks.local(k))
      ensures job.Some? ==> attempted
      ensures world.made == if job.Some? then old(world).made[job.value := (d.id, d.planned)] else old(world).made
      ensures job.Some? ==> job.value !in old(world).made
      ensures schedules == Advanced(old(schedules), d.id, MoveTo(env.cal, d.cron, clocks.local(k)), job)
    {
      var clock := clocks.local(k);
      RowProcessed(world, env, clocks, k, d);
      RowKept(world, env, clocks, k);
      ghost var world' := AfterRow(world, env, clocks, k);
      attempted, job := false, None;
      match env.cal.next(d.cron, clock) {
        case None =>
          AdvanceSchedule(d.id, clock + HOUR, None);
        case Some(next) =>
          if ShouldFire(d.catchup, d.planned, clock) {
            InsertedOne(table.Contents(), d, env.iso, clocks.db(k));
            var ids := table.InsertJobs([S.OccurrenceJob(d, env.iso)], clocks.db(k));
            attempted, job := true, ids.value[0];
          }
          AdvanceSchedule(d.id, next, job);
      }
      world := world';
    }

    /** The loop over the claimed rows, with its counters. */
    method ProcessRows(due: seq<S.Due>, clocks: Clocks) returns (created: nat, deduplicated: nat)
      requires Mirrors() && S.ProcOf(world, 0) == S.Proc(due, None, None)
      requires S.OneRowEach(due) && forall k | 0 <= k < |due| :: due[k].id in schedules
      modifies this, table`jobs, table`nextId
      ensures Valid() && world == S.Steps(old(world), env, RowSteps(|due|, clocks))
      ensures |world.made| == |old(world).made| + created
      ensures created + deduplicated == Attempted(env, due, clocks, |due|)
      ensures Moved(old(schedules), schedules, env.cal, due, clocks)
    {
      created, deduplicated := 0, 0;
      for k := 0 to |due|
        invariant Mirrors() && S.ProcOf(world, 0) == S.Proc(due[k..], None, None)
        invariant world == S.Steps(old(world), env, RowSteps(k, clocks))
        invariant |world.made| == |old(world).made| + created
        invariant created + deduplicated == Attempted(env, due, clocks, k)
        invariant Moved(old(schedules), schedules, env.cal, due[..k], clocks)
      {
        OneMoreRow(old(world), env, clocks, k);
        assert due[k..][0] == due[k] && due[k..][1..] == due[k + 1..];
        assert due[k].id in schedules.Keys;
        ghost var mid := schedules;
        var attempted, job := ProcessRow(due[k], clocks, k);
        MovedMore(old(schedules), mid, env.cal, due, clocks, k, job);
        if job.Some? {
          created := created + 1;
        } else if attempted {
          deduplicated := deduplicated + 1;
        }
      }
      assert due[..|due|] == due;
    }

    /**
     A tick nobody disturbs. It is exactly the steps claim, then read, fire and advance for each row;
     its counters are the jobs it made and the inserts that found their job already there; and
     every schedule it processed is moved to its next occurrence after the clock it was read at.
     */
    method Tick(batchMax: nat, now: Time, clocks: Clocks)
      returns (processed: nat, created: nat, deduplicated: nat, ghost picks: seq<Id>, ghost due: seq<S.Due>)
      requires Valid()
      modifies this, table`jobs, table`nextId
      ensures Valid()
      ensures TakesEarliest(picks, DueTimes(old(schedules), now), batchMax)
      ensures IsFirst(picks, DueKeys(old(schedules), now), batchMax) && processed == |due|
      ensures RowsOf(due, picks, old(schedules))
      ensures world
        == S.Steps(S.Step(old(world), env, S.ClaimDue(0, batchMax, picks, now)), env, RowSteps(processed, clocks))
      ensures |world.made| == |old(world).made| + created
      ensures created + deduplicated == Attempted(env, due, clocks, processed)
      ensures Moved(old(schedules), schedules, env.cal, due, clocks)
    {
      var rows;
      rows, picks := ClaimDueSchedules(batchMax, now);
      due := rows;
      ghost var claimed := schedules;
      processed := |rows|;
      created, deduplicated := ProcessRows(rows, clocks);
      MovedFromStart(old(schedules), claimed, schedules, env.cal, due, clocks);
    }
  }

  ghost predicate RowsOf(due: seq<S.Due>, picks: seq<Id>, schedules: Schedules) {
    && |due| == |picks|
    && forall k | 0 <= k < |due| :: picks[k] in schedules && due[k] == S.DueRow(picks[k], schedules[picks[k]])
  }

  lemma ClaimedRows(schedules: Schedules, picks: seq<Id>, due: seq<S.Due>, now: Time, limit: nat)
    requires IsFirst(picks, DueKeys(schedules, now), limit) && RowsOf(due, picks, schedules)
    ensures S.OneRowEach(due) && forall k | 0 <= k < |due| :: due[k].id in schedules
    ensures forall i | i !in picks :: !Listed(due, i)
    ensures forall i | i in picks :: Listed(due, i)
  {
    forall i | i in picks ensures Listed(due, i) {
      var k :| 0 <= k < |picks| && picks[k] == i;
      assert due[k].id == i;
    }
  }

  lemma MovedFromStart(start: Schedules, claimed: Schedules, after: Schedules, cal: Calendar, due: seq<S.Due>,
                       clocks: Clocks)
    requires Touched(start, claimed, due) && Moved(claimed, after, cal, due, clocks)
    ensures Moved(start, after, cal, due, clocks)
  {
  }
}
