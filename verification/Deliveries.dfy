/**
 What the ownership fence and the attempt counter guarantee over whole runs.
 */
module Deliveries {
  import opened Wrappers
  import opened Jobs
  import opened Statements
  import opened History

  /** The fence the holder of delivery `k` of job `i` reports with. */
  function FenceOf(w: World, i: Id, k: nat): Fence
    requires i in w.past && k < |w.past[i].deliveries|
  {
    var d := w.past[i].deliveries[k];
    Fence(i, d.worker, d.attempt)
  }

  /** Delivery `k` is the one the row is running for. */
  predicate Current(w: World, i: Id, k: nat)
    requires i in w.past && k < |w.past[i].deliveries|
  {
    k == |w.past[i].deliveries| - 1 && w.past[i].deliveries[k].close.None?
  }

  /** An earlier delivery whose worker and attempt the current one repeats, after a replay. */
  predicate Impersonates(w: World, i: Id, k: nat)
    requires i in w.past && k < |w.past[i].deliveries|
  {
    var d, now := w.past[i].deliveries[k], Last(w.past[i]);
    now.close.None? && d.epoch < now.epoch && d.worker == now.worker && d.attempt == now.attempt
  }

  /**
   The fence, exactly: the holder of delivery k passes it if and only if k is the current
   delivery, or the same worker was given the same attempt number again after a replay.
   */
  lemma FenceExact(es: seq<Event>, i: Id, k: nat)
    requires var w := Run(START, es); i in w.db.jobs && i in w.past && k < |w.past[i].deliveries|
    ensures var w := Run(START, es);
      Owns(w.db.jobs[i], FenceOf(w, i, k)) <==> Current(w, i, k) || Impersonates(w, i, k)
  {
    Reachable(es);
    var w := Run(START, es);
    var d := w.past[i].deliveries;
    assert RowInv(w.db.jobs[i], w.past[i]);
    if k < |d| - 1 {
      assert Earlier(d[k], d[|d| - 1]);
    }
  }

  /** At most one delivery of a job is open, and then the row is running for it. */
  lemma SingleHolder(es: seq<Event>, i: Id, j: nat, k: nat)
    requires var w := Run(START, es);
      && i in w.past && j < |w.past[i].deliveries| && k < |w.past[i].deliveries|
      && w.past[i].deliveries[j].close.None? && w.past[i].deliveries[k].close.None?
    ensures var w := Run(START, es);
      j == k && i in w.db.jobs && Owns(w.db.jobs[i], FenceOf(w, i, k))
  {
    Reachable(es);
    var w := Run(START, es);
    assert i in w.db.jobs;
    assert RowInv(w.db.jobs[i], w.past[i]);
  }

  /** Within one replay epoch no report of a delivery that is over has any effect. */
  lemma StaleReportIgnored(es: seq<Event>, i: Id, k: nat, report: Report, now: Time)
    requires var w := Run(START, es);
      && i in w.past && k < |w.past[i].deliveries|
      && w.past[i].deliveries[k].epoch == w.past[i].epoch && !Current(w, i, k)
    ensures var w := Run(START, es);
      Next(w, Event(Send(FenceOf(w, i, k), report), now)) == w
  {
    Reachable(es);
    var w := Run(START, es);
    var s := Send(FenceOf(w, i, k), report);
    if i in w.db.jobs {
      FenceExact(es, i, k);
      assert RowInv(w.db.jobs[i], w.past[i]);
    }
    assert Targets(w.db, s) == {};
    assert UpdateRows(w.db.jobs, {}, s, now) == w.db.jobs;
  }

  function CloseOf(report: Report): Option<Close> {
    match report
    case Complete => Some(BySuccess)
    case Fail(_, _, _, _) => Some(ByFailure)
    case Heartbeat(_) => None
    case AckCancel => Some(ByAck)
    case Release => Some(ByRelease)
  }

  /** A report that passes ends the open delivery, and only that one; a heartbeat leaves it open. */
  lemma AcceptedReportCloses(es: seq<Event>, f: Fence, report: Report, now: Time)
    requires var w := Run(START, es); f.id in w.db.jobs && ReportGuard(w.db.jobs[f.id], f, report)
    ensures var w, w' := Run(START, es), Next(Run(START, es), Event(Send(f, report), now));
      && f.id in w.past && f.id in w'.past && w.past[f.id].deliveries != []
      && w'.db == w.db.(jobs := w.db.jobs[f.id := SetReport(w.db.jobs[f.id], report, now)])
      && var d, last := w.past[f.id].deliveries, |w.past[f.id].deliveries| - 1;
      && d[last].close == None && d[last].attempt == f.attempt && d[last].worker == f.worker
      && w'.past[f.id].deliveries == d[last := d[last].(close := CloseOf(report))]
      && forall i | i in w.past && i != f.id :: i in w'.past && w'.past[i] == w.past[i]
  {
    Reachable(es);
    var w := Run(START, es);
    assert RowInv(w.db.jobs[f.id], w.past[f.id]);
    ReachableRows(w);
    AcceptedNext(w, f, report, now);
    ClosedLast(w.past[f.id], w.db.jobs[f.id], f, report, now);
  }

  lemma AcceptedNext(w: World, f: Fence, report: Report, now: Time)
    requires Healthy(w.db) && w.db.jobs.Keys <= w.past.Keys
    requires f.id in w.db.jobs && ReportGuard(w.db.jobs[f.id], f, report)
    ensures var r, w' := w.db.jobs[f.id], Next(w, Event(Send(f, report), now));
      && w'.db == w.db.(jobs := w.db.jobs[f.id := SetReport(r, report, now)])
      && w'.past == w.past[f.id := LogRow(w.past[f.id], r, Send(f, report), now)]
  {
    var s := Send(f, report);
    Reported(w.db, f, report, now);
    NeverRejected(w.db, s, now);
    assert Targets(w.db, s) == {f.id};
    assert Exec(w.db, s, now) == Ok(Apply(w.db, s, now));
  }

  lemma ClosedLast(h: Past, r: Row, f: Fence, report: Report, now: Time)
    requires h.deliveries != [] && Last(h).close.None?
    ensures var d, last := h.deliveries, |h.deliveries| - 1;
      LogRow(h, r, Send(f, report), now).deliveries == d[last := d[last].(close := CloseOf(report))]
  {
  }

  // ----- the report the fence lets through -----

  const WORKER := "w"
  const ONE_SHOT := NewJob("q", "t", 0, 1, 30, None, None, None, None)

  /** A one-attempt job is claimed, expires, is replayed and claimed again by the same worker. */
  const INSERTED := Event(Insert([ONE_SHOT]), 0)
  const CLAIMED := Event(Claim("q", 1, WORKER, [1]), 0)
  const REAPED := Event(Reap(1, 0, [1]), 31 * SECOND)
  const REVIVED := Event(Operate([1], Replay), 32 * SECOND)
  const RECLAIMED := Event(Claim("q", 1, WORKER, [1]), 33 * SECOND)
  const REPLAYED: seq<Event> := [INSERTED, CLAIMED, REAPED, REVIVED, RECLAIMED]

  function Alone(r: Row, h: Past): World {
    World(Db(map[1 := r], 2, map[], []), map[1 := h])
  }

  lemma NextAlone(r: Row, h: Past, e: Event)
    requires Updates(e.stmt) && Enabled(Alone(r, h).db, e.stmt, e.now)
    requires 1 in Targets(Alone(r, h).db, e.stmt) && Checked(SetRow(e.stmt, r, e.now))
    ensures Next(Alone(r, h), e) == Alone(SetRow(e.stmt, r, e.now), LogRow(h, r, e.stmt, e.now))
  {
    var w := Alone(r, h);
    var jobs := UpdateRows(w.db.jobs, Targets(w.db, e.stmt), e.stmt, e.now);
    assert jobs == map[1 := SetRow(e.stmt, r, e.now)];
    assert Accepted(jobs);
    assert Next(w, e).past == map[1 := LogRow(h, r, e.stmt, e.now)];
  }

  function AfterEvent(r: Row, h: Past, e: Event): (Row, Past) {
    (SetRow(e.stmt, r, e.now), LogRow(h, r, e.stmt, e.now))
  }

  /** The row and its past after each event of the run. */
  const A0: (Row, Past) := (FreshRow(ONE_SHOT, 0), FreshPast(FreshRow(ONE_SHOT, 0)))
  const A1 := AfterEvent(A0.0, A0.1, CLAIMED)
  const A2 := AfterEvent(A1.0, A1.1, REAPED)
  const A3 := AfterEvent(A2.0, A2.1, REVIVED)
  const A4 := AfterEvent(A3.0, A3.1, RECLAIMED)

  lemma FirstInsert()
    ensures Next(START, INSERTED) == Alone(A0.0, A0.1)
  {
    assert InsertAll(map[], 1, [ONE_SHOT], 0) == map[1 := A0.0];
  }

  lemma FirstClaim()
    ensures Next(Alone(A0.0, A0.1), CLAIMED) == Alone(A1.0, A1.1)
  {
    NextAlone(A0.0, A0.1, CLAIMED);
  }

  lemma ThenReap()
    ensures Next(Alone(A1.0, A1.1), REAPED) == Alone(A2.0, A2.1)
  {
    NextAlone(A1.0, A1.1, REAPED);
  }

  lemma ThenReplay()
    ensures Next(Alone(A2.0, A2.1), REVIVED) == Alone(A3.0, A3.1)
  {
    NextAlone(A2.0, A2.1, REVIVED);
  }

  lemma ClaimAlone(r: Row, h: Past, queue: string, worker: string, now: Time)
    requires Checked(r) && Eligible(r, queue, false, now) && r.attempt < r.maxAttempts
    ensures var e := Event(Claim(queue, 1, worker, [1]), now);
      Next(Alone(r, h), e) == Alone(SetRow(e.stmt, r, now), LogRow(h, r, e.stmt, now))
  {
    NextAlone(r, h, Event(Claim(queue, 1, worker, [1]), now));
  }

  lemma RevivedRow()
    ensures A3.0.queue == "q" && A3.0.state == Available && A3.0.attempt == 0 && A3.0.maxAttempts == 1
    ensures A3.0.runAt == 32 * SECOND && Checked(A3.0)
  {
    assert A2.0.queue == "q" && A2.0.maxAttempts == 1 && A2.0.leaseSeconds == 30;
  }

  lemma SecondClaim()
    ensures Next(Alone(A3.0, A3.1), RECLAIMED) == Alone(A4.0, A4.1)
  {
    RevivedRow();
    ClaimAlone(A3.0, A3.1, "q", WORKER, 33 * SECOND);
  }

  lemma RunStep(w: World, e: Event, es: seq<Event>)
    ensures Run(w, [e] + es) == Run(Next(w, e), es)
  {
    assert ([e] + es)[1..] == es;
  }

  lemma FiveSteps(w0: World, w1: World, w2: World, w3: World, w4: World, w5: World,
                  a: Event, b: Event, c: Event, d: Event, e: Event)
    requires Next(w0, a) == w1 && Next(w1, b) == w2 && Next(w2, c) == w3 && Next(w3, d) == w4 && Next(w4, e) == w5
    ensures Run(w0, [a, b, c, d, e]) == w5
  {
    assert [a, b, c, d, e] == [a] + [b, c, d, e] && [b, c, d, e] == [b] + [c, d, e];
    assert [c, d, e] == [c] + [d, e] && [d, e] == [d] + [e] && [e] == [e] + [];
    RunStep(w0, a, [b, c, d, e]);
    RunStep(w1, b, [c, d, e]);
    RunStep(w2, c, [d, e]);
    RunStep(w3, d, [e]);
    RunStep(w4, e, []);
  }

  lemma ReplayedRun()
    ensures Run(START, REPLAYED) == Alone(A4.0, A4.1)
  {
    FirstInsert();
    FirstClaim();
    ThenReap();
    ThenReplay();
    SecondClaim();
    FiveSteps(START, Alone(A0.0, A0.1), Alone(A1.0, A1.1), Alone(A2.0, A2.1), Alone(A3.0, A3.1), Alone(A4.0, A4.1),
              INSERTED, CLAIMED, REAPED, REVIVED, RECLAIMED);
  }

  lemma OneDelivery()
    ensures A1.1.deliveries == [Delivery(0, 1, WORKER, None)] && A1.1.epoch == 0
    ensures A1.0.attempt == A1.0.maxAttempts == 1
  {
  }

  lemma ReapedDelivery()
    ensures A2.1.deliveries == [Delivery(0, 1, WORKER, Some(ByReap))] && A2.1.epoch == 0 && A2.0.maxAttempts == 1
  {
    OneDelivery();
    var h := A1.1;
    assert CloseLast(h, ByReap).deliveries == [Delivery(0, 1, WORKER, Some(ByReap))];
  }

  lemma TwoDeliveries()
    ensures A4.1.deliveries == [Delivery(0, 1, WORKER, Some(ByReap)), Delivery(1, 1, WORKER, None)]
    ensures Owns(A4.0, Fence(1, WORKER, 1)) && A4.0.maxAttempts == 1 && A4.0.leaseSeconds == 30
  {
    ReapedDelivery();
    assert A3.1.deliveries == A2.1.deliveries && A3.1.epoch == 1 && A3.0.attempt == 0;
    assert A4.1.deliveries == A3.1.deliveries + [Delivery(1, 1, WORKER, None)];
  }

  /** The first delivery, long dead, then completes the job the second one is still running. */
  lemma ReplayAdmitsStaleReport()
    ensures var w := Run(START, REPLAYED);
      && 1 in w.db.jobs && 1 in w.past && |w.past[1].deliveries| == 2
      && w.past[1].deliveries[0].close == Some(ByReap)
      && Current(w, 1, 1) && Impersonates(w, 1, 0)
      && var w' := Next(w, Event(Send(FenceOf(w, 1, 0), Complete), 34 * SECOND));
         1 in w'.db.jobs && w'.db.jobs[1].state == Succeeded
         && 1 in w'.past && Last(w'.past[1]).close == Some(BySuccess)
  {
    ReplayedRun();
    TwoDeliveries();
    StaleCompletes(A4.0, A4.1, Fence(1, WORKER, 1), 34 * SECOND);
  }

  lemma StaleCompletes(r: Row, h: Past, f: Fence, now: Time)
    requires f.id == 1 && Owns(r, f) && Checked(r) && h.deliveries != []
    ensures var w' := Next(Alone(r, h), Event(Send(f, Complete), now));
      && 1 in w'.db.jobs && w'.db.jobs[1].state == Succeeded
      && 1 in w'.past && Last(w'.past[1]).close == Some(BySuccess)
  {
    NextAlone(r, h, Event(Send(f, Complete), now));
  }

  // ----- delivery accounting -----

  /** attempt is the number of claims since insertion or the last replay. */
  lemma AttemptCountsClaims(es: seq<Event>, i: Id)
    requires i in Run(START, es).db.jobs
    ensures var w := Run(START, es);
      i in w.past && w.db.jobs[i].attempt == ClaimsIn(w.past[i].deliveries, w.past[i].epoch)
  {
    Reachable(es);
    var w := Run(START, es);
    assert RowInv(w.db.jobs[i], w.past[i]);
  }

  /** No job, present or removed, is ever delivered more often than its budget allows. */
  lemma DeliveryBudget(es: seq<Event>, i: Id)
    requires i in Run(START, es).past
    ensures var h := Run(START, es).past[i];
      |h.deliveries| <= h.maxAttempts * (1 + h.epoch)
  {
    Reachable(es);
    var w := Run(START, es);
    if i in w.db.jobs {
      assert RowInv(w.db.jobs[i], w.past[i]);
      WithinBudget(w.db.jobs[i], w.past[i]);
    }
  }

  lemma WithinBudget(r: Row, h: Past)
    requires Checked(r) && Counted(r, h)
    ensures |h.deliveries| <= h.maxAttempts * (1 + h.epoch)
  {
    assert h.maxAttempts * (1 + h.epoch) == h.maxAttempts * h.epoch + h.maxAttempts;
  }

  /** `later` continues `earlier`: same deliveries in front, and whatever was closed stays so. */
  ghost predicate Continues(earlier: Past, later: Past) {
    && |earlier.deliveries| <= |later.deliveries|
    && earlier.epoch <= later.epoch
    && earlier.maxAttempts == later.maxAttempts
    && (forall k | 0 <= k < |earlier.deliveries| ::
          var d, d' := earlier.deliveries[k], later.deliveries[k];
          d'.(close := None) == d.(close := None) && (d.close.Some? ==> d' == d))
    && (earlier.gone.Some? ==> later == earlier)
    && earlier.failures <= later.failures
  }

  lemma RowContinues(r: Row, h: Past, s: Stmt, now: Time)
    requires RowInv(r, h) && Acts(s, r, now)
    ensures Continues(h, LogRow(h, r, s, now))
  {
  }

  lemma StepContinues(w: World, e: Event, i: Id)
    requires Inv(w) && i in w.past
    ensures i in Next(w, e).past && Continues(w.past[i], Next(w, e).past[i])
  {
    if Enabled(w.db, e.stmt, e.now) {
      if i in Targets(w.db, e.stmt) {
        TargetsAct(w.db, e.stmt, e.now, i);
        RowContinues(w.db.jobs[i], w.past[i], e.stmt, e.now);
      }
      assert Next(w, e).past[i] == w.past[i] || i in Targets(w.db, e.stmt);
    }
  }

  /** Every delivery is closed at most once, and nothing in a job's past is rewritten. */
  lemma {:induction false} ClosedOnce(w: World, es: seq<Event>, i: Id)
    requires Inv(w) && i in w.past
    ensures i in Run(w, es).past && Continues(w.past[i], Run(w, es).past[i])
    decreases |es|
  {
    if es != [] {
      StepContinues(w, es[0], i);
      StepKept(w, es[0]);
      ClosedOnce(Next(w, es[0]), es[1..], i);
    }
  }

  /**
   An available row has attempts left, except after a release on the final attempt; and the
   state records how the last delivery ended.
   */
  lemma ExhaustedAvailable(es: seq<Event>, i: Id)
    requires i in Run(START, es).db.jobs
    ensures var w := Run(START, es); var r := w.db.jobs[i];
      && i in w.past
      && var last := Last(w.past[i]);
      && (r.state == Available ==>
            (r.attempt == r.maxAttempts <==>
               w.past[i].deliveries != [] && last.epoch == w.past[i].epoch
               && last.attempt == r.maxAttempts && last.close == Some(ByRelease)))
      && (r.state == Succeeded <==> w.past[i].deliveries != [] && last.close == Some(BySuccess))
      && (r.deadReason == Some(LeaseExpired) <==> r.state == Dead && last.close == Some(ByReap))
  {
    Reachable(es);
    var w := Run(START, es);
    assert RowInv(w.db.jobs[i], w.past[i]);
  }

  const RELEASED := Event(Send(Fence(1, WORKER, 1), Release), SECOND)
  const AR := AfterEvent(A1.0, A1.1, RELEASED)

  lemma ThenRelease()
    ensures Next(Alone(A1.0, A1.1), RELEASED) == Alone(AR.0, AR.1)
  {
    NextAlone(A1.0, A1.1, RELEASED);
  }

  lemma ReleasedRow()
    ensures AR.0.queue == "q" && AR.0.state == Available && AR.0.attempt == AR.0.maxAttempts == 1
    ensures AR.0.runAt == SECOND
  {
    OneDelivery();
    assert A1.0.queue == "q";
  }

  /** One attempt, claimed and released: a run of three statements after which the job cannot be claimed. */
  lemma ReleaseExhausts(limit: nat, worker: string, now: Time)
    requires limit > 0 && now >= SECOND
    ensures var w := Run(START, [INSERTED, CLAIMED, RELEASED]); var claim := Claim("q", limit, worker, [1]);
      && w.db.jobs.Keys == {1} && w.db.jobs[1].state == Available && w.db.jobs[1].attempt == w.db.jobs[1].maxAttempts
      && Enabled(w.db, claim, now) && Exec(w.db, claim, now).Rejected?
  {
    FirstInsert();
    FirstClaim();
    ThenRelease();
    assert [INSERTED, CLAIMED, RELEASED] == [INSERTED] + [CLAIMED, RELEASED];
    assert [CLAIMED, RELEASED] == [CLAIMED] + [RELEASED] && [RELEASED] == [RELEASED] + [];
    RunStep(START, INSERTED, [CLAIMED, RELEASED]);
    RunStep(Alone(A0.0, A0.1), CLAIMED, [RELEASED]);
    RunStep(Alone(A1.0, A1.1), RELEASED, []);
    ReleasedRow();
    ClaimRejected(AR.0, AR.1, "q", limit, worker, now);
  }

  lemma ClaimRejected(r: Row, h: Past, queue: string, limit: nat, worker: string, now: Time)
    requires limit > 0 && Eligible(r, queue, false, now) && r.attempt == r.maxAttempts
    ensures var db, claim := Alone(r, h).db, Claim(queue, limit, worker, [1]);
      Enabled(db, claim, now) && Exec(db, claim, now).Rejected?
  {
    var db, claim := Alone(r, h).db, Claim(queue, limit, worker, [1]);
    assert 1 in claim.picks && db.jobs[1].attempt == db.jobs[1].maxAttempts;
    RejectedUpdate(db, claim, now);
  }

  /** Only an operator ends it: a cancel of the job, or a purge that takes it. */
  predicate Discards(s: Stmt, i: Id) {
    || (s.Operate? && s.admin.CancelAvailable? && i in s.ids)
    || (s.Purge? && i in s.picks)
  }

  predicate Spent(db: Db, i: Id) {
    i in db.jobs && db.jobs[i].state == Available && db.jobs[i].attempt == db.jobs[i].maxAttempts
  }

  lemma SpentStep(db: Db, s: Stmt, now: Time, i: Id)
    requires Sound(db) && Spent(db, i) && !Discards(s, i)
    ensures Spent(Apply(db, s, now), i)
    ensures s.Claim? && i in s.picks ==> Apply(db, s, now) == db
  {
    RowAfter(db, s, now, i);
    if s.Claim? && i in s.picks && Enabled(db, s, now) {
      RejectedUpdate(db, s, now);
    }
  }

  /**
   In every run that neither cancels nor purges it, the job stays available with no attempts
   left, and every claim that selects it changes nothing.
   */
  lemma {:induction false} SpentForever(db: Db, es: seq<Event>, i: Id)
    requires Sound(db) && Spent(db, i) && forall e | e in es :: !Discards(e.stmt, i)
    ensures Spent(Play(db, es), i)
    ensures forall s: Stmt, now | s.Claim? && i in s.picks :: Apply(Play(db, es), s, now) == Play(db, es)
    decreases |es|
  {
    if es == [] {
      forall s: Stmt, now | s.Claim? && i in s.picks ensures Apply(db, s, now) == db {
        SpentStep(db, s, now, i);
      }
    } else {
      SpentStep(db, es[0].stmt, es[0].now, i);
      ApplySound(db, es[0].stmt, es[0].now);
      SpentForever(Apply(db, es[0].stmt, es[0].now), es[1..], i);
    }
  }

  // ----- when the database rejects a statement -----

  /**
   In every reachable world the database rejects a statement in exactly three cases: a claim
   that selected a row released on its final attempt, a replay that would give a unique key
   two active rows, and an insert with a value out of range. (An insert for a schedule also has
   a foreign key to satisfy; only schedulers send those.)
   */
  lemma RejectedExactly(es: seq<Event>, s: Stmt, now: Time)
    requires Enabled(Run(START, es).db, s, now)
    ensures var db := Run(START, es).db;
      Exec(db, s, now).Rejected? <==>
        || ClaimsExhausted(db, s)
        || ReplayCollides(db, s)
        || (s.Insert? && exists j | j in s.batch :: !Insertable(j))
  {
    Reachable(es);
    var w := Run(START, es);
    ReachableRows(w);
    if Updates(s) {
      if ClaimsExhausted(w.db, s) || ReplayCollides(w.db, s) {
        RejectedUpdate(w.db, s, now);
      } else {
        UpdateFits(w.db, s, now);
      }
    }
  }

  lemma ReachableRows(w: World)
    requires Inv(w)
    ensures Sound(w.db) && forall i | i in w.db.jobs :: Consistent(w.db.jobs[i])
  {
    forall i | i in w.db.jobs ensures Checked(w.db.jobs[i]) && Consistent(w.db.jobs[i]) {
      assert RowInv(w.db.jobs[i], w.past[i]);
    }
  }
}
