/**
 Whole runs. A world is the database together with each job's past: every delivery it was
 ever claimed for, every failure recorded against it and how its row left the table. The
 past is written by the steps and never read by them.
 */
module History {
  import opened Wrappers
  import opened Jobs
  import opened Statements

  datatype Close = BySuccess | ByFailure | ByAck | ByRelease | ByReap | ByPurge

  datatype Delivery = Delivery(epoch: nat, attempt: int, worker: string, close: Option<Close>)

  datatype Failure = Failure(epoch: nat, error: ErrorRecord)

  datatype Removal = Purged | Pruned | Archived

  /**
   `epoch` counts replays; `floor` and `cap` are the smallest and largest history limits used;
   `retries` and `delayed` count the delayed retries of the current epoch and add up their delays.
   */
  datatype Past = Past(
    epoch: nat,
    maxAttempts: int,
    deliveries: seq<Delivery>,
    failures: seq<Failure>,
    floor: int,
    cap: int,
    retries: nat,
    delayed: Time,
    gone: Option<Removal>)

  datatype World = World(db: Db, past: map<Id, Past>)

  function FreshPast(r: Row): Past {
    Past(0, r.maxAttempts, [], [], REAPER_HISTORY, REAPER_HISTORY, 0, 0, None)
  }

  function CloseLast(h: Past, close: Close): Past {
    if h.deliveries == [] then h
    else
      var last := |h.deliveries| - 1;
      h.(deliveries := h.deliveries[..last] + [h.deliveries[last].(close := Some(close))])
  }

  function LogFailure(h: Past, r: Row, nonRetryable: bool, delay: Time, limit: int, e: ErrorRecord): Past {
    var retried := !nonRetryable && r.attempt < r.maxAttempts;
    h.(failures := h.failures + [Failure(h.epoch, e)],
       floor := if limit < h.floor then limit else h.floor,
       cap := if limit > h.cap then limit else h.cap,
       retries := if retried then h.retries + 1 else h.retries,
       delayed := if retried then h.delayed + delay else h.delayed)
  }

  function RemovalBy(s: Stmt): Removal
    requires s.Purge? || s.Retain?
  {
    if s.Purge? then Purged else if s.archive then Archived else Pruned
  }

  /** What statement `s` acting on row `r` adds to the job's past. */
  function LogRow(h: Past, r: Row, s: Stmt, now: Time): Past {
    match s
    case Claim(_, _, worker, _) =>
      h.(deliveries := h.deliveries + [Delivery(h.epoch, r.attempt + 1, worker, None)])
    case Send(_, Complete) => CloseLast(h, BySuccess)
    case Send(_, Fail(nonRetryable, delay, limit, e)) =>
      LogFailure(CloseLast(h, ByFailure), r, nonRetryable, delay, limit, e)
    case Send(_, AckCancel) => CloseLast(h, ByAck)
    case Send(_, Release) => CloseLast(h, ByRelease)
    case Reap(_, delay, _) =>
      LogFailure(CloseLast(h, ByReap), r, false, delay, REAPER_HISTORY, ReapRecord(r, now))
    case Operate(_, Replay) => h.(epoch := h.epoch + 1, retries := 0, delayed := 0)
    case Purge(_, _, _, _) =>
      (if r.state == Running then CloseLast(h, ByPurge) else h).(gone := Some(RemovalBy(s)))
    case Retain(_, _, _, _) => h.(gone := Some(RemovalBy(s)))
    case _ => h
  }

  function Next(w: World, e: Event): World {
    if Enabled(w.db, e.stmt, e.now) && Exec(w.db, e.stmt, e.now).Ok? then
      var db := Exec(w.db, e.stmt, e.now).db;
      World(db, map i | i in w.past.Keys + db.jobs.Keys ::
        if i !in w.past then FreshPast(db.jobs[i])
        else if i in Targets(w.db, e.stmt) then LogRow(w.past[i], w.db.jobs[i], e.stmt, e.now)
        else w.past[i])
    else w
  }

  function Run(w: World, es: seq<Event>): World
    decreases |es|
  {
    if es == [] then w else Run(Next(w, es[0]), es[1..])
  }

  const START := World(EMPTY, map[])

  // ----- the invariant of one live row and its past -----

  function ClaimsIn(d: seq<Delivery>, epoch: nat): nat {
    if d == [] then 0
    else ClaimsIn(d[..|d| - 1], epoch) + (if d[|d| - 1].epoch == epoch then 1 else 0)
  }

  /** attempt counts the claims of this epoch, and the budget holds epoch by epoch. */
  ghost predicate Counted(r: Row, h: Past) {
    && h.maxAttempts == r.maxAttempts
    && r.attempt == ClaimsIn(h.deliveries, h.epoch)
    && |h.deliveries| <= r.maxAttempts * h.epoch + r.attempt
  }

  predicate Earlier(c: Delivery, d: Delivery) {
    c.epoch < d.epoch || (c.epoch == d.epoch && c.attempt < d.attempt)
  }

  ghost predicate Increasing(d: seq<Delivery>) {
    forall i, j | 0 <= i < j < |d| :: Earlier(d[i], d[j])
  }

  /** Each delivery of this epoch has an attempt from 1 to the row's, and none is of a later epoch. */
  ghost predicate Numbered(d: seq<Delivery>, epoch: nat, attempt: int) {
    forall i | 0 <= i < |d| ::
      d[i].epoch <= epoch && d[i].attempt >= 1 && (d[i].epoch == epoch ==> d[i].attempt <= attempt)
  }

  ghost predicate Ordered(r: Row, h: Past) {
    Increasing(h.deliveries) && Numbered(h.deliveries, h.epoch, r.attempt)
  }

  /** Only the last delivery can be open, and it is open exactly while the row runs. */
  ghost predicate OpenIffRunning(r: Row, h: Past) {
    && (forall i | 0 <= i < |h.deliveries| - 1 :: h.deliveries[i].close.Some?)
    && (r.state == Running <==> h.deliveries != [] && Last(h).close.None?)
    && (r.state == Running ==> r.workerId == Some(Last(h).worker))
  }

  function Last(h: Past): Delivery {
    if h.deliveries == [] then Delivery(0, 0, "", Some(ByPurge)) else h.deliveries[|h.deliveries| - 1]
  }

  /** How the last delivery closed decides the state, and the state how it closed. */
  ghost predicate Closed(r: Row, h: Past) {
    && (r.attempt > 0 <==> h.deliveries != [] && Last(h).epoch == h.epoch)
    && (r.attempt > 0 ==> Last(h).attempt == r.attempt)
    && (r.state == Running ==> r.attempt > 0)
    && (r.state == Succeeded <==> h.deliveries != [] && Last(h).close == Some(BySuccess))
    && (h.deliveries != [] && Last(h).close == Some(ByAck) ==> r.state == Cancelled)
    && (h.deliveries == [] || Last(h).close != Some(ByPurge))
    && (r.state == Dead ==>
          && r.attempt > 0
          && r.deadReason == Some(if Last(h).close == Some(ByReap) then LeaseExpired
                                  else if r.deadReason == Some(NonRetryableError) then NonRetryableError
                                  else AttemptsExhausted)
          && (Last(h).close == Some(ByReap) || Last(h).close == Some(ByFailure)))
    && (r.state == Available && r.attempt > 0 && Last(h).close != Some(ByRelease) ==>
          r.attempt < r.maxAttempts)
  }

  /** The bounded log is a suffix of the unbounded one, and long enough. */
  ghost predicate Logged(r: Row, h: Past) {
    && |r.errors| <= |h.failures|
    && (forall k | 0 <= k < |r.errors| ::
          r.errors[k] == h.failures[|h.failures| - |r.errors| + k].error)
    && h.floor <= REAPER_HISTORY <= h.cap
    && |r.errors| <= h.cap
    && (|r.errors| >= h.floor || |r.errors| == |h.failures|)
    && (h.failures != [] ==> r.errors != [])
  }

  ghost predicate RowInv(r: Row, h: Past) {
    && Checked(r)
    && Consistent(r)
    && Counted(r, h)
    && Ordered(r, h)
    && OpenIffRunning(r, h)
    && Closed(r, h)
    && Logged(r, h)
    && h.gone.None?
  }

  ghost predicate GoneInv(h: Past) {
    && h.gone.Some?
    && |h.deliveries| <= h.maxAttempts * (h.epoch + 1)
    && (forall i | 0 <= i < |h.deliveries| :: h.deliveries[i].close.Some?)
  }

  ghost predicate ArchiveInv(w: World) {
    && (forall k | 0 <= k < |w.db.archive| ::
          && w.db.archive[k].0 in w.past
          && w.past[w.db.archive[k].0].gone == Some(Archived)
          && IsTerminal(w.db.archive[k].1.state))
    && (forall j, k | 0 <= j < k < |w.db.archive| :: w.db.archive[j].0 != w.db.archive[k].0)
    && (forall i | i in w.past && w.past[i].gone == Some(Archived) ::
          exists k :: 0 <= k < |w.db.archive| && w.db.archive[k].0 == i)
  }

  ghost predicate Inv(w: World) {
    && w.db.jobs.Keys <= w.past.Keys
    && (forall i | i in w.past :: i < w.db.nextId)
    && (forall i | i in w.db.jobs :: RowInv(w.db.jobs[i], w.past[i]))
    && (forall i | i in w.past && i !in w.db.jobs :: GoneInv(w.past[i]))
    && IdempotencyUnique(w.db.jobs)
    && ActiveKeyUnique(w.db.jobs)
    && ArchiveInv(w)
  }

  // ----- each conjunct is kept, row by row -----

  lemma ClosedClaims(h: Past, close: Close, epoch: nat)
    ensures ClaimsIn(CloseLast(h, close).deliveries, epoch) == ClaimsIn(h.deliveries, epoch)
    ensures |CloseLast(h, close).deliveries| == |h.deliveries|
  {
    if h.deliveries != [] {
      var d, d' := h.deliveries, CloseLast(h, close).deliveries;
      assert d'[..|d'| - 1] == d[..|d| - 1];
    }
  }

  lemma NoClaimsYet(d: seq<Delivery>, epoch: nat)
    requires forall i | 0 <= i < |d| :: d[i].epoch < epoch
    ensures ClaimsIn(d, epoch) == 0
  {
  }

  lemma CountedKept(r: Row, h: Past, s: Stmt, now: Time)
    requires Checked(r) && Counted(r, h) && Ordered(r, h) && Updates(s) && Acts(s, r, now)
    ensures Counted(SetRow(s, r, now), LogRow(h, r, s, now))
  {
    match s
    case Claim(_, _, worker, _) =>
      var d := LogRow(h, r, s, now).deliveries;
      assert d[..|d| - 1] == h.deliveries;
    case Send(_, Complete) => ClosedClaims(h, BySuccess, h.epoch);
    case Send(_, Fail(_, _, _, _)) => ClosedClaims(h, ByFailure, h.epoch);
    case Send(_, AckCancel) => ClosedClaims(h, ByAck, h.epoch);
    case Send(_, Release) => ClosedClaims(h, ByRelease, h.epoch);
    case Send(_, Heartbeat(_)) =>
    case Reap(_, _, _) => ClosedClaims(h, ByReap, h.epoch);
    case Operate(_, Replay) => EpochCounted(r, h);
    case Operate(_, _) =>
  }

  lemma EpochCounted(r: Row, h: Past)
    requires Checked(r) && Counted(r, h) && Ordered(r, h)
    ensures ClaimsIn(h.deliveries, h.epoch + 1) == 0
    ensures |h.deliveries| <= r.maxAttempts * (h.epoch + 1)
  {
    NoClaimsYet(h.deliveries, h.epoch + 1);
    assert r.maxAttempts * (h.epoch + 1) == r.maxAttempts * h.epoch + r.maxAttempts;
  }

  lemma AppendOrdered(d: seq<Delivery>, epoch: nat, attempt: int, worker: string)
    requires Increasing(d) && Numbered(d, epoch, attempt) && attempt >= 0
    ensures var d' := d + [Delivery(epoch, attempt + 1, worker, None)];
      Increasing(d') && Numbered(d', epoch, attempt + 1)
  {
  }

  lemma CloseOrdered(h: Past, close: Close, attempt: int)
    requires Increasing(h.deliveries) && Numbered(h.deliveries, h.epoch, attempt)
    ensures Increasing(CloseLast(h, close).deliveries) && Numbered(CloseLast(h, close).deliveries, h.epoch, attempt)
  {
    var d, d' := h.deliveries, CloseLast(h, close).deliveries;
    assert forall i | 0 <= i < |d| :: d'[i].epoch == d[i].epoch && d'[i].attempt == d[i].attempt;
  }

  lemma OrderedKept(r: Row, h: Past, s: Stmt, now: Time)
    requires Checked(r) && Ordered(r, h) && Updates(s) && Acts(s, r, now)
    ensures Ordered(SetRow(s, r, now), LogRow(h, r, s, now))
  {
    match s
    case Claim(_, _, worker, _) => AppendOrdered(h.deliveries, h.epoch, r.attempt, worker);
    case Send(_, Complete) => CloseOrdered(h, BySuccess, r.attempt);
    case Send(_, Fail(_, _, _, _)) => CloseOrdered(h, ByFailure, r.attempt);
    case Send(_, AckCancel) => CloseOrdered(h, ByAck, r.attempt);
    case Send(_, Release) => CloseOrdered(h, ByRelease, r.attempt);
    case Reap(_, _, _) => CloseOrdered(h, ByReap, r.attempt);
    case _ =>
  }

  lemma OpenKept(r: Row, h: Past, s: Stmt, now: Time)
    requires Consistent(r) && OpenIffRunning(r, h) && Updates(s) && Acts(s, r, now)
    ensures OpenIffRunning(SetRow(s, r, now), LogRow(h, r, s, now))
  {
  }

  lemma ClosedKept(r: Row, h: Past, s: Stmt, now: Time)
    requires Checked(r) && Consistent(r) && Ordered(r, h) && OpenIffRunning(r, h) && Closed(r, h)
    requires Updates(s) && Acts(s, r, now)
    ensures Closed(SetRow(s, r, now), LogRow(h, r, s, now))
  {
  }

  /** One more failure, kept at the end of both logs; the limit may drop the oldest entry of the bounded one. */
  lemma FailureLogged(r: Row, h: Past, errors: seq<ErrorRecord>, h': Past, limit: int, e: ErrorRecord)
    requires Logged(r, h) && errors == AppendBounded(r.errors, limit, e)
    requires exists epoch :: h'.failures == h.failures + [Failure(epoch, e)]
    requires h'.floor == if limit < h.floor then limit else h.floor
    requires h'.cap == if limit > h.cap then limit else h.cap
    ensures Logged(r.(errors := errors), h')
  {
  }

  lemma ReapLogged(r: Row, h: Past, s: Stmt, now: Time)
    requires Logged(r, h) && s.Reap? && Acts(s, r, now)
    ensures Logged(SetRow(s, r, now), LogRow(h, r, s, now))
  {
    FailureLogged(r, h, SetRow(s, r, now).errors, LogRow(h, r, s, now), REAPER_HISTORY, ReapRecord(r, now));
  }

  lemma FailLogged(r: Row, h: Past, s: Stmt, now: Time)
    requires Logged(r, h) && s.Send? && s.report.Fail?
    ensures Logged(SetRow(s, r, now), LogRow(h, r, s, now))
  {
    FailureLogged(r, h, SetRow(s, r, now).errors, LogRow(h, r, s, now), s.report.maxHistory, s.report.error);
  }

  lemma LoggedKept(r: Row, h: Past, s: Stmt, now: Time)
    requires Logged(r, h) && Updates(s) && Acts(s, r, now)
    ensures Logged(SetRow(s, r, now), LogRow(h, r, s, now))
  {
    if s.Reap? {
      ReapLogged(r, h, s, now);
    } else if s.Send? && s.report.Fail? {
      FailLogged(r, h, s, now);
    } else {
      assert SetRow(s, r, now).errors == r.errors && LogRow(h, r, s, now).failures == h.failures;
    }
  }

  lemma RowKept(r: Row, h: Past, s: Stmt, now: Time)
    requires RowInv(r, h) && Updates(s) && Acts(s, r, now) && Checked(SetRow(s, r, now))
    ensures RowInv(SetRow(s, r, now), LogRow(h, r, s, now))
  {
    ConsistentKept(r, s, now);
    CountedKept(r, h, s, now);
    OrderedKept(r, h, s, now);
    OpenKept(r, h, s, now);
    ClosedKept(r, h, s, now);
    LoggedKept(r, h, s, now);
  }

  lemma FreshInv(j: NewJob, now: Time)
    requires Insertable(j)
    ensures RowInv(FreshRow(j, now), FreshPast(FreshRow(j, now)))
  {
  }

  // ----- every step keeps the invariant -----

  lemma InsertKept(w: World, e: Event)
    requires Inv(w) && e.stmt.Insert?
    ensures Inv(Next(w, e))
  {
    var batch := e.stmt.batch;
    InsertAllSpec(w.db.jobs, w.db.nextId, batch, e.now);
    var w' := Next(w, e);
    if Exec(w.db, e.stmt, e.now).Ok? {
      forall i | i in w'.db.jobs ensures RowInv(w'.db.jobs[i], w'.past[i]) {
        if i !in w.db.jobs {
          assert i !in w.past;
          FreshInv(batch[i - w.db.nextId], e.now);
        }
      }
      assert ArchiveInv(w');
    }
  }

  lemma UpdateKept(w: World, e: Event)
    requires Inv(w) && Updates(e.stmt)
    ensures Inv(Next(w, e))
  {
    var w' := Next(w, e);
    if Enabled(w.db, e.stmt, e.now) && Exec(w.db, e.stmt, e.now).Ok? {
      forall i | i in w'.db.jobs ensures RowInv(w'.db.jobs[i], w'.past[i]) {
        if i in Targets(w.db, e.stmt) {
          TargetsAct(w.db, e.stmt, e.now, i);
          RowKept(w.db.jobs[i], w.past[i], e.stmt, e.now);
        }
      }
      forall i | i in w.past && i !in w.db.jobs ensures w'.past[i] == w.past[i] {}
      assert forall i | i in w.past :: w'.past[i].gone == w.past[i].gone;
    }
  }

  lemma RemovedRow(r: Row, h: Past, s: Stmt, now: Time)
    requires RowInv(r, h) && !Updates(s) && Acts(s, r, now)
    ensures GoneInv(LogRow(h, r, s, now))
  {
    assert r.maxAttempts * (h.epoch + 1) == r.maxAttempts * h.epoch + r.maxAttempts;
  }

  lemma RemoveKept(w: World, e: Event)
    requires Inv(w) && (e.stmt.Purge? || e.stmt.Retain?)
    ensures Inv(Next(w, e))
  {
    var w' := Next(w, e);
    if Enabled(w.db, e.stmt, e.now) {
      var out := Targets(w.db, e.stmt);
      forall i | i in w'.past && i !in w'.db.jobs ensures GoneInv(w'.past[i]) {
        if i in out {
          TargetsAct(w.db, e.stmt, e.now, i);
          RemovedRow(w.db.jobs[i], w.past[i], e.stmt, e.now);
        }
      }
      ArchiveKept(w, e);
    }
  }

  lemma GoneAfter(w: World, e: Event, i: Id)
    requires Inv(w) && (e.stmt.Purge? || e.stmt.Retain?) && Enabled(w.db, e.stmt, e.now) && i in w.past
    ensures i in Next(w, e).past
    ensures i in Targets(w.db, e.stmt) ==> w.past[i].gone.None?
    ensures i in Targets(w.db, e.stmt) ==> Next(w, e).past[i].gone == Some(RemovalBy(e.stmt))
    ensures i !in Targets(w.db, e.stmt) ==> Next(w, e).past[i] == w.past[i]
  {
  }

  lemma ArchiveKept(w: World, e: Event)
    requires Inv(w) && (e.stmt.Purge? || e.stmt.Retain?) && Enabled(w.db, e.stmt, e.now)
    ensures ArchiveInv(Next(w, e))
  {
    var w' := Next(w, e);
    assert w'.past.Keys == w.past.Keys;
    forall i | i in w.past { GoneAfter(w, e, i); }
    if e.stmt.Retain? && e.stmt.archive {
      AppendedArchive(w, w'.past, e.stmt.picks);
    }
  }

  lemma AppendedArchive(w: World, past: map<Id, Past>, picks: seq<Id>)
    requires ArchiveInv(w) && Distinct(picks) && past.Keys == w.past.Keys
    requires forall i | i in picks ::
      i in w.db.jobs && i in w.past && w.past[i].gone.None? && IsTerminal(w.db.jobs[i].state)
    requires forall i | i in past ::
      past[i].gone == if i in picks then Some(Archived) else w.past[i].gone
    ensures forall db: Db | db.archive == w.db.archive + ArchiveRows(w.db.jobs, picks) ::
      ArchiveInv(World(db, past))
  {
    var before, after := w.db.archive, w.db.archive + ArchiveRows(w.db.jobs, picks);
    assert forall k | |before| <= k < |after| ::
      after[k] == (picks[k - |before|], w.db.jobs[picks[k - |before|]]) && picks[k - |before|] in picks;
    forall i | i in past && past[i].gone == Some(Archived)
      ensures exists k :: 0 <= k < |after| && after[k].0 == i
    {
      if i in picks {
        var k :| 0 <= k < |picks| && picks[k] == i;
        assert after[|before| + k].0 == i;
      } else {
        var k :| 0 <= k < |before| && before[k].0 == i;
        assert after[k].0 == i;
      }
    }
    assert forall j, k | 0 <= j < k < |after| :: after[j].0 != after[k].0;
  }

  lemma StepKept(w: World, e: Event)
    requires Inv(w)
    ensures Inv(Next(w, e))
  {
    match e.stmt
    case Insert(_) => InsertKept(w, e);
    case SetPaused(_, _) =>
    case Purge(_, _, _, _) => RemoveKept(w, e);
    case Retain(_, _, _, _) => RemoveKept(w, e);
    case _ => UpdateKept(w, e);
  }

  lemma {:induction false} RunKeeps(w: World, es: seq<Event>)
    requires Inv(w)
    ensures Inv(Run(w, es))
    decreases |es|
  {
    if es != [] {
      StepKept(w, es[0]);
      RunKeeps(Next(w, es[0]), es[1..]);
    }
  }

  /** The invariant holds in every reachable world. */
  lemma Reachable(es: seq<Event>)
    ensures Inv(Run(START, es))
  {
    RunKeeps(START, es);
  }

  /** Keeping the past never influences the database. */
  lemma {:induction false} RunIsPlay(w: World, es: seq<Event>)
    ensures Run(w, es).db == Play(w.db, es)
    decreases |es|
  {
    if es != [] {
      RunIsPlay(Next(w, es[0]), es[1..]);
    }
  }
}
