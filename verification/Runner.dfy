/**
 One delivery from claim to outcome, while any other sessions do anything at all between the
 runner's own statements.
 */
module Runner {
  import opened Wrappers
  import opened Jobs
  import opened Statements
  import opened JobTable
  import opened Guarantees
  import opened Backoff
  import opened Columns

  datatype Outcome = RunSucceeded | RunRetried | RunDead | RunCancelled | OwnershipLost

  /** What the handler may reject with, as far as the runner tells errors apart. */
  datatype Thrown =
    | LostOwnership
    | CancelledError
    | RetryAfterError(requestedMs: int)
    | NonRetryableError
    | Other(kind: ErrorKind)

  datatype Ending = Resolved | Threw(error: Thrown)

  /** Statements other sessions commit first, then the time of the runner's own statement. */
  datatype Moment = Moment(others: seq<Event>, now: Time)

  /** Everything the runner does not control. */
  datatype Script = Script(
    heartbeats: seq<Moment>,
    ending: Ending,
    timedOut: bool,
    ack: Moment,
    report: Moment,
    random: real)

  // ----- traces: whose statement was it, and what did it change -----

  datatype Tagged = Mine(e: Event) | Theirs(e: Event)

  ghost function Untag(trace: seq<Tagged>): seq<Event> {
    seq(|trace|, k requires 0 <= k < |trace| => trace[k].e)
  }

  ghost function Tag(es: seq<Event>): seq<Tagged> {
    seq(|es|, k requires 0 <= k < |es| => Theirs(es[k]))
  }

  ghost predicate OwnedIn(db: Db, f: Fence) {
    f.id in db.jobs && Owns(db.jobs[f.id], f)
  }

  /** The row is still this delivery's, and its cancellation was requested. */
  ghost predicate CancelSeen(db: Db, f: Fence) {
    OwnedIn(db, f) && db.jobs[f.id].cancelRequestedAt.Some?
  }

  /** What the others commit at a moment, and then the runner's own report. */
  ghost function Turn(m: Moment, f: Fence, report: Report): seq<Tagged> {
    Tag(m.others) + [Mine(Event(Send(f, report), m.now))]
  }

  /** The table the runner's own report of that turn meets. */
  ghost function Met(db: Db, m: Moment): Db {
    Play(db, m.others)
  }

  ghost function After(db: Db, trace: seq<Tagged>): Db {
    Play(db, Untag(trace))
  }

  // ----- the run, exactly -----

  /** One heartbeat for each moment at which the timer or the handler sends one. */
  ghost function Beats(ms: seq<Moment>, f: Fence, lease: int): seq<Tagged> {
    if ms == [] then [] else Beats(ms[..|ms| - 1], f, lease) + Turn(ms[|ms| - 1], f, Heartbeat(lease))
  }

  /** The table heartbeat `k` meets. */
  ghost function BeatMet(db: Db, ms: seq<Moment>, f: Fence, lease: int, k: nat): Db
    requires k < |ms|
  {
    Met(After(db, Beats(ms[..k], f, lease)), ms[k])
  }

  /** Some heartbeat found the row its own and a cancellation requested. */
  ghost predicate Saw(db: Db, ms: seq<Moment>, f: Fence, lease: int) {
    exists k | 0 <= k < |ms| :: CancelSeen(BeatMet(db, ms, f, lease, k), f)
  }

  ghost predicate SendsAck(db: Db, script: Script, f: Fence, lease: int) {
    && script.ending != Threw(LostOwnership)
    && (Saw(db, script.heartbeats, f, lease) || script.ending == Threw(CancelledError))
  }

  /** The heartbeats, and the acknowledgement if one is sent. */
  ghost function BeforeReport(db: Db, script: Script, f: Fence, lease: int): seq<Tagged> {
    Beats(script.heartbeats, f, lease) + if SendsAck(db, script, f, lease) then Turn(script.ack, f, AckCancel) else []
  }

  ghost predicate Acked(db: Db, script: Script, f: Fence, lease: int) {
    && SendsAck(db, script, f, lease)
    && CancelSeen(Met(After(db, Beats(script.heartbeats, f, lease)), script.ack), f)
  }

  /** An outcome report is sent unless ownership was lost in the handler or the cancellation went through. */
  ghost predicate Reports(db: Db, script: Script, f: Fence, lease: int) {
    script.ending != Threw(LostOwnership) && !Acked(db, script, f, lease)
  }

  /** The failure report for what the handler threw: a timeout hides the kind of error beneath it. */
  function FailureReport(e: Thrown, script: Script, attempt: int, worker: string, o: Options, history: int): Report {
    var kind := if script.timedOut then Timeout else if e.Other? then e.kind else HandlerError;
    Fail(e.NonRetryableError? || kind in {ValidationError, NoHandler},
         DelayOf(if e.RetryAfterError? then RetryAfter(e.requestedMs) else Computed(attempt, script.random), o),
         history,
         ErrorRecord(attempt, script.report.now, kind, Some(worker)))
  }

  function OutcomeReport(script: Script, f: Fence, o: Options, history: int): Report {
    match script.ending
    case Resolved => Complete
    case Threw(e) => FailureReport(e, script, f.attempt, f.worker, o, history)
  }

  /** Everything the run and the others do, in order. */
  ghost function TraceOf(db: Db, script: Script, f: Fence, lease: int, o: Options, history: int): seq<Tagged> {
    BeforeReport(db, script, f, lease)
    + if Reports(db, script, f, lease) then Turn(script.report, f, OutcomeReport(script, f, o, history)) else []
  }

  /** The answer to an outcome report that met `db`. */
  ghost function Answer(db: Db, f: Fence, report: Report): Outcome {
    if !OwnedIn(db, f) then OwnershipLost
    else if report.Complete? then RunSucceeded
    else if SetReport(db.jobs[f.id], report, 0).state == Dead then RunDead
    else RunRetried
  }

  ghost function OutcomeOf(db: Db, script: Script, f: Fence, lease: int, o: Options, history: int): Outcome {
    if script.ending == Threw(LostOwnership) then OwnershipLost
    else if Acked(db, script, f, lease) then RunCancelled
    else
      Answer(Met(After(db, BeforeReport(db, script, f, lease)), script.report), f, OutcomeReport(script, f, o, history))
  }

  // ----- what a trace amounts to -----

  /** A report of the runner's that the table accepted, heartbeats aside, and the state it set. */
  datatype Effect = Effect(fence: Fence, report: Report, to: JobState)

  /** What one statement of the runner's own changed. */
  ghost function EffectOf(db: Db, e: Event): seq<Effect> {
    var s, db' := e.stmt, Apply(db, e.stmt, e.now);
    if s.Send? && !s.report.Heartbeat? && Targets(db, s) != {} && s.fence.id in db'.jobs
    then [Effect(s.fence, s.report, db'.jobs[s.fence.id].state)] else []
  }

  ghost function Effects(db: Db, trace: seq<Tagged>): seq<Effect>
    decreases |trace|
  {
    if trace == [] then []
    else
      (if trace[0].Mine? then EffectOf(db, trace[0].e) else [])
      + Effects(Apply(db, trace[0].e.stmt, trace[0].e.now), trace[1..])
  }

  /** The one transition an outcome stands for, made under the run's own fence, or none. */
  ghost predicate Names(outcome: Outcome, f: Fence, effects: seq<Effect>) {
    match outcome
    case RunSucceeded => effects == [Effect(f, Complete, Succeeded)]
    case RunCancelled => effects == [Effect(f, AckCancel, Cancelled)]
    case RunRetried => |effects| == 1 && effects[0].fence == f && effects[0].report.Fail? && effects[0].to == Available
    case RunDead => |effects| == 1 && effects[0].fence == f && effects[0].report.Fail? && effects[0].to == Dead
    case OwnershipLost => effects == []
  }

  /** The runner sends reports of its own delivery and nothing else, and heartbeats for the job's own lease. */
  ghost predicate OwnReports(trace: seq<Tagged>, f: Fence, lease: int) {
    forall t | t in trace && t.Mine? ::
      t.e.stmt.Send? && t.e.stmt.fence == f && (t.e.stmt.report.Heartbeat? ==> t.e.stmt.report.leaseSeconds == lease)
  }

  lemma UntagAppend(t: seq<Tagged>, u: seq<Tagged>)
    ensures Untag(t + u) == Untag(t) + Untag(u)
  {
  }

  lemma AfterAppend(db: Db, t: seq<Tagged>, u: seq<Tagged>)
    ensures After(db, t + u) == After(After(db, t), u)
  {
    UntagAppend(t, u);
    PlayAppend(db, Untag(t), Untag(u));
  }

  lemma {:induction false} EffectsAppend(db: Db, t: seq<Tagged>, u: seq<Tagged>)
    ensures Effects(db, t + u) == Effects(db, t) + Effects(After(db, t), u)
    decreases |t|
  {
    if t == [] {
      assert t + u == u && Untag(t) == [];
    } else {
      assert (t + u)[0] == t[0] && (t + u)[1..] == t[1..] + u;
      assert Untag(t)[0] == t[0].e && Untag(t)[1..] == Untag(t[1..]);
      EffectsAppend(Apply(db, t[0].e.stmt, t[0].e.now), t[1..], u);
    }
  }

  lemma {:induction false} OthersHaveNone(db: Db, es: seq<Event>)
    ensures Effects(db, Tag(es)) == [] && After(db, Tag(es)) == Play(db, es)
    decreases |es|
  {
    assert Untag(Tag(es)) == es;
    if es != [] {
      assert Tag(es)[1..] == Tag(es[1..]);
      OthersHaveNone(Apply(db, es[0].stmt, es[0].now), es[1..]);
    }
  }

  /** One turn leaves the atomic report of the table it met, and has that report's effect. */
  lemma TurnTaken(db: Db, m: Moment, f: Fence, report: Report)
    ensures After(db, Turn(m, f, report)) == Apply(Met(db, m), Send(f, report), m.now)
    ensures Effects(db, Turn(m, f, report)) == EffectOf(Met(db, m), Event(Send(f, report), m.now))
  {
    var e := Event(Send(f, report), m.now);
    OthersHaveNone(db, m.others);
    AfterAppend(db, Tag(m.others), [Mine(e)]);
    EffectsAppend(db, Tag(m.others), [Mine(e)]);
    OneEvent(Met(db, m), e);
  }

  lemma OneEvent(db: Db, e: Event)
    ensures After(db, [Mine(e)]) == Apply(db, e.stmt, e.now) && Effects(db, [Mine(e)]) == EffectOf(db, e)
  {
    assert Untag([Mine(e)]) == [e] && [e][1..] == [] && [Mine(e)][1..] == [];
    assert Play(Apply(db, e.stmt, e.now), []) == Apply(db, e.stmt, e.now);
    assert Effects(Apply(db, e.stmt, e.now), []) == [];
  }

  lemma AfterHealthy(db: Db, t: seq<Tagged>)
    requires Healthy(db)
    ensures Healthy(After(db, t))
  {
    PlayHealthy(db, Untag(t));
  }

  /** An outcome report has one effect if it met a row it owned, and none otherwise. */
  lemma ReportEffect(db: Db, f: Fence, report: Report, now: Time)
    requires Healthy(db) && !report.Heartbeat?
    ensures EffectOf(db, Event(Send(f, report), now)) ==
      if f.id in db.jobs && ReportGuard(db.jobs[f.id], f, report)
      then [Effect(f, report, SetReport(db.jobs[f.id], report, now).state)] else []
  {
    Reported(db, f, report, now);
  }

  lemma {:induction false} BeatsHaveNone(db: Db, ms: seq<Moment>, f: Fence, lease: int)
    ensures Effects(db, Beats(ms, f, lease)) == [] && OwnReports(Beats(ms, f, lease), f, lease)
  {
    if ms != [] {
      var n := |ms| - 1;
      BeatsHaveNone(db, ms[..n], f, lease);
      EffectsAppend(db, Beats(ms[..n], f, lease), Turn(ms[n], f, Heartbeat(lease)));
      TurnTaken(After(db, Beats(ms[..n], f, lease)), ms[n], f, Heartbeat(lease));
    }
  }

  lemma AckEffect(db: Db, script: Script, f: Fence, lease: int)
    requires Healthy(db)
    ensures Effects(db, BeforeReport(db, script, f, lease))
         == if Acked(db, script, f, lease) then [Effect(f, AckCancel, Cancelled)] else []
  {
    var beats := Beats(script.heartbeats, f, lease);
    var db' := After(db, beats);
    BeatsHaveNone(db, script.heartbeats, f, lease);
    if SendsAck(db, script, f, lease) {
      EffectsAppend(db, beats, Turn(script.ack, f, AckCancel));
      TurnTaken(db', script.ack, f, AckCancel);
      AfterHealthy(db, beats);
      PlayHealthy(db', script.ack.others);
      ReportEffect(Met(db', script.ack), f, AckCancel, script.ack.now);
    } else {
      assert beats + [] == beats;
    }
  }

  lemma AnswerNames(db: Db, f: Fence, report: Report, now: Time)
    requires Healthy(db) && (report.Complete? || report.Fail?)
    ensures Names(Answer(db, f, report), f, EffectOf(db, Event(Send(f, report), now)))
  {
    ReportEffect(db, f, report, now);
  }

  lemma TraceIsOwn(db: Db, script: Script, f: Fence, lease: int, o: Options, history: int)
    ensures OwnReports(TraceOf(db, script, f, lease, o, history), f, lease)
  {
    BeatsHaveNone(db, script.heartbeats, f, lease);
  }

  /** Whatever happens in between, the one transition the outcome names was made, and no other. */
  lemma OutcomeNamesEffects(db: Db, script: Script, f: Fence, lease: int, o: Options, history: int)
    requires Healthy(db)
    ensures var trace := TraceOf(db, script, f, lease, o, history);
      Names(OutcomeOf(db, script, f, lease, o, history), f, Effects(db, trace))
  {
    var before, report := BeforeReport(db, script, f, lease), OutcomeReport(script, f, o, history);
    AckEffect(db, script, f, lease);
    if Reports(db, script, f, lease) {
      var db' := After(db, before);
      EffectsAppend(db, before, Turn(script.report, f, report));
      TurnTaken(db', script.report, f, report);
      AfterHealthy(db, before);
      PlayHealthy(db', script.report.others);
      AnswerNames(Met(db', script.report), f, report, script.report.now);
    } else {
      assert before + [] == before;
    }
  }

  // ----- a cancellation that was seen -----

  ghost predicate CancelPending(db: Db, i: Id) {
    i in db.jobs ==> db.jobs[i].cancelRequestedAt.Some?
  }

  lemma PendingStays(db: Db, es: seq<Event>, i: Id)
    requires Healthy(db) && i < db.nextId && CancelPending(db, i)
    ensures CancelPending(Play(db, es), i) && i < Play(db, es).nextId
  {
    if i in db.jobs {
      CancelRequestStays(db, es, i);
    } else {
      GoneStays(db, es, i);
    }
    NextIdGrows(db, es);
  }

  lemma {:induction false} NextIdGrows(db: Db, es: seq<Event>)
    ensures db.nextId <= Play(db, es).nextId
    decreases |es|
  {
    if es != [] {
      NextIdGrows(Apply(db, es[0].stmt, es[0].now), es[1..]);
    }
  }

  lemma SawMore(db: Db, ms: seq<Moment>, f: Fence, lease: int, k: nat)
    requires k < |ms|
    ensures Saw(db, ms[..k + 1], f, lease)
       <==> Saw(db, ms[..k], f, lease) || CancelSeen(BeatMet(db, ms, f, lease, k), f)
  {
    var all, init := ms[..k + 1], ms[..k];
    SameBeat(db, ms, k + 1, f, lease, k);
    if Saw(db, all, f, lease) {
      var j :| 0 <= j < |all| && CancelSeen(BeatMet(db, all, f, lease, j), f);
      SameBeat(db, ms, k + 1, f, lease, j);
      if j < k {
        SameBeat(db, ms, k, f, lease, j);
        assert CancelSeen(BeatMet(db, init, f, lease, j), f);
      }
    }
    if Saw(db, init, f, lease) {
      var j :| 0 <= j < |init| && CancelSeen(BeatMet(db, init, f, lease, j), f);
      SameBeat(db, ms, k, f, lease, j);
      SameBeat(db, ms, k + 1, f, lease, j);
      assert CancelSeen(BeatMet(db, all, f, lease, j), f);
    }
  }

  lemma SameBeat(db: Db, ms: seq<Moment>, n: nat, f: Fence, lease: int, k: nat)
    requires k < n <= |ms|
    ensures BeatMet(db, ms[..n], f, lease, k) == BeatMet(db, ms, f, lease, k)
  {
    assert ms[..n][..k] == ms[..k];
  }

  lemma {:induction false} SeenStaysPending(db: Db, ms: seq<Moment>, f: Fence, lease: int)
    requires Healthy(db) && f.id < db.nextId && Saw(db, ms, f, lease)
    ensures var db' := After(db, Beats(ms, f, lease)); CancelPending(db', f.id) && f.id < db'.nextId
  {
    var n := |ms| - 1;
    LastBeat(db, ms, f, lease);
    SawMore(db, ms, f, lease, n);
    assert ms[..n + 1] == ms;
    if Saw(db, ms[..n], f, lease) {
      SeenStaysPending(db, ms[..n], f, lease);
      AfterHealthy(db, Beats(ms[..n], f, lease));
      PendingStays(After(db, Beats(ms[..n], f, lease)), ms[n].others, f.id);
    }
    OnePending(BeatMet(db, ms, f, lease, n), Event(Send(f, Heartbeat(lease)), ms[n].now), f.id);
  }

  lemma LastBeat(db: Db, ms: seq<Moment>, f: Fence, lease: int)
    requires Healthy(db) && f.id < db.nextId && ms != []
    ensures var met := BeatMet(db, ms, f, lease, |ms| - 1);
      && Healthy(met) && f.id < met.nextId
      && After(db, Beats(ms, f, lease)) == Apply(met, Send(f, Heartbeat(lease)), ms[|ms| - 1].now)
  {
    var n := |ms| - 1;
    var beats := Beats(ms[..n], f, lease);
    AfterAppend(db, beats, Turn(ms[n], f, Heartbeat(lease)));
    TurnTaken(After(db, beats), ms[n], f, Heartbeat(lease));
    AfterHealthy(db, beats);
    PlayHealthy(After(db, beats), ms[n].others);
    NextIdGrows(db, Untag(beats));
    NextIdGrows(After(db, beats), ms[n].others);
  }

  lemma OnePending(db: Db, e: Event, i: Id)
    requires Healthy(db) && i < db.nextId && CancelPending(db, i)
    ensures CancelPending(Apply(db, e.stmt, e.now), i) && i < Apply(db, e.stmt, e.now).nextId
  {
    PendingStays(db, [e], i);
    assert [e][1..] == [] && Play(db, [e]) == Play(Apply(db, e.stmt, e.now), []);
  }

  /**
   A request that a heartbeat saw wins: the run acknowledges it, and is cancelled exactly if it
   still owns the row then.
   */
  lemma SeenCancelWins(db: Db, script: Script, f: Fence, lease: int, o: Options, history: int)
    requires Healthy(db) && f.id < db.nextId
    requires Saw(db, script.heartbeats, f, lease) && script.ending != Threw(LostOwnership)
    ensures SendsAck(db, script, f, lease)
    ensures OutcomeOf(db, script, f, lease, o, history) == RunCancelled
       <==> OwnedIn(Met(After(db, Beats(script.heartbeats, f, lease)), script.ack), f)
  {
    var db' := After(db, Beats(script.heartbeats, f, lease));
    SeenStaysPending(db, script.heartbeats, f, lease);
    AfterHealthy(db, Beats(script.heartbeats, f, lease));
    PendingStays(db', script.ack.others, f.id);
  }

  // ----- the decision, on what the handler did and what the row allows -----

  /** A row keeps its attempt budget for as long as it is there. */
  lemma {:induction false} SameBudget(db: Db, es: seq<Event>, i: Id)
    requires Healthy(db) && i < db.nextId && i in Play(db, es).jobs
    ensures i in db.jobs && Play(db, es).jobs[i].maxAttempts == db.jobs[i].maxAttempts
    decreases |es|
  {
    if i !in db.jobs {
      GoneStays(db, es, i);
    } else if es != [] {
      var db' := Apply(db, es[0].stmt, es[0].now);
      ApplyHealthy(db, es[0].stmt, es[0].now);
      NextIdGrows(db, [es[0]]);
      assert [es[0]][1..] == [] && Play(db, [es[0]]) == Play(db', []) == db';
      SameBudget(db', es[1..], i);
      RowAfter(db, es[0].stmt, es[0].now, i);
      KeysKept(db.jobs[i], es[0].stmt, es[0].now);
    }
  }

  /** Errors no retry can mend: declared so, or a payload or a handler that will not change by itself. */
  predicate Hopeless(e: Thrown, timedOut: bool) {
    || e.NonRetryableError?
    || (!timedOut && e.Other? && (e.kind.ValidationError? || e.kind.NoHandler?))
  }

  /** The table the outcome report of a run meets. */
  ghost function ReportMet(db: Db, script: Script, f: Fence, lease: int): Db {
    Met(After(db, BeforeReport(db, script, f, lease)), script.report)
  }

  lemma ReportMetHealthy(db: Db, script: Script, f: Fence, lease: int)
    requires Healthy(db)
    ensures Healthy(ReportMet(db, script, f, lease))
    ensures f.id < db.nextId && f.id in ReportMet(db, script, f, lease).jobs ==>
      f.id in db.jobs && ReportMet(db, script, f, lease).jobs[f.id].maxAttempts == db.jobs[f.id].maxAttempts
  {
    var before := BeforeReport(db, script, f, lease);
    AfterHealthy(db, before);
    PlayHealthy(After(db, before), script.report.others);
    if f.id < db.nextId && f.id in ReportMet(db, script, f, lease).jobs {
      NextIdGrows(db, Untag(before));
      SameBudget(After(db, before), script.report.others, f.id);
      SameBudget(db, Untag(before), f.id);
    }
  }

  /**
   The outcome, case by case. Lost in the handler: lost. Cancellation seen or thrown, and still
   acknowledged: cancelled. Not the owner at the report: lost. Resolved: succeeded. Otherwise
   dead exactly if the error is hopeless or the attempts are used up, and else retried.
   */
  lemma RunDecided(db: Db, script: Script, f: Fence, lease: int, o: Options, history: int)
    requires Healthy(db) && f.id < db.nextId
    ensures var outcome, met := OutcomeOf(db, script, f, lease, o, history), ReportMet(db, script, f, lease);
      var ackMet := Met(After(db, Beats(script.heartbeats, f, lease)), script.ack);
      var cancelling := Saw(db, script.heartbeats, f, lease) || script.ending == Threw(CancelledError);
      if script.ending == Threw(LostOwnership) then outcome == OwnershipLost
      else if cancelling && CancelSeen(ackMet, f) then outcome == RunCancelled
      else if !OwnedIn(met, f) then outcome == OwnershipLost
      else if script.ending.Resolved? then outcome == RunSucceeded
      else
        && f.id in db.jobs
        && outcome == (if Hopeless(script.ending.error, script.timedOut) || f.attempt == db.jobs[f.id].maxAttempts
                       then RunDead else RunRetried)
  {
    ReportMetHealthy(db, script, f, lease);
  }

  /** The kind on record: a timeout whatever the handler threw then, else the kind of what it threw. */
  function KindOf(e: Thrown, timedOut: bool): ErrorKind {
    if timedOut then Timeout else match e case Other(kind) => kind case _ => HandlerError
  }

  /** The backoff: what the error asks for, up to the cap, or the computed delay of this attempt. */
  function BackoffOf(e: Thrown, attempt: int, random: real, o: Options): Time {
    match e
    case RetryAfterError(ms) => if ms < o.maxMs then ms * 1000 else o.maxMs * 1000
    case _ => NextDelayMs(attempt, o, random) * 1000
  }

  /** What a failed run leaves in its row: one more error of its own, and the time of the retry. */
  ghost predicate FailureLeft(r: Row, r': Row, e: Thrown, script: Script, f: Fence, o: Options, history: int) {
    var error := ErrorRecord(f.attempt, script.report.now, KindOf(e, script.timedOut), Some(f.worker));
    && OneMoreError(r.errors, r'.errors, history, error)
    && (r'.state == Available ==> r'.runAt == script.report.now + BackoffOf(e, f.attempt, script.random, o))
    && (r'.state == Dead ==>
          && r'.runAt == r.runAt && r'.finishedAt == Some(script.report.now)
          && r'.deadReason == Some(if Hopeless(e, script.timedOut) then DeadReason.NonRetryableError
                                   else AttemptsExhausted))
  }

  lemma ReportLeaves(met: Db, f: Fence, e: Thrown, script: Script, o: Options, history: int)
    requires Healthy(met) && OwnedIn(met, f)
    ensures var report := FailureReport(e, script, f.attempt, f.worker, o, history);
      var after := Apply(met, Send(f, report), script.report.now);
      && f.id in after.jobs && FailureLeft(met.jobs[f.id], after.jobs[f.id], e, script, f, o, history)
      && Answer(met, f, report)
         == if Hopeless(e, script.timedOut) || f.attempt == met.jobs[f.id].maxAttempts then RunDead else RunRetried
  {
    var report, now := FailureReport(e, script, f.attempt, f.worker, o, history), script.report.now;
    if report.nonRetryable || met.jobs[f.id].attempt == met.jobs[f.id].maxAttempts {
      DeadColumns(met, f, report.nonRetryable, report.delay, history, report.error, now);
    } else {
      RetryColumns(met, f, report.delay, history, report.error, now);
    }
  }

  lemma FailureRecorded(db: Db, script: Script, f: Fence, lease: int, o: Options, history: int)
    requires Healthy(db) && OutcomeOf(db, script, f, lease, o, history) in {RunDead, RunRetried}
    ensures var met := ReportMet(db, script, f, lease);
      var after := After(db, TraceOf(db, script, f, lease, o, history));
      && script.ending.Threw? && f.id in met.jobs && f.id in after.jobs
      && FailureLeft(met.jobs[f.id], after.jobs[f.id], script.ending.error, script, f, o, history)
  {
    var before, report := BeforeReport(db, script, f, lease), OutcomeReport(script, f, o, history);
    var met := ReportMet(db, script, f, lease);
    ReportMetHealthy(db, script, f, lease);
    AfterAppend(db, before, Turn(script.report, f, report));
    TurnTaken(After(db, before), script.report, f, report);
    ReportLeaves(met, f, script.ending.error, script, o, history);
  }

  class Runner {
    const workerId: string
    const backoff: Options
    const maxErrorHistory: int

    constructor (workerId: string, backoff: Options, maxErrorHistory: int)
      ensures this.workerId == workerId && this.backoff == backoff && this.maxErrorHistory == maxErrorHistory
    {
      this.workerId, this.backoff, this.maxErrorHistory := workerId, backoff, maxErrorHistory;
    }

    /**
     The run does exactly what `TraceOf` lists, heartbeat by heartbeat, and answers `OutcomeOf`.
     Hence, whatever happens in between, every statement it sends is a report under its own
     fence and exactly the one transition its outcome names was made; a lost ownership made
     none; and a cancellation one of its heartbeats saw wins if it still owns the row then.
     */
    method Run(table: Table, id: Id, attempt: int, leaseSeconds: int, script: Script)
      returns (outcome: Outcome, ghost trace: seq<Tagged>)
      requires table.Valid() && id < table.nextId
      modifies table
      ensures table.Valid() && table.Contents() == After(old(table.Contents()), trace)
      ensures var db, f := old(table.Contents()), Fence(id, workerId, attempt);
        && trace == TraceOf(db, script, f, leaseSeconds, backoff, maxErrorHistory)
        && outcome == OutcomeOf(db, script, f, leaseSeconds, backoff, maxErrorHistory)
        && OwnReports(trace, f, leaseSeconds) && Names(outcome, f, Effects(db, trace))
        && (Saw(db, script.heartbeats, f, leaseSeconds) && script.ending != Threw(LostOwnership) ==>
              (outcome == RunCancelled <==>
                 OwnedIn(Met(After(db, Beats(script.heartbeats, f, leaseSeconds)), script.ack), f)))
      ensures outcome == RunSucceeded ==> script.ending.Resolved?
      ensures outcome == RunDead || outcome == RunRetried ==>
        var db, f := old(table.Contents()), Fence(id, workerId, attempt);
        var met := ReportMet(db, script, f, leaseSeconds);
        && script.ending.Threw? && id in db.jobs && id in met.jobs && id in table.jobs
        && var e := script.ending.error;
        && (outcome == RunDead <==> Hopeless(e, script.timedOut) || attempt == db.jobs[id].maxAttempts)
        && FailureLeft(met.jobs[id], table.jobs[id], e, script, f, backoff, maxErrorHistory)
    {
      var f := Fence(id, workerId, attempt);
      ghost var start := table.Contents();
      TraceIsOwn(start, script, f, leaseSeconds, backoff, maxErrorHistory);
      OutcomeNamesEffects(start, script, f, leaseSeconds, backoff, maxErrorHistory);
      if Saw(start, script.heartbeats, f, leaseSeconds) && script.ending != Threw(LostOwnership) {
        SeenCancelWins(start, script, f, leaseSeconds, backoff, maxErrorHistory);
      }
      trace := TraceOf(start, script, f, leaseSeconds, backoff, maxErrorHistory);
      RunDecided(start, script, f, leaseSeconds, backoff, maxErrorHistory);
      if OutcomeOf(start, script, f, leaseSeconds, backoff, maxErrorHistory) in {RunDead, RunRetried} {
        FailureRecorded(start, script, f, leaseSeconds, backoff, maxErrorHistory);
      }
      outcome := Perform(table, f, leaseSeconds, script);
    }

    /** The body of the run: flags, heartbeats, acknowledgement and report. */
    method Perform(table: Table, f: Fence, leaseSeconds: int, script: Script) returns (outcome: Outcome)
      requires table.Valid() && f.worker == workerId
      modifies table
      ensures table.Valid()
      ensures var db := old(table.Contents());
        table.Contents() == After(db, TraceOf(db, script, f, leaseSeconds, backoff, maxErrorHistory))
      ensures outcome == OutcomeOf(old(table.Contents()), script, f, leaseSeconds, backoff, maxErrorHistory)
    {
      ghost var start := table.Contents();
      var cancelRequested := Heartbeats(table, f, leaseSeconds, script.heartbeats);
      ghost var beats := Beats(script.heartbeats, f, leaseSeconds);
      if script.ending == Threw(LostOwnership) {
        assert beats + [] + [] == beats;
        return OwnershipLost;
      }
      if cancelRequested || script.ending == Threw(CancelledError) {
        AfterAppend(start, beats, Turn(script.ack, f, AckCancel));
        var acked := Acknowledge(table, f, script.ack);
        if acked {
          assert BeforeReport(start, script, f, leaseSeconds) + [] == BeforeReport(start, script, f, leaseSeconds);
          return RunCancelled;
        }
      } else {
        assert beats + [] == beats;
      }
      AfterAppend(start, BeforeReport(start, script, f, leaseSeconds),
                  Turn(script.report, f, OutcomeReport(script, f, backoff, maxErrorHistory)));
      if script.ending.Resolved? {
        outcome := Finish(table, f, script.report);
      } else {
        outcome := ReportFailure(table, f, script.ending.error, script);
      }
    }

    /** The timer's heartbeats; seeing a cancellation request aborts the handler. */
    method Heartbeats(table: Table, f: Fence, leaseSeconds: int, ms: seq<Moment>) returns (cancelRequested: bool)
      requires table.Valid()
      modifies table
      ensures table.Valid() && table.Contents() == After(old(table.Contents()), Beats(ms, f, leaseSeconds))
      ensures cancelRequested <==> Saw(old(table.Contents()), ms, f, leaseSeconds)
    {
      ghost var start := table.Contents();
      cancelRequested := false;
      for k := 0 to |ms|
        invariant table.Valid() && table.Contents() == After(start, Beats(ms[..k], f, leaseSeconds))
        invariant cancelRequested <==> Saw(start, ms[..k], f, leaseSeconds)
      {
        assert ms[..k + 1][..k] == ms[..k];
        AfterAppend(start, Beats(ms[..k], f, leaseSeconds), Turn(ms[k], f, Heartbeat(leaseSeconds)));
        SawMore(start, ms, f, leaseSeconds, k);
        var seen := Beat(table, f, leaseSeconds, ms[k]);
        cancelRequested := cancelRequested || seen;
      }
      assert ms[..|ms|] == ms;
    }

    method Beat(table: Table, f: Fence, leaseSeconds: int, m: Moment) returns (seen: bool)
      requires table.Valid()
      modifies table
      ensures table.Valid() && table.Contents() == After(old(table.Contents()), Turn(m, f, Heartbeat(leaseSeconds)))
      ensures seen <==> CancelSeen(Met(old(table.Contents()), m), f)
    {
      TurnTaken(table.Contents(), m, f, Heartbeat(leaseSeconds));
      table.Interfere(m.others);
      var row := table.HeartbeatJob(f, leaseSeconds, m.now);
      seen := row.Some? && row.value.Some?;
    }

    method Acknowledge(table: Table, f: Fence, m: Moment) returns (acked: bool)
      requires table.Valid()
      modifies table
      ensures table.Valid() && table.Contents() == After(old(table.Contents()), Turn(m, f, AckCancel))
      ensures acked <==> CancelSeen(Met(old(table.Contents()), m), f)
    {
      TurnTaken(table.Contents(), m, f, AckCancel);
      table.Interfere(m.others);
      acked := table.AcknowledgeCancellation(f, m.now);
    }

    method Finish(table: Table, f: Fence, m: Moment) returns (outcome: Outcome)
      requires table.Valid()
      modifies table
      ensures table.Valid() && table.Contents() == After(old(table.Contents()), Turn(m, f, Complete))
      ensures outcome == if OwnedIn(Met(old(table.Contents()), m), f) then RunSucceeded else OwnershipLost
    {
      TurnTaken(table.Contents(), m, f, Complete);
      table.Interfere(m.others);
      var hit := table.CompleteJob(f, m.now);
      outcome := if hit then RunSucceeded else OwnershipLost;
    }

    method ReportFailure(table: Table, f: Fence, e: Thrown, script: Script) returns (outcome: Outcome)
      requires table.Valid() && f.worker == workerId
      modifies table
      ensures table.Valid()
      ensures var report := FailureReport(e, script, f.attempt, f.worker, backoff, maxErrorHistory);
        && table.Contents() == After(old(table.Contents()), Turn(script.report, f, report))
        && outcome == Answer(Met(old(table.Contents()), script.report), f, report)
      ensures var met := Met(old(table.Contents()), script.report);
        if !OwnedIn(met, f) then outcome == OwnershipLost && table.Contents() == met
        else
          && f.id in table.jobs
          && FailureLeft(met.jobs[f.id], table.jobs[f.id], e, script, f, backoff, maxErrorHistory)
          && outcome == if Hopeless(e, script.timedOut) || f.attempt == met.jobs[f.id].maxAttempts then RunDead
                        else RunRetried
    {
      var m := script.report;
      var kind := if script.timedOut then Timeout else if e.Other? then e.kind else HandlerError;
      var nonRetryable := e.NonRetryableError? || kind == ValidationError || kind == NoHandler;
      var delay := DelayOf(
        if e.RetryAfterError? then RetryAfter(e.requestedMs) else Computed(f.attempt, script.random), backoff);
      var error := ErrorRecord(f.attempt, m.now, kind, Some(workerId));
      TurnTaken(table.Contents(), m, f, Fail(nonRetryable, delay, maxErrorHistory, error));
      table.Interfere(m.others);
      ghost var met := table.Contents();
      var row := table.FailJob(f, nonRetryable, delay, maxErrorHistory, error, m.now);
      Reported(met, f, Fail(nonRetryable, delay, maxErrorHistory, error), m.now);
      if OwnedIn(met, f) {
        ReportLeaves(met, f, e, script, backoff, maxErrorHistory);
      }
      outcome := if row.None? then OwnershipLost else if row.value.state == Dead then RunDead else RunRetried;
    }
  }

  /** The reports runners send are the ones the run-level theorems assume. */
  lemma RunnerReportsFit(f: Fence, e: Thrown, script: Script, o: Options, history: int)
    requires Configured(o) && 0.0 <= script.random < 1.0
    ensures var s := Send(f, FailureReport(e, script, f.attempt, f.worker, o, history));
      Stamped(s) && SendsBackoff(s, o)
  {
    var d := if e.RetryAfterError? then RetryAfter(e.requestedMs) else Computed(f.attempt, script.random);
    assert Drawn(d);
  }
}
