/**
 The transition table, the lookup built from it, and the proof that every statement of
 every run only makes transitions the table permits.
 */
module StateMachine {
  import opened Wrappers
  import opened Jobs
  import opened Statements

  datatype Reason =
    | ByClaim | Succeed | Retry | Exhaust | NonRetryable | ReapRetry | ReapExhaust
    | Cancel | CancelAck | OperatorRetry | ByReplay

  datatype Transition = Transition(from: JobState, to: JobState, reason: Reason)

  const TRANSITIONS: seq<Transition> := [
    Transition(Available, Running, ByClaim),
    Transition(Available, Cancelled, Cancel),
    Transition(Running, Succeeded, Succeed),
    Transition(Running, Available, Retry),
    Transition(Running, Dead, Exhaust),
    Transition(Running, Dead, NonRetryable),
    Transition(Running, Available, ReapRetry),
    Transition(Running, Dead, ReapExhaust),
    Transition(Running, Cancelled, CancelAck),
    Transition(Dead, Available, ByReplay),
    Transition(Available, Available, OperatorRetry)]

  const STATES: seq<JobState> := [Available, Running, Succeeded, Dead, Cancelled]

  predicate Listed(from: JobState, to: JobState, n: nat)
    requires n <= |TRANSITIONS|
  {
    exists k | 0 <= k < n :: TRANSITIONS[k].from == from && TRANSITIONS[k].to == to
  }

  predicate CanTransition(from: JobState, to: JobState) {
    Listed(from, to, |TRANSITIONS|)
  }

  /** Builds the lookup of permitted targets, entry by entry. */
  method BuildPermitted() returns (permitted: map<JobState, set<JobState>>)
    ensures permitted.Keys == set s | s in STATES
    ensures forall from, to | from in permitted :: to in permitted[from] <==> CanTransition(from, to)
  {
    permitted := map[];
    for i := 0 to |STATES|
      invariant permitted.Keys == set s | s in STATES[..i]
      invariant forall from | from in permitted :: permitted[from] == {}
    {
      permitted := permitted[STATES[i] := {}];
    }
    assert STATES[..|STATES|] == STATES;
    for k := 0 to |TRANSITIONS|
      invariant permitted.Keys == set s | s in STATES
      invariant forall from, to | from in permitted :: to in permitted[from] <==> Listed(from, to, k)
    {
      var t := TRANSITIONS[k];
      assert t.from in STATES;
      permitted := permitted[t.from := permitted[t.from] + {t.to}];
    }
  }

  /** The table's reason for what `s` does to `r`; three statements have none. */
  function ReasonOf(s: Stmt, r: Row): Option<Reason> {
    match s
    case Claim(_, _, _, _) => Some(ByClaim)
    case Send(_, Complete) => Some(Succeed)
    case Send(_, Fail(nonRetryable, _, _, _)) =>
      if nonRetryable then Some(NonRetryable)
      else if r.attempt >= r.maxAttempts then Some(Exhaust) else Some(Retry)
    case Send(_, AckCancel) => Some(CancelAck)
    case Reap(_, _, _) => if r.attempt >= r.maxAttempts then Some(ReapExhaust) else Some(ReapRetry)
    case Operate(_, CancelAvailable) => Some(Cancel)
    case Operate(_, RetryNow) => Some(OperatorRetry)
    case Operate(_, Replay) => Some(ByReplay)
    case _ => None
  }

  /**
   Every update is an entry of the table, for its own reason. Without a reason are the two
   that keep the state, and the release, which borrows the retry's pair of states.
   */
  lemma UpdateRefinesTable(r: Row, s: Stmt, now: Time)
    requires Updates(s) && Acts(s, r, now)
    ensures var to := SetRow(s, r, now).state;
      match ReasonOf(s, r)
      case Some(reason) => Transition(r.state, to, reason) in TRANSITIONS
      case None =>
        if s.Send? && s.report.Release? then Transition(r.state, to, Retry) in TRANSITIONS
        else to == r.state == Running
  {
    var to := SetRow(s, r, now).state;
    if s.Send? && s.report.Release? {
      assert TRANSITIONS[3] == Transition(r.state, to, Retry);
    } else if ReasonOf(s, r).Some? {
      match ReasonOf(s, r).value
      case ByClaim => assert TRANSITIONS[0] == Transition(r.state, to, ByClaim);
      case Cancel => assert TRANSITIONS[1] == Transition(r.state, to, Cancel);
      case Succeed => assert TRANSITIONS[2] == Transition(r.state, to, Succeed);
      case Retry => assert TRANSITIONS[3] == Transition(r.state, to, Retry);
      case Exhaust => assert TRANSITIONS[4] == Transition(r.state, to, Exhaust);
      case NonRetryable => assert TRANSITIONS[5] == Transition(r.state, to, NonRetryable);
      case ReapRetry => assert TRANSITIONS[6] == Transition(r.state, to, ReapRetry);
      case ReapExhaust => assert TRANSITIONS[7] == Transition(r.state, to, ReapExhaust);
      case CancelAck => assert TRANSITIONS[8] == Transition(r.state, to, CancelAck);
      case ByReplay => assert TRANSITIONS[9] == Transition(r.state, to, ByReplay);
      case OperatorRetry => assert TRANSITIONS[10] == Transition(r.state, to, OperatorRetry);
    }
  }

  /** The pairs of states of the table, one state after the other. */
  lemma MovesExactly(from: JobState, to: JobState)
    ensures CanTransition(from, to) <==>
      match from
      case Available => to in {Running, Cancelled, Available}
      case Running => to in {Succeeded, Available, Dead, Cancelled}
      case Dead => to == Available
      case Succeeded => false
      case Cancelled => false
  {
    assert TRANSITIONS[0].to == Running && TRANSITIONS[1].to == Cancelled && TRANSITIONS[2].to == Succeeded;
    assert TRANSITIONS[3].to == Available && TRANSITIONS[4].to == Dead && TRANSITIONS[8].to == Cancelled;
    assert TRANSITIONS[9].to == Available && TRANSITIONS[10].to == Available;
  }

  const SAMPLE := Row("q", "t", Available, 0, 0, 1, 1, 0, 0, None, None, None, None, None, None, None, None, [], None)
  const HELD := SAMPLE.(state := Running, attempt := 1, maxAttempts := 2, workerId := Some("w"),
                        leaseExpiresAt := Some(0))
  const LAST := HELD.(maxAttempts := 1)
  const ERROR := ErrorRecord(1, 0, HandlerError, Some("w"))

  /** A row and a statement on it that make each entry's move, for its reason. */
  function Witness(reason: Reason): (Row, Stmt) {
    var f := Fence(1, "w", 1);
    match reason
    case ByClaim => (SAMPLE, Claim("q", 1, "w", [1]))
    case Cancel => (SAMPLE, Operate([1], CancelAvailable))
    case OperatorRetry => (SAMPLE, Operate([1], RetryNow))
    case Succeed => (HELD, Send(f, Complete))
    case Retry => (HELD, Send(f, Fail(false, 0, 5, ERROR)))
    case Exhaust => (LAST, Send(f, Fail(false, 0, 5, ERROR)))
    case NonRetryable => (HELD, Send(f, Fail(true, 0, 5, ERROR)))
    case ReapRetry => (HELD, Reap(1, 0, [1]))
    case ReapExhaust => (LAST, Reap(1, 0, [1]))
    case CancelAck => (HELD.(cancelRequestedAt := Some(0)), Send(f, AckCancel))
    case ByReplay => (LAST.(state := Dead, workerId := None, leaseExpiresAt := None), Operate([1], Replay))
  }

  /** The table has no entry too many: each of them is a move some statement makes for its reason. */
  lemma EveryEntryHappens(k: nat)
    requires k < |TRANSITIONS|
    ensures var t := TRANSITIONS[k]; var (r, s) := Witness(t.reason);
      && Updates(s) && Acts(s, r, 1) && ReasonOf(s, r) == Some(t.reason)
      && r.state == t.from && SetRow(s, r, 1).state == t.to
  {
  }

  /** Whatever the step, a row that stays either keeps its state or makes a permitted move. */
  lemma StepRefinesTable(db: Db, s: Stmt, now: Time, i: Id)
    requires Sound(db) && i in db.jobs && i in Apply(db, s, now).jobs
    ensures var from, to := db.jobs[i].state, Apply(db, s, now).jobs[i].state;
      to == from || CanTransition(from, to)
  {
    RowAfter(db, s, now, i);
    var r, r' := db.jobs[i], Apply(db, s, now).jobs[i];
    if r' != r {
      UpdateRefinesTable(r, s, now);
      var reason := if ReasonOf(s, r).Some? then ReasonOf(s, r).value else Retry;
      assert r'.state == r.state || Transition(r.state, r'.state, reason) in TRANSITIONS;
    }
  }

  predicate Replays(s: Stmt, i: Id) {
    s.Operate? && s.admin.Replay? && i in s.ids
  }

  /** No statement on jobs ever changes a terminal row again, except that a replay revives a dead one. */
  lemma {:induction false} TerminalStays(db: Db, es: seq<Event>, i: Id)
    requires Sound(db) && i in db.jobs && IsTerminal(db.jobs[i].state)
    requires db.jobs[i].state == Dead ==> forall e | e in es :: !Replays(e.stmt, i)
    ensures i in Play(db, es).jobs ==> Play(db, es).jobs[i] == db.jobs[i]
    decreases |es|
  {
    if es != [] {
      var s, now := es[0].stmt, es[0].now;
      RowAfter(db, s, now, i);
      ApplySound(db, s, now);
      var db' := Apply(db, s, now);
      if i in db'.jobs {
        assert db'.jobs[i] == db.jobs[i];
        TerminalStays(db', es[1..], i);
      } else {
        GoneStays(db', es[1..], i);
      }
    }
  }
}
