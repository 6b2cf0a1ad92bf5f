/**
 Slot accounting of the worker pool. The claim loop is the only one to take slots; handlers
 finish, and give them back, at any moment, in particular while a claim is awaited.
 */
module Pool {
  import opened Wrappers
  import opened Jobs
  import opened Statements

  datatype Ending = EndSucceeded | EndRetried | EndDead | EndCancelled | EndLost | EndThrew

  datatype Counters = Counters(claimed: nat, succeeded: nat, failed: nat, dead: nat, cancelled: nat, ownershipLost: nat)

  /** A promise, by its number, together with the job id its cleanup will remove. */
  type Runs = map<nat, Id>

  /**
   `inFlight` and `active` map a job id to the latest run spawned for it. `executing` (runs not
   yet over), `spawned` and `threw` are not kept by the pool; they say what is really going on.
   */
  datatype State = State(
    concurrency: nat,
    batchMax: nat,
    inFlight: map<Id, nat>,
    active: map<Id, nat>,
    asked: Option<nat>,
    counters: Counters,
    executing: Runs,
    spawned: nat,
    threw: nat)

  datatype Event =
    | Ask
    | Answer(jobs: seq<Id>)
    | AnswerFailed
    | End(run: nat, ending: Ending)

  function Capacity(s: State): int {
    s.concurrency - |s.inFlight|
  }

  function Spawn(s: State, job: Id): State {
    s.(inFlight := s.inFlight[job := s.spawned], active := s.active[job := s.spawned],
       executing := s.executing[s.spawned := job], spawned := s.spawned + 1)
  }

  function SpawnAll(s: State, jobs: seq<Id>): State {
    if jobs == [] then s else Spawn(SpawnAll(s, jobs[..|jobs| - 1]), jobs[|jobs| - 1])
  }

  function Received(s: State, n: nat): State {
    s.(asked := None, counters := s.counters.(claimed := s.counters.claimed + n))
  }

  function CountEnding(c: Counters, e: Ending): Counters {
    match e
    case EndSucceeded => c.(succeeded := c.succeeded + 1)
    case EndRetried => c.(failed := c.failed + 1)
    case EndDead => c.(dead := c.dead + 1)
    case EndCancelled => c.(cancelled := c.cancelled + 1)
    case EndLost => c.(ownershipLost := c.ownershipLost + 1)
    case EndThrew => c
  }

  function Counted(c: Counters): nat {
    c.succeeded + c.failed + c.dead + c.cancelled + c.ownershipLost
  }

  /** A claim is awaited by one loop, and answered with distinct rows within its limit. */
  predicate Possible(s: State, e: Event) {
    match e
    case Ask => s.asked.None? && Capacity(s) > 0
    case Answer(jobs) => s.asked.Some? && |jobs| <= s.asked.value && Distinct(jobs)
    case AnswerFailed => s.asked.Some?
    case End(run, _) => run in s.executing
  }

  /** The cleanup deletes by job id, whichever run the entry belongs to. */
  function Step(s: State, e: Event): State {
    if !Possible(s, e) then s
    else
      match e
      case Ask =>
        s.(asked := Some(if Capacity(s) < s.batchMax then Capacity(s) else s.batchMax))
      case Answer(jobs) =>
        SpawnAll(Received(s, |jobs|), jobs)
      case AnswerFailed => s.(asked := None)
      case End(run, ending) =>
        s.(inFlight := s.inFlight - {s.executing[run]},
           active := s.active - {s.executing[run]},
           executing := s.executing - {run},
           counters := CountEnding(s.counters, ending),
           threw := if ending.EndThrew? then s.threw + 1 else s.threw)
  }

  function Steps(s: State, es: seq<Event>): State
    decreases |es|
  {
    if es == [] then s else Steps(Step(s, es[0]), es[1..])
  }

  function Start(concurrency: nat, batchMax: nat): State {
    State(concurrency, batchMax, map[], map[], None, Counters(0, 0, 0, 0, 0, 0), map[], 0, 0)
  }

  // ----- what always holds -----

  function Awaited(s: State): nat {
    if s.asked.Some? then s.asked.value else 0
  }

  /** Slots in use and slots asked for fit; every claim is accounted for; every entry is a live run of its job. */
  ghost predicate Inv(s: State) {
    && |s.inFlight| + Awaited(s) <= s.concurrency
    && s.counters.claimed == Counted(s.counters) + s.threw + |s.executing|
    && (forall r | r in s.executing :: r < s.spawned)
    && s.active == s.inFlight
    && (forall j | j in s.inFlight :: s.inFlight[j] in s.executing && s.executing[s.inFlight[j]] == j)
  }

  lemma {:induction false} SpawnedAll(s: State, jobs: seq<Id>)
    requires forall r | r in s.executing :: r < s.spawned
    requires s.active == s.inFlight
    requires forall j | j in s.inFlight :: s.inFlight[j] in s.executing && s.executing[s.inFlight[j]] == j
    ensures var t := SpawnAll(s, jobs);
      && t == s.(inFlight := t.inFlight, active := t.active, executing := t.executing, spawned := t.spawned)
      && |t.inFlight| <= |s.inFlight| + |jobs| && |t.executing| == |s.executing| + |jobs|
      && (forall r | r in t.executing :: r < t.spawned)
      && t.active == t.inFlight
      && (forall j | j in t.inFlight :: t.inFlight[j] in t.executing && t.executing[t.inFlight[j]] == j)
  {
    if jobs != [] {
      var init, job := jobs[..|jobs| - 1], jobs[|jobs| - 1];
      SpawnedAll(s, init);
      var t := SpawnAll(s, init);
      SizeAfter(t.inFlight, job, t.spawned);
      SizeAfter(t.executing, t.spawned, job);
    }
  }

  lemma SizeAfter<K, V>(m: map<K, V>, k: K, v: V)
    ensures |m[k := v]| == |m| + if k in m then 0 else 1
  {
    var m' := m[k := v];
    assert m'.Keys == m.Keys + {k};
    assert |m'| == |m'.Keys| && |m| == |m.Keys|;
  }

  lemma SizeWithout<K, V>(m: map<K, V>, k: K)
    ensures |m - {k}| == |m| - if k in m then 1 else 0
  {
    var m' := m - {k};
    assert m.Keys == m'.Keys + (if k in m then {k} else {});
    assert |m'| == |m'.Keys| && |m| == |m.Keys|;
  }

  lemma AnswerKept(s: State, jobs: seq<Id>)
    requires Inv(s) && Possible(s, Answer(jobs))
    ensures Inv(Step(s, Answer(jobs)))
  {
    SpawnedAll(Received(s, |jobs|), jobs);
  }

  lemma EndKept(s: State, run: nat, ending: Ending)
    requires Inv(s) && run in s.executing
    ensures Inv(Step(s, End(run, ending)))
  {
    SizeWithout(s.inFlight, s.executing[run]);
    SizeWithout(s.executing, run);
  }

  lemma StepKept(s: State, e: Event)
    requires Inv(s)
    ensures Inv(Step(s, e))
  {
    if Possible(s, e) {
      match e
      case Answer(jobs) => AnswerKept(s, jobs);
      case End(run, ending) => EndKept(s, run, ending);
      case _ =>
    }
  }

  /**
   In every interleaving of claims and completions: never more entries than slots, and every
   job claimed is counted under exactly one outcome, threw, or is still executing.
   */
  lemma {:induction false} SlotsAccounted(s: State, es: seq<Event>)
    requires Inv(s)
    ensures var t := Steps(s, es);
      && |t.inFlight| <= t.concurrency == s.concurrency
      && t.counters.claimed == Counted(t.counters) + t.threw + |t.executing|
      && t.active == t.inFlight && t.inFlight.Keys <= t.executing.Values
      && Inv(t)
    decreases |es|
  {
    if es == [] {
      forall j | j in s.inFlight ensures j in s.executing.Values {
        assert s.inFlight[j] in s.executing.Keys;
      }
    } else {
      StepKept(s, es[0]);
      KeepsSize(s, es[0]);
      SlotsAccounted(Step(s, es[0]), es[1..]);
    }
  }

  lemma KeepsSize(s: State, e: Event)
    requires Inv(s)
    ensures Step(s, e).concurrency == s.concurrency
  {
    if e.Answer? {
      SpawnedAll(Received(s, |e.jobs|), e.jobs);
    }
  }

  // ----- each outcome under its own name -----

  /** How many runs ended this way. */
  function Ended(s: State, es: seq<Event>, ending: Ending): nat
    decreases |es|
  {
    if es == [] then 0
    else
      (if es[0].End? && es[0].run in s.executing && es[0].ending == ending then 1 else 0)
      + Ended(Step(s, es[0]), es[1..], ending)
  }

  lemma {:induction false} SpawnCountsNothing(s: State, jobs: seq<Id>)
    ensures SpawnAll(s, jobs).counters == s.counters && SpawnAll(s, jobs).threw == s.threw
  {
    if jobs != [] {
      SpawnCountsNothing(s, jobs[..|jobs| - 1]);
    }
  }

  lemma StepCounts(s: State, e: Event)
    ensures var c, c', one := s.counters, Step(s, e).counters, [e];
      && c'.succeeded == c.succeeded + Ended(s, one, EndSucceeded)
      && c'.failed == c.failed + Ended(s, one, EndRetried)
      && c'.dead == c.dead + Ended(s, one, EndDead)
      && c'.cancelled == c.cancelled + Ended(s, one, EndCancelled)
      && c'.ownershipLost == c.ownershipLost + Ended(s, one, EndLost)
      && Step(s, e).threw == s.threw + Ended(s, one, EndThrew)
  {
    assert [e][1..] == [];
    if e.Answer? {
      SpawnCountsNothing(Received(s, |e.jobs|), e.jobs);
    }
  }

  lemma EndedFirst(s: State, es: seq<Event>, ending: Ending)
    requires es != []
    ensures Ended(s, es, ending) == Ended(s, [es[0]], ending) + Ended(Step(s, es[0]), es[1..], ending)
  {
    assert [es[0]][1..] == [];
  }

  /** Each counter counts the runs that ended its way, and no others. */
  lemma {:induction false} CountersExact(s: State, es: seq<Event>)
    ensures var c, c' := s.counters, Steps(s, es).counters;
      && c'.succeeded == c.succeeded + Ended(s, es, EndSucceeded) && c'.failed == c.failed + Ended(s, es, EndRetried)
      && c'.dead == c.dead + Ended(s, es, EndDead) && c'.cancelled == c.cancelled + Ended(s, es, EndCancelled)
      && c'.ownershipLost == c.ownershipLost + Ended(s, es, EndLost)
      && Steps(s, es).threw == s.threw + Ended(s, es, EndThrew)
    decreases |es|
  {
    if es != [] {
      StepCounts(s, es[0]);
      CountersExact(Step(s, es[0]), es[1..]);
      forall ending {
        EndedFirst(s, es, ending);
      }
    }
  }

  /**
   The end of a run takes away the entry under its job id, even where that is a later run's, and
   touches no other entry: that run goes on executing without one.
   */
  lemma EndExactly(s: State, run: nat, ending: Ending)
    requires run in s.executing
    ensures var s', job := Step(s, End(run, ending)), s.executing[run];
      && s'.inFlight.Keys == s.inFlight.Keys - {job} && s'.active.Keys == s.active.Keys - {job}
      && (forall j | j in s'.inFlight :: s'.inFlight[j] == s.inFlight[j])
      && s'.executing.Keys == s.executing.Keys - {run}
      && (forall r | r in s'.executing :: s'.executing[r] == s.executing[r])
      && s'.spawned == s.spawned && s'.asked == s.asked
  {
  }

  /** A claim is made while a slot is free, for all the free slots or for a full batch. */
  lemma AskExactly(s: State)
    requires s.asked.None?
    ensures |s.inFlight| >= s.concurrency ==> Step(s, Ask) == s
    ensures |s.inFlight| < s.concurrency ==>
      var n := Step(s, Ask).asked;
      && n.Some? && n.value <= s.batchMax && |s.inFlight| + n.value <= s.concurrency
      && (n.value == s.batchMax || |s.inFlight| + n.value == s.concurrency)
  {
  }

  // ----- when the entries are exactly the executing runs -----

  /** Every executing run has its own entry. */
  ghost predicate Exact(s: State) {
    forall r | r in s.executing :: s.executing[r] in s.inFlight && s.inFlight[s.executing[r]] == r
  }

  /** No job of the answer is still being run by this pool. */
  predicate NoneRunning(s: State, jobs: seq<Id>) {
    forall j | j in jobs :: j !in s.executing.Values
  }

  lemma ExactSize(s: State)
    requires Inv(s) && Exact(s)
    ensures |s.inFlight| == |s.executing| && s.inFlight.Keys == s.executing.Values
  {
    InverseSize(s.inFlight, s.executing);
    forall j | j in s.inFlight ensures j in s.executing.Values {
      assert s.inFlight[j] in s.executing.Keys;
    }
  }

  lemma {:induction false} InverseSize(f: map<Id, nat>, g: Runs)
    requires forall j | j in f :: f[j] in g && g[f[j]] == j
    requires forall r | r in g :: g[r] in f && f[g[r]] == r
    ensures |f| == |g|
    decreases |f|
  {
    if f == map[] {
      assert forall r | r in g :: g[r] in f;
      assert g == map[];
    } else {
      assert f.Keys != {};
      var j :| j in f;
      SizeWithout(f, j);
      SizeWithout(g, f[j]);
      InverseSize(f - {j}, g - {f[j]});
    }
  }

  lemma {:induction false} SpawnedExact(s: State, jobs: seq<Id>)
    requires Exact(s) && Distinct(jobs) && NoneRunning(s, jobs)
    requires forall r | r in s.executing :: r < s.spawned
    ensures var t := SpawnAll(s, jobs);
      && Exact(t)
      && (forall r | r in t.executing :: r < t.spawned)
      && (forall r | r in t.executing :: t.executing[r] in s.executing.Values || t.executing[r] in jobs)
  {
    if jobs != [] {
      var n := |jobs| - 1;
      SpawnedExact(s, jobs[..n]);
      var t := SpawnAll(s, jobs[..n]);
      forall r | r in t.executing ensures t.executing[r] != jobs[n] {
        assert jobs[n] in jobs && jobs[n] !in jobs[..n];
      }
    }
  }

  lemma {:induction false} RunsStay(s: State, jobs: seq<Id>)
    requires forall r | r in s.executing :: r < s.spawned
    ensures var t := SpawnAll(s, jobs);
      && t.spawned == s.spawned + |jobs|
      && (forall r | r in s.executing :: r in t.executing && t.executing[r] == s.executing[r])
      && (forall j | j in jobs :: j in t.inFlight && t.inFlight[j] >= s.spawned)
  {
    if jobs != [] {
      var n := |jobs| - 1;
      RunsStay(s, jobs[..n]);
      assert forall j | j in jobs :: j in jobs[..n] || j == jobs[n];
    }
  }

  lemma ReclaimBreaks(s: State, jobs: seq<Id>)
    requires (forall r | r in s.executing :: r < s.spawned) && !NoneRunning(s, jobs)
    ensures !Exact(SpawnAll(s, jobs))
  {
    RunsStay(s, jobs);
    var j :| j in jobs && j in s.executing.Values;
    var r :| r in s.executing.Keys && s.executing[r] == j;
    var t := SpawnAll(s, jobs);
    assert t.executing[r] == j && t.inFlight[j] != r;
  }

  /** A claim keeps the accounting exact if and only if it returns no job the pool still runs. */
  lemma ExactAfterClaim(s: State, jobs: seq<Id>)
    requires Inv(s) && Exact(s) && Possible(s, Answer(jobs))
    ensures Exact(Step(s, Answer(jobs))) <==> NoneRunning(s, jobs)
  {
    var s' := Received(s, |jobs|);
    assert s'.executing == s.executing && s'.inFlight == s.inFlight && s'.spawned == s.spawned;
    assert Step(s, Answer(jobs)) == SpawnAll(s', jobs);
    if NoneRunning(s, jobs) {
      SpawnedExact(s', jobs);
    } else {
      ReclaimBreaks(s', jobs);
    }
  }

  /** The answers of a run never return a job its pool is still running. */
  ghost predicate NoReclaim(s: State, es: seq<Event>)
    decreases |es|
  {
    es == [] || ((es[0].Answer? ==> NoneRunning(s, es[0].jobs)) && NoReclaim(Step(s, es[0]), es[1..]))
  }

  /** Without such re-claims the entries are the executing handlers, so the limit binds them. */
  lemma {:induction false} ConcurrencyLimited(s: State, es: seq<Event>)
    requires Inv(s) && Exact(s) && NoReclaim(s, es)
    ensures var t := Steps(s, es);
      && |t.executing| == |t.inFlight| <= t.concurrency
      && t.inFlight.Keys == t.active.Keys == t.executing.Values
    decreases |es|
  {
    if es == [] {
      ExactSize(s);
    } else {
      StepKept(s, es[0]);
      if es[0].Answer? && Possible(s, es[0]) {
        ExactAfterClaim(s, es[0].jobs);
      }
      ConcurrencyLimited(Step(s, es[0]), es[1..]);
    }
  }

  function ClaimedOne(s: State, j: Id): State {
    Spawn(Received(s, 1), j)
  }

  lemma AskAnswer(s: State, j: Id, rest: seq<Event>)
    requires s.asked.None? && Capacity(s) >= 1 && s.batchMax >= 1
    ensures Steps(s, [Ask, Answer([j])] + rest) == Steps(ClaimedOne(s, j), rest)
  {
    var es := [Ask, Answer([j])] + rest;
    assert es[1..] == [Answer([j])] + rest && es[1..][1..] == rest;
    OneAnswer(s, j);
  }

  lemma OneAnswer(s: State, j: Id)
    requires s.asked.None? && Capacity(s) >= 1 && s.batchMax >= 1
    ensures Step(Step(s, Ask), Answer([j])) == ClaimedOne(s, j)
  {
    var s1 := Step(s, Ask);
    assert [j][..0] == [] && Distinct([j]);
    assert SpawnAll(Received(s1, 1), [j]) == Spawn(SpawnAll(Received(s1, 1), []), j);
    assert Received(s1, 1) == Received(s, 1);
  }

  /** With one, more handlers execute than the pool has slots. */
  lemma ReclaimOvershoots(a: Id, b: Id)
    requires a != b
    ensures var t := Steps(Start(2, 2), [Ask, Answer([a]), Ask, Answer([a]), Ask, Answer([b])]);
      |t.executing| == 3 > t.concurrency == |t.inFlight| == 2
  {
    var es := [Ask, Answer([a]), Ask, Answer([a]), Ask, Answer([b])];
    var s0 := Start(2, 2);
    var s1 := ClaimedOne(s0, a);
    var s2 := ClaimedOne(s1, a);
    var s3 := ClaimedOne(s2, b);
    OvershootSizes(a, b);
    assert es == [Ask, Answer([a])] + es[2..] && es[2..] == [Ask, Answer([a])] + es[4..];
    assert es[4..] == [Ask, Answer([b])] + [];
    AskAnswer(s0, a, es[2..]);
    AskAnswer(s1, a, es[4..]);
    AskAnswer(s2, b, []);
  }

  lemma OvershootSizes(a: Id, b: Id)
    requires a != b
    ensures var s := ClaimedOne(ClaimedOne(ClaimedOne(Start(2, 2), a), a), b);
      |s.executing| == 3 && |s.inFlight| == 2
  {
    var s0 := Start(2, 2);
    Sizes(s0, a);
    Sizes(ClaimedOne(s0, a), a);
    Sizes(ClaimedOne(ClaimedOne(s0, a), a), b);
  }

  lemma Sizes(s: State, j: Id)
    ensures |ClaimedOne(s, j).inFlight| == |s.inFlight| + if j in s.inFlight then 0 else 1
    ensures |ClaimedOne(s, j).executing| == |s.executing| + if s.spawned in s.executing then 0 else 1
  {
    SizeAfter(s.inFlight, j, s.spawned);
    SizeAfter(s.executing, s.spawned, j);
  }

  // ----- how a pool is handed a job it still runs -----

  /**
   A run whose lease expired before its last attempt: one reap and one claim later its own worker
   holds the row again, under the next attempt, while the handler may still be running.
   */
  lemma OwnJobAgain(db: Db, i: Id, worker: string, limit: nat, delay: Time, now: Time, later: Time)
    requires Healthy(db) && i in db.jobs && Expired(db.jobs[i], now) && db.jobs[i].attempt < db.jobs[i].maxAttempts
    requires db.jobs[i].workerId == Some(worker) && !Paused(db.configs, db.jobs[i].queue)
    requires limit > 0 && now + delay <= later
    ensures var r := db.jobs[i]; var reap, claim := Reap(1, delay, [i]), Claim(r.queue, limit, worker, [i]);
      var db' := Apply(db, reap, now);
      && Enabled(db, reap, now) && db' == db.(jobs := db.jobs[i := SetReap(r, delay, now)])
      && Enabled(db', claim, later) && Exec(db', claim, later).Ok?
      && Apply(db', claim, later) == db'.(jobs := db'.jobs[i := SetClaim(SetReap(r, delay, now), worker, later)])
  {
    var r := db.jobs[i];
    var reap, claim := Reap(1, delay, [i]), Claim(r.queue, limit, worker, [i]);
    OneUpdated(db, reap, i, now);
    ApplyHealthy(db, reap, now);
    OneUpdated(Apply(db, reap, now), claim, i, later);
  }

  lemma OneUpdated(db: Db, s: Stmt, i: Id, now: Time)
    requires Healthy(db) && (s.Claim? || s.Reap?) && s.picks == [i] && Enabled(db, s, now)
    requires s.Claim? ==> db.jobs[i].attempt != db.jobs[i].maxAttempts
    ensures Exec(db, s, now) == Ok(Apply(db, s, now))
    ensures Apply(db, s, now) == db.(jobs := db.jobs[i := SetRow(s, db.jobs[i], now)])
  {
    UpdateFits(db, s, now);
    assert i in s.picks && Targets(db, s) == {i};
    assert UpdateRows(db.jobs, {i}, s, now) == db.jobs[i := SetRow(s, db.jobs[i], now)];
  }

  /** What one statement on the table means to the pool of `worker`: its own claims are answered. */
  function Told(s: State, db: Db, e: Statements.Event, worker: string): State {
    if e.stmt.Claim? && e.stmt.worker == worker && Enabled(db, e.stmt, e.now) then
      Step(Step(s, Ask), if Exec(db, e.stmt, e.now).Ok? then Answer(e.stmt.picks) else AnswerFailed)
    else s
  }

  /** The pool after a run of the table in which none of its handlers ends. */
  function Driven(s: State, db: Db, es: seq<Statements.Event>, worker: string): State
    decreases |es|
  {
    if es == [] then s
    else Driven(Told(s, db, es[0], worker), Apply(db, es[0].stmt, es[0].now), es[1..], worker)
  }

  /** Every claim in the name of `worker` is one its pool makes, for the slots it believes free. */
  predicate AsksItself(s: State, db: Db, es: seq<Statements.Event>, worker: string)
    decreases |es|
  {
    es != [] ==>
      && (es[0].stmt.Claim? && es[0].stmt.worker == worker ==>
            Possible(s, Ask) && es[0].stmt.limit == LimitOf(s) && Enabled(db, es[0].stmt, es[0].now))
      && AsksItself(Told(s, db, es[0], worker), Apply(db, es[0].stmt, es[0].now), es[1..], worker)
  }

  const POOL := "w"
  const TWICE := NewJob("q", "t", 0, 2, 30, None, None, None, None)

  /** Job 1 is claimed, outlives its lease, is reaped and claimed again; then job 2 arrives. */
  const ENTERED := Statements.Event(Insert([TWICE]), 0)
  const TAKEN := Statements.Event(Claim("q", 2, POOL, [1]), 0)
  const LAPSED := Statements.Event(Reap(1, 0, [1]), 31 * SECOND)
  const RETAKEN := Statements.Event(Claim("q", 1, POOL, [1]), 31 * SECOND)
  const ANOTHER := Statements.Event(Insert([TWICE]), 32 * SECOND)
  const THIRD := Statements.Event(Claim("q", 1, POOL, [2]), 32 * SECOND)
  const RECLAIM_RUN: seq<Statements.Event> := [ENTERED, TAKEN, LAPSED, RETAKEN, ANOTHER, THIRD]

  const B0: Row := FreshRow(TWICE, 0)
  const B1: Row := SetClaim(B0, POOL, 0)
  const B2: Row := SetReap(B1, 0, 31 * SECOND)
  const B3: Row := SetClaim(B2, POOL, 31 * SECOND)
  const C0: Row := FreshRow(TWICE, 32 * SECOND)

  function OneJob(r: Row): Db {
    Db(map[1 := r], 2, map[], [])
  }

  lemma EntersTable()
    ensures Apply(EMPTY, Insert([TWICE]), 0) == OneJob(B0) && Healthy(OneJob(B0))
  {
    ApplyHealthy(EMPTY, Insert([TWICE]), 0);
    assert [TWICE][1..] == [];
    assert InsertAll(map[], 1, [TWICE], 0) == InsertAll(map[1 := B0], 2, [], 0) == map[1 := B0];
  }

  lemma TakenFirst()
    ensures Enabled(OneJob(B0), TAKEN.stmt, 0) && Exec(OneJob(B0), TAKEN.stmt, 0).Ok?
    ensures Apply(OneJob(B0), TAKEN.stmt, 0) == OneJob(B1) && Healthy(OneJob(B1))
  {
    EntersTable();
    OneUpdated(OneJob(B0), TAKEN.stmt, 1, 0);
    ApplyHealthy(OneJob(B0), TAKEN.stmt, 0);
  }

  lemma TakenAgain()
    ensures Apply(OneJob(B1), LAPSED.stmt, LAPSED.now) == OneJob(B2)
    ensures Enabled(OneJob(B2), RETAKEN.stmt, RETAKEN.now) && Exec(OneJob(B2), RETAKEN.stmt, RETAKEN.now).Ok?
    ensures Apply(OneJob(B2), RETAKEN.stmt, RETAKEN.now) == OneJob(B3)
  {
    TakenFirst();
    assert B1.queue == "q";
    OwnJobAgain(OneJob(B1), 1, POOL, 1, 0, 31 * SECOND, 31 * SECOND);
  }

  lemma ThirdTaken()
    ensures var db := Apply(OneJob(B3), ANOTHER.stmt, ANOTHER.now);
      && db == Db(map[1 := B3, 2 := C0], 3, map[], [])
      && Enabled(db, THIRD.stmt, THIRD.now) && Exec(db, THIRD.stmt, THIRD.now).Ok?
  {
    var db := Apply(OneJob(B3), ANOTHER.stmt, ANOTHER.now);
    RunHealthy(db);
    OneUpdated(db, THIRD.stmt, 2, THIRD.now);
  }

  lemma RunHealthy(db: Db)
    requires db == Apply(OneJob(B3), ANOTHER.stmt, ANOTHER.now)
    ensures Healthy(db) && db == Db(map[1 := B3, 2 := C0], 3, map[], [])
  {
    TakenFirst();
    TakenAgain();
    ApplyHealthy(OneJob(B1), LAPSED.stmt, LAPSED.now);
    ApplyHealthy(OneJob(B2), RETAKEN.stmt, RETAKEN.now);
    ApplyHealthy(OneJob(B3), ANOTHER.stmt, ANOTHER.now);
    assert [TWICE][1..] == [];
    assert InsertAll(map[1 := B3], 2, [TWICE], ANOTHER.now)
        == InsertAll(map[1 := B3, 2 := C0], 3, [], ANOTHER.now) == map[1 := B3, 2 := C0];
  }

  lemma ToldOne(s: State, db: Db, e: Statements.Event, j: Id, rest: seq<Statements.Event>)
    requires Possible(s, Ask) && Capacity(s) >= 1 && s.batchMax >= 1
    requires e.stmt.Claim? && e.stmt.worker == POOL && e.stmt.picks == [j] && Enabled(db, e.stmt, e.now)
    requires Exec(db, e.stmt, e.now).Ok? && e.stmt.limit == LimitOf(s)
    ensures var db' := Apply(db, e.stmt, e.now);
      && Driven(s, db, [e] + rest, POOL) == Driven(ClaimedOne(s, j), db', rest, POOL)
      && (AsksItself(s, db, [e] + rest, POOL) <==> AsksItself(ClaimedOne(s, j), db', rest, POOL))
  {
    OneAnswer(s, j);
    assert ([e] + rest)[1..] == rest;
  }

  lemma ToldNothing(s: State, db: Db, e: Statements.Event, rest: seq<Statements.Event>)
    requires !e.stmt.Claim?
    ensures var db' := Apply(db, e.stmt, e.now);
      && Driven(s, db, [e] + rest, POOL) == Driven(s, db', rest, POOL)
      && (AsksItself(s, db, [e] + rest, POOL) <==> AsksItself(s, db', rest, POOL))
  {
    assert ([e] + rest)[1..] == rest;
  }

  /** Six statements on an empty table, after which a pool of two slots executes three handlers. */
  lemma ReclaimRun()
    ensures AsksItself(Start(2, 2), EMPTY, RECLAIM_RUN, POOL)
    ensures var t := Driven(Start(2, 2), EMPTY, RECLAIM_RUN, POOL);
      |t.executing| == 3 > t.concurrency == |t.inFlight| == 2
  {
    var es := RECLAIM_RUN;
    var s0 := Start(2, 2);
    var s1 := ClaimedOne(s0, 1);
    var s2 := ClaimedOne(s1, 1);
    var s3 := ClaimedOne(s2, 2);
    assert es == [ENTERED] + es[1..] && es[1..] == [TAKEN] + es[2..] && es[2..] == [LAPSED] + es[3..];
    assert es[3..] == [RETAKEN] + es[4..] && es[4..] == [ANOTHER] + es[5..] && es[5..] == [THIRD] + [];
    Sizes(s0, 1);
    Sizes(s1, 1);
    EntersTable();
    TakenFirst();
    TakenAgain();
    ThirdTaken();
    ToldNothing(s0, EMPTY, ENTERED, es[1..]);
    ToldOne(s0, OneJob(B0), TAKEN, 1, es[2..]);
    ToldNothing(s1, OneJob(B1), LAPSED, es[3..]);
    ToldOne(s1, OneJob(B2), RETAKEN, 1, es[4..]);
    ToldNothing(s2, OneJob(B3), ANOTHER, es[5..]);
    ToldOne(s2, Apply(OneJob(B3), ANOTHER.stmt, ANOTHER.now), THIRD, 2, []);
    OvershootSizes(1, 2);
  }

  // ----- the claim loop -----

  lemma {:induction false} StepsAppend(s: State, a: seq<Event>, b: seq<Event>)
    ensures Steps(s, a + b) == Steps(Steps(s, a), b)
    decreases |a|
  {
    if a == [] {
      assert a + b == b;
    } else {
      assert (a + b)[1..] == a[1..] + b;
      StepsAppend(Step(s, a[0]), a[1..], b);
    }
  }

  lemma OneMore(s: State, a: seq<Event>, e: Event)
    ensures Steps(s, a + [e]) == Step(Steps(s, a), e)
  {
    StepsAppend(s, a, [e]);
    assert [e][1..] == [];
    assert Steps(Steps(s, a), [e]) == Steps(Step(Steps(s, a), e), []);
  }

  /** What the pool's surroundings do during one claim: runs that end while it is awaited, and its answer. */
  datatype Reply = Reply(ends: seq<Event>, jobs: Option<seq<Id>>, stop: bool)

  predicate Honest(r: Reply, limit: nat) {
    && (forall e | e in r.ends :: e.End?)
    && (r.jobs.Some? ==> |r.jobs.value| <= limit && Distinct(r.jobs.value))
  }

  /** One awaited claim: asked for, whatever ends meanwhile, and answered or failed. */
  function Claimed(r: Reply): seq<Event> {
    [Ask] + r.ends + [match r.jobs case Some(jobs) => Answer(jobs) case None => AnswerFailed]
  }

  function LimitOf(s: State): int {
    if Capacity(s) < s.batchMax then Capacity(s) else s.batchMax
  }

  /**
   The claims of one pass from queue `q` on: each queue in turn is asked for as many jobs as
   there are free slots, within the batch limit, until the slots are used up, the pool is
   stopped or a claim fails.
   */
  function PassOver(s: State, running: bool, q: nat, queues: nat, replies: (nat, nat) -> Reply): seq<Event>
    decreases queues - q
  {
    if q >= queues || !running || Capacity(s) <= 0 then []
    else
      var r := replies(q, LimitOf(s));
      Claimed(r) + if r.jobs.None? then [] else PassOver(Steps(s, Claimed(r)), !r.stop, q + 1, queues, replies)
  }

  /** How many jobs the answers among these events bring. */
  function JobsIn(es: seq<Event>): nat {
    if es == [] then 0
    else (if es[0].Answer? then |es[0].jobs| else 0) + JobsIn(es[1..])
  }

  function AsksIn(es: seq<Event>): nat {
    if es == [] then 0 else (if es[0].Ask? then 1 else 0) + AsksIn(es[1..])
  }

  lemma {:induction false} AsksAppend(a: seq<Event>, b: seq<Event>)
    ensures AsksIn(a + b) == AsksIn(a) + AsksIn(b)
    decreases |a|
  {
    if a == [] {
      assert a + b == b;
    } else {
      assert (a + b)[1..] == a[1..] + b;
      AsksAppend(a[1..], b);
    }
  }

  lemma {:induction false} EndsAskNothing(ends: seq<Event>)
    requires forall e | e in ends :: e.End?
    ensures AsksIn(ends) == 0
  {
    if ends != [] {
      assert ends[0] in ends;
      EndsAskNothing(ends[1..]);
    }
  }

  lemma ClaimAsksOnce(r: Reply)
    requires forall e | e in r.ends :: e.End?
    ensures AsksIn(Claimed(r)) == 1
  {
    var last := match r.jobs case Some(jobs) => Answer(jobs) case None => AnswerFailed;
    EndsAskNothing(r.ends);
    AsksAppend([Ask] + r.ends, [last]);
    AsksAppend([Ask], r.ends);
    assert [Ask][1..] == [] && [last][1..] == [];
  }

  /** A pass that is not stopped, fails nowhere and ends with a slot free has asked for every queue once. */
  lemma {:induction false} PassAsksEveryQueue(s: State, q: nat, queues: nat, replies: (nat, nat) -> Reply)
    requires q <= queues
    requires forall q, n: nat :: Honest(replies(q, n), n) && replies(q, n).jobs.Some? && !replies(q, n).stop
    requires Capacity(Steps(s, PassOver(s, true, q, queues, replies))) > 0
    ensures AsksIn(PassOver(s, true, q, queues, replies)) == queues - q
    decreases queues - q
  {
    if q < queues && Capacity(s) > 0 {
      var r := replies(q, LimitOf(s));
      var s' := Steps(s, Claimed(r));
      StepsAppend(s, Claimed(r), PassOver(s', true, q + 1, queues, replies));
      PassAsksEveryQueue(s', q + 1, queues, replies);
      AsksAppend(Claimed(r), PassOver(s', true, q + 1, queues, replies));
      ClaimAsksOnce(r);
    }
  }

  class WorkerPool {
    const concurrency: nat
    const claimBatchMax: nat
    var inFlight: map<Id, nat>
    var active: map<Id, nat>
    var counters: Counters
    var running: bool
    var nextRun: nat
    var closures: Runs
    ghost var asked: Option<nat>
    ghost var threw: nat

    ghost function Contents(): State
      reads this
    {
      State(concurrency, claimBatchMax, inFlight, active, asked, counters, closures, nextRun, threw)
    }

    constructor (concurrency: nat, claimBatchMax: nat)
      ensures Contents() == Start(concurrency, claimBatchMax) && running
    {
      this.concurrency, this.claimBatchMax := concurrency, claimBatchMax;
      inFlight, active, counters := map[], map[], Counters(0, 0, 0, 0, 0, 0);
      running, nextRun, closures, asked, threw := true, 0, map[], None, 0;
    }

    method SpawnJob(job: Id)
      modifies this
      ensures Contents() == Spawn(old(Contents()), job) && running == old(running)
    {
      active := active[job := nextRun];
      closures := closures[nextRun := job];
      inFlight := inFlight[job := nextRun];
      nextRun := nextRun + 1;
    }

    /** The end of one handler's promise: count the outcome, then give the slot back. */
    method Finish(run: nat, ending: Ending)
      requires run in closures
      modifies this
      ensures Contents() == Step(old(Contents()), End(run, ending)) && running == old(running)
    {
      match ending {
        case EndSucceeded => counters := counters.(succeeded := counters.succeeded + 1);
        case EndRetried => counters := counters.(failed := counters.failed + 1);
        case EndDead => counters := counters.(dead := counters.dead + 1);
        case EndCancelled => counters := counters.(cancelled := counters.cancelled + 1);
        case EndLost => counters := counters.(ownershipLost := counters.ownershipLost + 1);
        case EndThrew => threw := threw + 1;
      }
      var job := closures[run];
      active := active - {job};
      inFlight := inFlight - {job};
      closures := closures - {run};
    }

    method FinishAll(ends: seq<Event>)
      requires forall e | e in ends :: e.End?
      modifies this
      ensures Contents() == Steps(old(Contents()), ends) && running == old(running)
    {
      for k := 0 to |ends|
        invariant Contents() == Steps(old(Contents()), ends[..k]) && running == old(running)
      {
        OneMore(old(Contents()), ends[..k], ends[k]);
        assert ends[..k + 1] == ends[..k] + [ends[k]] && ends[k] in ends;
        if ends[k].run in closures {
          Finish(ends[k].run, ends[k].ending);
        }
      }
      assert ends[..|ends|] == ends;
    }

    method SpawnJobs(jobs: seq<Id>)
      modifies this
      ensures Contents() == SpawnAll(old(Contents()), jobs) && running == old(running)
    {
      for k := 0 to |jobs|
        invariant Contents() == SpawnAll(old(Contents()), jobs[..k]) && running == old(running)
      {
        assert jobs[..k + 1][..k] == jobs[..k];
        SpawnJob(jobs[k]);
      }
      assert jobs[..|jobs|] == jobs;
    }

    /** The await of a claim: runs end, and stop may be called. */
    method AwaitClaim(limit: nat, reply: Reply)
      requires asked.None? && Capacity(Contents()) > 0 && forall e | e in reply.ends :: e.End?
      requires limit == if Capacity(Contents()) < claimBatchMax then Capacity(Contents()) else claimBatchMax
      modifies this
      ensures Contents() == Steps(old(Contents()), [Ask] + reply.ends) && asked == Some(limit)
      ensures running <==> old(running) && !reply.stop
    {
      ghost var start := Contents();
      asked := Some(limit);
      OneMore(start, [], Ask);
      assert [] + [Ask] == [Ask];
      StepsAppend(start, [Ask], reply.ends);
      AskedStays(Contents(), reply.ends);
      FinishAll(reply.ends);
      running := running && !reply.stop;
    }

    /** Its rows arrive: count them, and start a handler for each. */
    method Receive(jobs: seq<Id>)
      requires Possible(Contents(), Answer(jobs))
      modifies this
      ensures Contents() == Step(old(Contents()), Answer(jobs)) && asked.None? && running == old(running)
    {
      SpawnAsks(Received(Contents(), |jobs|), jobs);
      asked := None;
      counters := counters.(claimed := counters.claimed + |jobs|);
      SpawnJobs(jobs);
    }

    /** One awaited claim; an error reaches the loop's catch. */
    method ClaimQueue(limit: nat, reply: Reply) returns (claimed: nat, failed: bool)
      requires asked.None? && Capacity(Contents()) > 0 && limit == LimitOf(Contents()) && Honest(reply, limit)
      modifies this
      ensures Contents() == Steps(old(Contents()), Claimed(reply)) && asked.None?
      ensures failed <==> reply.jobs.None?
      ensures claimed == if failed then 0 else |reply.jobs.value|
      ensures running <==> old(running) && !reply.stop
    {
      AwaitClaim(limit, reply);
      ghost var events := [Ask] + reply.ends;
      if reply.jobs.None? {
        OneMore(old(Contents()), events, AnswerFailed);
        asked := None;
        return 0, true;
      }
      OneMore(old(Contents()), events, Answer(reply.jobs.value));
      Receive(reply.jobs.value);
      return |reply.jobs.value|, false;
    }

    /**
     One pass over the queues. Whatever ends or stops meanwhile, the pool makes exactly the
     claims of `PassOver`, never for more than the free slots, and reports whether they brought
     any job.
     */
    method ClaimPass(queues: nat, replies: (nat, nat) -> Reply) returns (claimedAny: bool, ghost events: seq<Event>)
      requires Inv(Contents()) && asked.None? && forall q, n :: Honest(replies(q, n), n)
      modifies this
      ensures events == PassOver(old(Contents()), old(running), 0, queues, replies)
      ensures Contents() == Steps(old(Contents()), events) && Inv(Contents())
      ensures |inFlight| <= concurrency && asked.None?
      ensures claimedAny <==> JobsIn(events) > 0
      ensures counters.claimed == old(counters.claimed) + JobsIn(events)
    {
      claimedAny, events := false, [];
      ghost var start, all := Contents(), PassOver(Contents(), running, 0, queues, replies);
      for q := 0 to queues
        invariant asked.None? && Inv(Contents()) && Contents() == Steps(start, events)
        invariant all == events + PassOver(Contents(), running, q, queues, replies)
        invariant claimedAny <==> JobsIn(events) > 0
        invariant counters.claimed == old(counters.claimed) + JobsIn(events)
      {
        var capacity := concurrency - |inFlight|;
        if !running || capacity <= 0 {
          break;
        }
        var limit := if capacity < claimBatchMax then capacity else claimBatchMax;
        var reply := replies(q, limit);
        assert Contents().counters == counters;
        PassStep(start, events, Contents(), running, q, queues, replies);
        PassCounts(events, Contents(), reply);
        SlotsAccounted(Contents(), Claimed(reply));
        var claimed, failed;
        claimed, failed := ClaimQueue(limit, reply);
        assert Contents().counters == counters;
        events := events + Claimed(reply);
        claimedAny := claimedAny || claimed > 0;
        if failed {
          break;
        }
      }
      assert events + [] == events;
    }
  }

  /** One more claim of the pass: what it adds to the events, and the state it leads to. */
  lemma PassStep(start: State, events: seq<Event>, s: State, running: bool, q: nat, queues: nat,
                 replies: (nat, nat) -> Reply)
    requires s == Steps(start, events) && q < queues && running && Capacity(s) > 0
    ensures var r := replies(q, LimitOf(s)); var s' := Steps(s, Claimed(r));
      && s' == Steps(start, events + Claimed(r))
      && events + PassOver(s, running, q, queues, replies)
         == events + Claimed(r) + (if r.jobs.None? then [] else PassOver(s', !r.stop, q + 1, queues, replies))
  {
    var r := replies(q, LimitOf(s));
    StepsAppend(start, events, Claimed(r));
    Associates(events, Claimed(r),
               if r.jobs.None? then [] else PassOver(Steps(s, Claimed(r)), !r.stop, q + 1, queues, replies));
  }

  lemma Associates(a: seq<Event>, b: seq<Event>, c: seq<Event>)
    ensures a + (b + c) == a + b + c
  {
  }

  lemma PassCounts(events: seq<Event>, s: State, r: Reply)
    requires Inv(s) && s.asked.None? && Capacity(s) > 0 && Honest(r, LimitOf(s))
    ensures var n := if r.jobs.Some? then |r.jobs.value| else 0;
      && JobsIn(events + Claimed(r)) == JobsIn(events) + n
      && Steps(s, Claimed(r)).counters.claimed == s.counters.claimed + n
  {
    JobsAppend(events, Claimed(r));
    ClaimBrings(s, r);
  }

  lemma {:induction false} JobsAppend(a: seq<Event>, b: seq<Event>)
    ensures JobsIn(a + b) == JobsIn(a) + JobsIn(b)
    decreases |a|
  {
    if a == [] {
      assert a + b == b;
    } else {
      assert (a + b)[1..] == a[1..] + b;
      JobsAppend(a[1..], b);
    }
  }

  lemma {:induction false} EndsBringNone(s: State, ends: seq<Event>)
    requires forall e | e in ends :: e.End?
    ensures JobsIn(ends) == 0 && Steps(s, ends).counters.claimed == s.counters.claimed
    decreases |ends|
  {
    if ends != [] {
      assert ends[0] in ends;
      EndsBringNone(Step(s, ends[0]), ends[1..]);
    }
  }

  /** A claim brings the jobs of its answer, and `claimed` counts them. */
  lemma ClaimBrings(s: State, r: Reply)
    requires Inv(s) && s.asked.None? && Capacity(s) > 0 && Honest(r, LimitOf(s))
    ensures JobsIn(Claimed(r)) == if r.jobs.Some? then |r.jobs.value| else 0
    ensures Steps(s, Claimed(r)).counters.claimed == s.counters.claimed + JobsIn(Claimed(r))
  {
    var last := match r.jobs case Some(jobs) => Answer(jobs) case None => AnswerFailed;
    OneMore(s, [], Ask);
    assert [] + [Ask] == [Ask];
    var asked := Step(s, Ask);
    EndsBringNone(asked, r.ends);
    AskedStays(asked, r.ends);
    StepsAppend(s, [Ask], r.ends);
    OneMore(s, [Ask] + r.ends, last);
    JobsAppend([Ask], r.ends);
    JobsAppend([Ask] + r.ends, [last]);
    assert [Ask][1..] == [] && [last][1..] == [];
    var met := Steps(asked, r.ends);
    if r.jobs.Some? {
      StepKept(s, Ask);
      SlotsAccounted(asked, r.ends);
      SpawnedAll(Received(met, |r.jobs.value|), r.jobs.value);
    }
  }

  lemma {:induction false} AskedStays(s: State, ends: seq<Event>)
    requires forall e | e in ends :: e.End?
    ensures Steps(s, ends).asked == s.asked
    decreases |ends|
  {
    if ends != [] {
      assert ends[0] in ends;
      AskedStays(Step(s, ends[0]), ends[1..]);
    }
  }

  lemma {:induction false} SpawnAsks(s: State, jobs: seq<Id>)
    ensures SpawnAll(s, jobs).asked == s.asked
  {
    if jobs != [] {
      SpawnAsks(s, jobs[..|jobs| - 1]);
    }
  }
}
