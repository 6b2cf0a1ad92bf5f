/** The two claim orders: strict priority, and priority raised by waiting time. */
module Claims {
  import opened Jobs
  import opened Statements
  import opened Selection
  import Deliveries

  /** ORDER BY priority DESC, run_at, id. */
  function PriorityKey(r: Row, i: Id): Key {
    Key(-r.priority, r.runAt, i)
  }

  /** One point of priority for each full `threshold` seconds a row has been due. */
  function Effective(r: Row, threshold: int, now: Time): int
    requires threshold > 0
  {
    r.priority + (now - r.runAt) / (threshold * SECOND)
  }

  type Threshold = t: int | t > 0 witness 1

  function AgingKey(r: Row, i: Id, threshold: int, now: Time): Key
    requires threshold > 0
  {
    Key(-Effective(r, threshold, now), r.runAt, i)
  }

  /** The rows a claim may choose from: eligible and not locked by another session. */
  function Candidates(db: Db, queue: string, locked: set<Id>, now: Time): set<Id> {
    set i | i in db.jobs && i !in locked && Eligible(db.jobs[i], queue, Paused(db.configs, queue), now)
  }

  function PriorityKeys(db: Db, ids: set<Id>): (keys: Keys)
    requires ids <= db.jobs.Keys
    ensures keys.Keys == ids
  {
    map i | i in ids :: PriorityKey(db.jobs[i], i)
  }

  function AgingKeys(db: Db, ids: set<Id>, threshold: int, now: Time): (keys: Keys)
    requires ids <= db.jobs.Keys && threshold > 0
    ensures keys.Keys == ids
  {
    map i | i in ids :: AgingKey(db.jobs[i], i, threshold, now)
  }

  /** Both orders end in the id, so neither ever ties. */
  lemma OrdersAreStrict(db: Db, ids: set<Id>, threshold: int, now: Time)
    requires ids <= db.jobs.Keys && threshold > 0
    ensures Strict(PriorityKeys(db, ids)) && Strict(AgingKeys(db, ids, threshold, now))
  {
  }

  // ----- what the two claims promise, on the columns -----

  /** The jobs of a queue that are waiting to be claimed. */
  function DueJobs(db: Db, queue: string, locked: set<Id>, now: Time): (due: set<Id>)
    ensures due <= db.jobs.Keys
  {
    if queue in db.configs && db.configs[queue].paused then {}
    else set i | i in db.jobs && i !in locked && db.jobs[i].queue == queue
                 && db.jobs[i].state == Available && db.jobs[i].runAt <= now
  }

  /** Higher priority first, then the one due longer, then the older one. */
  predicate MoreUrgent(r: Row, i: Id, s: Row, j: Id) {
    || r.priority > s.priority
    || (r.priority == s.priority && r.runAt < s.runAt)
    || (r.priority == s.priority && r.runAt == s.runAt && i < j)
  }

  /** The same with a point added to the priority for each full threshold the job has been due. */
  predicate MoreUrgentAged(r: Row, i: Id, s: Row, j: Id, threshold: Threshold, now: Time) {
    var a := r.priority + (now - r.runAt) / (threshold * 1_000_000);
    var b := s.priority + (now - s.runAt) / (threshold * 1_000_000);
    || a > b
    || (a == b && r.runAt < s.runAt)
    || (a == b && r.runAt == s.runAt && i < j)
  }

  /** No repetition, only waiting jobs, and fewer than the limit only if no other is waiting. */
  predicate Takes(picks: seq<Id>, due: set<Id>, limit: nat) {
    && |picks| <= limit
    && (forall a, b | 0 <= a < b < |picks| :: picks[a] != picks[b])
    && (forall i | i in picks :: i in due)
    && (|picks| < limit ==> forall j | j in due :: j in picks)
  }

  lemma TakesAll(picks: seq<Id>, keys: Keys, limit: nat)
    requires IsFirst(picks, keys, limit)
    ensures Takes(picks, keys.Keys, limit)
  {
    assert |keys.Keys| == |keys|;
    if |picks| < limit {
      AllPicked(picks, keys.Keys);
    }
  }

  lemma {:induction false} AllPicked(picks: seq<Id>, ids: set<Id>)
    requires Distinct(picks) && (forall i | i in picks :: i in ids) && |picks| == |ids|
    ensures forall j | j in ids :: j in picks
  {
    if picks != [] {
      var n := |picks| - 1;
      assert forall i | i in picks[..n] :: i in ids - {picks[n]};
      AllPicked(picks[..n], ids - {picks[n]});
      assert forall j | j in ids :: j == picks[n] || j in ids - {picks[n]};
    }
  }

  /** The most urgent of the due jobs, most urgent first, and none of them passed over. */
  ghost predicate TakesMostUrgent(jobs: map<Id, Row>, picks: seq<Id>, due: set<Id>, limit: nat)
    requires due <= jobs.Keys
  {
    && Takes(picks, due, limit)
    && (forall a, b | 0 <= a < b < |picks| ::
          picks[a] in due && picks[b] in due && MoreUrgent(jobs[picks[a]], picks[a], jobs[picks[b]], picks[b]))
    && (forall i, j | i in picks && j in due && j !in picks :: MoreUrgent(jobs[i], i, jobs[j], j))
  }

  ghost predicate TakesMostUrgentAged(jobs: map<Id, Row>, picks: seq<Id>, due: set<Id>, limit: nat,
                                      threshold: Threshold, now: Time)
    requires due <= jobs.Keys
  {
    && Takes(picks, due, limit)
    && (forall a, b | 0 <= a < b < |picks| ::
          && picks[a] in due && picks[b] in due
          && MoreUrgentAged(jobs[picks[a]], picks[a], jobs[picks[b]], picks[b], threshold, now))
    && (forall i, j | i in picks && j in due && j !in picks ::
          MoreUrgentAged(jobs[i], i, jobs[j], j, threshold, now))
  }

  lemma MostUrgentFirst(db: Db, picks: seq<Id>, queue: string, locked: set<Id>, limit: nat, now: Time)
    requires IsFirst(picks, PriorityKeys(db, Candidates(db, queue, locked, now)), limit)
    ensures TakesMostUrgent(db.jobs, picks, DueJobs(db, queue, locked, now), limit)
  {
    var keys := PriorityKeys(db, Candidates(db, queue, locked, now));
    assert keys.Keys == DueJobs(db, queue, locked, now);
    TakesAll(picks, keys, limit);
    assert forall a | 0 <= a < |picks| :: picks[a] in picks;
  }

  lemma MostUrgentAgedFirst(db: Db, picks: seq<Id>, queue: string, locked: set<Id>, threshold: Threshold, limit: nat,
                            now: Time)
    requires IsFirst(picks, AgingKeys(db, Candidates(db, queue, locked, now), threshold, now), limit)
    ensures TakesMostUrgentAged(db.jobs, picks, DueJobs(db, queue, locked, now), limit, threshold, now)
  {
    var keys := AgingKeys(db, Candidates(db, queue, locked, now), threshold, now);
    assert keys.Keys == DueJobs(db, queue, locked, now);
    TakesAll(picks, keys, limit);
    assert forall a | 0 <= a < |picks| :: picks[a] in picks;
    AgedByKey(db, picks, DueJobs(db, queue, locked, now), threshold, now);
  }

  lemma AgedByKey(db: Db, picks: seq<Id>, due: set<Id>, threshold: Threshold, now: Time)
    ensures forall i, j | i in due && j in due && i in db.jobs && j in db.jobs ::
      Less(AgingKey(db.jobs[i], i, threshold, now), AgingKey(db.jobs[j], j, threshold, now))
      <==> MoreUrgentAged(db.jobs[i], i, db.jobs[j], j, threshold, now)
  {
  }

  // ----- aging -----

  lemma MulSign(n: int, d: int)
    requires d > 0
    ensures n >= 1 ==> n * d >= d
    ensures n <= -1 ==> n * d <= -d
  {
  }

  lemma DivUnique(x: int, d: int, q: int, m: int)
    requires d > 0 && x == q * d + m && 0 <= m < d
    ensures x / d == q
  {
    MulSign(q - x / d, d);
    assert (q - x / d) * d == q * d - x / d * d;
  }

  lemma DivShift(x: int, k: int, d: int)
    requires d > 0
    ensures (x + k * d) / d == x / d + k
  {
    assert x + k * d == (x / d + k) * d + x % d;
    DivUnique(x + k * d, d, x / d + k, x % d);
  }

  lemma DivMonotone(x: int, y: int, d: int)
    requires d > 0 && x <= y
    ensures x / d <= y / d
  {
    MulSign(x / d - y / d, d);
    assert (x / d - y / d) * d == x / d * d - y / d * d;
  }

  /**
   The exact price of priority: the row that became due first stays ahead at every instant at
   which both are due if and only if its head start is at least one threshold for each point
   of priority the other has on it.
   */
  lemma AgingExact(a: Row, i: Id, b: Row, j: Id, threshold: int)
    requires threshold > 0 && a.runAt < b.runAt
    ensures
      (forall now | now >= b.runAt :: Less(AgingKey(a, i, threshold, now), AgingKey(b, j, threshold, now)))
      <==> b.runAt - a.runAt >= (b.priority - a.priority) * (threshold * SECOND)
  {
    var t := threshold * SECOND;
    var gap, lead := b.priority - a.priority, b.runAt - a.runAt;
    if lead >= gap * t {
      forall now | now >= b.runAt
        ensures Less(AgingKey(a, i, threshold, now), AgingKey(b, j, threshold, now))
      {
        DivShift(now - b.runAt, gap, t);
        DivMonotone(now - b.runAt + gap * t, now - a.runAt, t);
      }
    } else {
      var now := b.runAt;
      DivUnique(0, t, 0, 0);
      MulSign(lead / t - gap, t);
      assert (lead / t - gap) * t == lead / t * t - gap * t;
      assert !Less(AgingKey(a, i, threshold, now), AgingKey(b, j, threshold, now));
    }
  }

  /**
   No starvation: a due job passed over by an uncontended claim was passed over only in favour
   of jobs due less than 65535 thresholds after it, whatever their priority.
   */
  lemma OvertakenOnlyByOlder(db: Db, queue: string, threshold: int, limit: nat, now: Time, picks: seq<Id>, i: Id, j: Id)
    requires threshold > 0 && i in Candidates(db, queue, {}, now) && i !in picks && j in picks
    requires IsFirst(picks, AgingKeys(db, Candidates(db, queue, {}, now), threshold, now), limit)
    requires InRange(db)
    ensures db.jobs[j].runAt < db.jobs[i].runAt + (MAX_PRIORITY - MIN_PRIORITY) * (threshold * SECOND)
  {
    assert j in Candidates(db, queue, {}, now);
    var a, b := db.jobs[i], db.jobs[j];
    var t := threshold * SECOND;
    if a.runAt < b.runAt {
      assert !Less(AgingKey(a, i, threshold, now), AgingKey(b, j, threshold, now));
      AgingExact(a, i, b, j, threshold);
      LeadAtMost(b.priority - a.priority, MAX_PRIORITY - MIN_PRIORITY, t);
    }
  }

  lemma LeadAtMost(gap: int, most: int, t: int)
    requires t > 0 && gap <= most
    ensures gap * t <= most * t
  {
    MulSign(most - gap, t);
    assert (most - gap) * t == most * t - gap * t;
  }

  ghost predicate InRange(db: Db) {
    forall i | i in db.jobs :: MIN_PRIORITY <= db.jobs[i].priority <= MAX_PRIORITY
  }

  /** No statement writes a priority, and an insert only takes a smallint. */
  lemma InRangeKept(db: Db, s: Stmt, now: Time)
    requires Sound(db) && InRange(db)
    ensures InRange(Apply(db, s, now))
  {
    var db' := Apply(db, s, now);
    forall i | i in db'.jobs ensures MIN_PRIORITY <= db'.jobs[i].priority <= MAX_PRIORITY {
      if i in db.jobs {
        RowAfter(db, s, now, i);
        KeysKept(db.jobs[i], s, now);
      } else {
        InsertAllSpec(db.jobs, db.nextId, s.batch, now);
        assert s.batch[i - db.nextId] in s.batch;
      }
    }
  }

  lemma {:induction false} InRangeAlways(db: Db, es: seq<Event>)
    requires Sound(db) && InRange(db)
    ensures Sound(Play(db, es)) && InRange(Play(db, es))
    decreases |es|
  {
    if es != [] {
      InRangeKept(db, es[0].stmt, es[0].now);
      ApplySound(db, es[0].stmt, es[0].now);
      InRangeAlways(Apply(db, es[0].stmt, es[0].now), es[1..]);
    }
  }

  /** `e` is an uncontended aging claim of the queue that leaves the due job `i` where it is. */
  ghost predicate PassesOver(db: Db, e: Event, queue: string, threshold: int, i: Id)
    requires threshold > 0
  {
    && e.stmt.Claim? && e.stmt.queue == queue
    && i in Candidates(db, queue, {}, e.now) && i !in e.stmt.picks
    && IsFirst(e.stmt.picks, AgingKeys(db, Candidates(db, queue, {}, e.now), threshold, e.now), e.stmt.limit)
  }

  /** Statement `k` of a run from the empty database passes job `i` over. */
  ghost predicate PassedAt(es: seq<Event>, k: nat, queue: string, threshold: int, i: Id)
    requires threshold > 0 && k < |es|
  {
    PassesOver(Play(EMPTY, es[..k]), es[k], queue, threshold, i)
  }

  /**
   In every run, among everything else: as long as a job's run_at stays what it is, each
   uncontended claim that passes it over does so only for jobs due less than 65535 thresholds
   later, so jobs due from then on never overtake it.
   */
  lemma NoStarvation(es: seq<Event>, queue: string, threshold: int, i: Id, due: Time)
    requires threshold > 0
    requires forall k | 0 <= k < |es| && PassedAt(es, k, queue, threshold, i) ::
      Play(EMPTY, es[..k]).jobs[i].runAt == due
    ensures forall k, j | 0 <= k < |es| && PassedAt(es, k, queue, threshold, i) && j in es[k].stmt.picks ::
      j in Play(EMPTY, es[..k]).jobs
      && Play(EMPTY, es[..k]).jobs[j].runAt < due + (MAX_PRIORITY - MIN_PRIORITY) * (threshold * SECOND)
  {
    forall k, j | 0 <= k < |es| && PassedAt(es, k, queue, threshold, i) && j in es[k].stmt.picks
      ensures j in Play(EMPTY, es[..k]).jobs
      ensures Play(EMPTY, es[..k]).jobs[j].runAt < due + (MAX_PRIORITY - MIN_PRIORITY) * (threshold * SECOND)
    {
      var db, claim := Play(EMPTY, es[..k]), es[k].stmt;
      InRangeAlways(EMPTY, es[..k]);
      OvertakenOnlyByOlder(db, queue, threshold, claim.limit, es[k].now, claim.picks, i, j);
    }
  }

  // ----- the row a release leaves behind -----

  datatype Order = ByPriority | Aging(threshold: Threshold)

  function KeyOf(order: Order, r: Row, i: Id, now: Time): Key {
    match order
    case ByPriority => PriorityKey(r, i)
    case Aging(threshold) => AgingKey(r, i, threshold, now)
  }

  function KeysOf(order: Order, db: Db, ids: set<Id>, now: Time): (keys: Keys)
    requires ids <= db.jobs.Keys
    ensures keys.Keys == ids && forall i | i in ids :: keys[i] == KeyOf(order, db.jobs[i], i, now)
  {
    match order
    case ByPriority => PriorityKeys(db, ids)
    case Aging(threshold) => AgingKeys(db, ids, threshold, now)
  }

  /** A claim of `queue` that finds no row locked. */
  ghost predicate Uncontended(db: Db, s: Stmt, order: Order, queue: string, now: Time) {
    && s.Claim? && s.queue == queue
    && IsFirst(s.picks, KeysOf(order, db, Candidates(db, queue, {}, now), now), s.limit)
  }

  /** A row a release handed back with no attempts left, due and first in its queue's order. */
  ghost predicate BlocksQueue(db: Db, order: Order, queue: string, i: Id, now: Time) {
    && i in Candidates(db, queue, {}, now)
    && db.jobs[i].attempt == db.jobs[i].maxAttempts
    && forall j | j in Candidates(db, queue, {}, now) && j != i ::
         Less(KeyOf(order, db.jobs[i], i, now), KeyOf(order, db.jobs[j], j, now))
  }

  /** In either order, an uncontended claim then selects it, is rejected whole, and hands out nothing at all. */
  lemma BlockedQueue(db: Db, order: Order, queue: string, i: Id, now: Time, s: Stmt)
    requires BlocksQueue(db, order, queue, i, now) && Uncontended(db, s, order, queue, now) && s.limit > 0
    ensures i in s.picks && Enabled(db, s, now) && Exec(db, s, now).Rejected? && Apply(db, s, now) == db
  {
    FirstIsPicked(s.picks, KeysOf(order, db, Candidates(db, queue, {}, now), now), s.limit, i);
    assert forall j | j in s.picks :: j in Candidates(db, queue, {}, now);
    RejectedUpdate(db, s, now);
  }

  /** Another job of the queue that waits to be claimed, now or later. */
  predicate Rival(db: Db, i: Id, j: Id)
    requires i in db.jobs
  {
    j in db.jobs && j != i && db.jobs[j].queue == db.jobs[i].queue && db.jobs[j].state == Available
  }

  /** Row `b` comes after row `a` at every instant at which both are due. */
  ghost predicate Behind(order: Order, a: Row, i: Id, b: Row, j: Id) {
    forall now | a.runAt <= now && b.runAt <= now :: Less(KeyOf(order, a, i, now), KeyOf(order, b, j, now))
  }

  /** With aging, a job due later stays behind if and only if it is due later by a threshold per point of its lead. */
  lemma BehindExactly(a: Row, i: Id, b: Row, j: Id, threshold: Threshold)
    requires a.runAt < b.runAt
    ensures Behind(Aging(threshold), a, i, b, j)
       <==> b.runAt - a.runAt >= (b.priority - a.priority) * (threshold * SECOND)
  {
    AgingExact(a, i, b, j, threshold);
    forall now | b.runAt <= now
      ensures KeyOf(Aging(threshold), a, i, now) == AgingKey(a, i, threshold, now)
      ensures KeyOf(Aging(threshold), b, j, now) == AgingKey(b, j, threshold, now)
    {
    }
    if Behind(Aging(threshold), a, i, b, j) {
      forall now | now >= b.runAt ensures Less(AgingKey(a, i, threshold, now), AgingKey(b, j, threshold, now)) {
        assert Less(KeyOf(Aging(threshold), a, i, now), KeyOf(Aging(threshold), b, j, now));
      }
    }
  }

  ghost predicate RivalBehind(db: Db, order: Order, i: Id, j: Id)
    requires i in db.jobs
  {
    Rival(db, i, j) ==> Behind(order, db.jobs[i], i, db.jobs[j], j)
  }

  /** Spent, and before every other job of its queue. */
  ghost predicate SpentFirst(db: Db, order: Order, i: Id) {
    Deliveries.Spent(db, i) && forall j :: RivalBehind(db, order, i, j)
  }

  /** The statement leaves job `j` ahead of job `i` that was not ahead of it before. */
  ghost predicate Overtakes(db: Db, db': Db, order: Order, i: Id, j: Id)
    requires i in db.jobs && i in db'.jobs
  {
    RivalBehind(db, order, i, j) && !RivalBehind(db', order, i, j)
  }

  /** A run that neither cancels nor purges job `i`, and brings nothing ahead of it. */
  ghost predicate LeavesFirst(db: Db, es: seq<Event>, order: Order, i: Id)
    decreases |es|
  {
    es != [] ==>
      var db' := Apply(db, es[0].stmt, es[0].now);
      && !Deliveries.Discards(es[0].stmt, i)
      && (i in db.jobs && i in db'.jobs ==> forall j :: !Overtakes(db, db', order, i, j))
      && LeavesFirst(db', es[1..], order, i)
  }

  lemma FirstStep(db: Db, e: Event, order: Order, i: Id)
    requires Sound(db) && SpentFirst(db, order, i) && LeavesFirst(db, [e], order, i)
    ensures var db' := Apply(db, e.stmt, e.now);
      Sound(db') && SpentFirst(db', order, i) && db'.jobs[i].queue == db.jobs[i].queue
  {
    var db' := Apply(db, e.stmt, e.now);
    ApplySound(db, e.stmt, e.now);
    Deliveries.SpentStep(db, e.stmt, e.now, i);
    RowAfter(db, e.stmt, e.now, i);
    KeysKept(db.jobs[i], e.stmt, e.now);
    forall j ensures RivalBehind(db', order, i, j) {
      assert !Overtakes(db, db', order, i, j);
    }
  }

  /**
   The blockage lasts: in every run that brings nothing ahead of the spent row and neither
   cancels nor purges it, no uncontended claim of its queue ever changes anything, in either
   order, once the row is due.
   */
  lemma {:induction false} BlockedForever(db: Db, es: seq<Event>, order: Order, i: Id, s: Stmt, now: Time)
    requires Sound(db) && SpentFirst(db, order, i) && LeavesFirst(db, es, order, i)
    requires var last := Play(db, es);
      i in last.jobs && last.jobs[i].runAt <= now && Uncontended(last, s, order, db.jobs[i].queue, now)
    ensures Apply(Play(db, es), s, now) == Play(db, es)
    decreases |es|
  {
    if es == [] {
      FirstClaims(db, order, i, s, now);
    } else {
      assert [es[0]][1..] == [];
      FirstStep(db, es[0], order, i);
      BlockedForever(Apply(db, es[0].stmt, es[0].now), es[1..], order, i, s, now);
    }
  }

  lemma FirstClaims(db: Db, order: Order, i: Id, s: Stmt, now: Time)
    requires SpentFirst(db, order, i) && db.jobs[i].runAt <= now
    requires Uncontended(db, s, order, db.jobs[i].queue, now)
    ensures Apply(db, s, now) == db
  {
    var queue := db.jobs[i].queue;
    var due := Candidates(db, queue, {}, now);
    if s.limit > 0 && !Paused(db.configs, queue) {
      forall j | j in due && j != i
        ensures Less(KeyOf(order, db.jobs[i], i, now), KeyOf(order, db.jobs[j], j, now))
      {
        assert RivalBehind(db, order, i, j);
      }
      BlockedQueue(db, order, queue, i, now, s);
    } else {
      NothingPicked(db, order, queue, s, now);
    }
  }

  lemma NothingPicked(db: Db, order: Order, queue: string, s: Stmt, now: Time)
    requires Uncontended(db, s, order, queue, now) && (s.limit == 0 || Paused(db.configs, queue))
    ensures Apply(db, s, now) == db
  {
    var keys := KeysOf(order, db, Candidates(db, queue, {}, now), now);
    assert Paused(db.configs, queue) ==> keys.Keys == {};
    assert |keys| == |keys.Keys|;
    assert s.picks == [] && Targets(db, s) == {};
    assert UpdateRows(db.jobs, {}, s, now) == db.jobs;
  }
}
