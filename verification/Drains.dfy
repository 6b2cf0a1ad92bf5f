/** Loops of bounded passes, and the one unbounded statement each of them amounts to. */
module Drains {
  import opened Jobs
  import opened Statements
  import opened Selection
  import opened JobTable
  import Columns

  type Rows = map<Id, Row>

  function Overdue(jobs: Rows, now: Time): set<Id> {
    set i | i in jobs && Expired(jobs[i], now)
  }

  function Prunable(jobs: Rows, configs: Configs, windows: Windows, now: Time): set<Id> {
    set i | i in jobs && PastRetention(jobs[i], configs, windows, now)
  }

  function Purgeable(jobs: Rows, queue: string, states: set<JobState>): set<Id> {
    set i | i in jobs && jobs[i].queue == queue && jobs[i].state in states
  }

  function Picked(picks: seq<Id>): set<Id> {
    set i | i in picks
  }

  lemma {:induction false} PickedSize(picks: seq<Id>)
    requires Distinct(picks)
    ensures |Picked(picks)| == |picks|
  {
    if picks != [] {
      var n := |picks| - 1;
      PickedSize(picks[..n]);
      assert Picked(picks) == Picked(picks[..n]) + {picks[n]};
    }
  }

  lemma SubsetOfSameSize(a: set<Id>, b: set<Id>)
    requires a <= b && |a| == |b|
    ensures a == b
  {
    assert b == a + (b - a);
    assert |b| == |a| + |b - a|;
  }

  /** `picks` without repetition, all of them from `all`, and all of it unless the batch is full. */
  ghost predicate Batch(picks: seq<Id>, all: set<Id>, limit: nat) {
    && Picked(picks) <= all
    && |Picked(picks)| == |picks|
    && (|picks| < limit ==> Picked(picks) == all)
  }

  /** A pass takes everything when there is less than a full batch. */
  lemma PassTakes(picks: seq<Id>, keys: Keys, limit: nat)
    requires IsFirst(picks, keys, limit)
    ensures Batch(picks, keys.Keys, limit)
  {
    PickedSize(picks);
    assert |keys.Keys| == |keys|;
    if |picks| < limit {
      SubsetOfSameSize(Picked(picks), keys.Keys);
    }
  }

  lemma FewerLeft(all: set<Id>, done: set<Id>, more: set<Id>)
    requires done <= all && more <= all - done
    ensures done !! more && done + more <= all
    ensures all - (done + more) == all - done - more
    ensures |all - (done + more)| == |all - done| - |more|
  {
    assert all - done == (all - done - more) + more;
  }

  // ----- the reaper -----

  function Exhausted(picks: seq<Id>, jobs: Rows): set<Id> {
    set i | i in picks && i in jobs && jobs[i].attempt >= jobs[i].maxAttempts
  }

  function DeadAmong(picks: seq<Id>, jobs: Rows): set<Id> {
    set i | i in picks && i in jobs && jobs[i].state == Dead
  }

  /** The two counters, from the outcome each returned row names. */
  method CountOutcomes(picks: seq<Id>, jobs: Rows) returns (recovered: nat, deadLettered: nat)
    requires Distinct(picks) && forall i | i in picks :: i in jobs
    ensures recovered + deadLettered == |picks| && deadLettered == |DeadAmong(picks, jobs)|
  {
    recovered, deadLettered := 0, 0;
    for k := 0 to |picks|
      invariant recovered + deadLettered == k && deadLettered == |DeadAmong(picks[..k], jobs)|
    {
      assert picks[..k + 1] == picks[..k] + [picks[k]] && picks[k] !in picks[..k];
      if jobs[picks[k]].state == Dead {
        assert DeadAmong(picks[..k + 1], jobs) == DeadAmong(picks[..k], jobs) + {picks[k]};
        deadLettered := deadLettered + 1;
      } else {
        assert DeadAmong(picks[..k + 1], jobs) == DeadAmong(picks[..k], jobs);
        recovered := recovered + 1;
      }
    }
    assert picks[..|picks|] == picks;
  }

  lemma ReapPass(db: Db, s: Stmt, now: Time)
    requires Healthy(db) && s.Reap? && IsFirst(s.picks, LeaseKeys(db, {}, now), s.limit)
    ensures Apply(db, s, now) == db.(jobs := UpdateRows(db.jobs, Picked(s.picks), s, now))
    ensures DeadAmong(s.picks, Apply(db, s, now).jobs) == Exhausted(s.picks, db.jobs)
  {
    FirstEnabled(db, s, LeaseKeys(db, {}, now), now);
    NeverRejected(db, s, now);
    assert Targets(db, s) == Picked(s.picks);
    ReapedDead(db.jobs, s, now);
  }

  /** A reap kills exactly the rows without attempts left. */
  lemma ReapedDead(jobs: Rows, s: Stmt, now: Time)
    requires s.Reap? && forall i | i in s.picks :: i in jobs && Expired(jobs[i], now)
    ensures DeadAmong(s.picks, UpdateRows(jobs, Picked(s.picks), s, now)) == Exhausted(s.picks, jobs)
  {
  }

  /** One reap pass, with the counters it reports. */
  method ReapOnce(table: Table, batchMax: nat, delay: Time, now: Time)
    returns (recovered: nat, deadLettered: nat, ghost picks: seq<Id>)
    requires table.Valid()
    modifies table`jobs
    ensures table.Valid() && Batch(picks, Overdue(old(table.jobs), now), batchMax)
    ensures table.jobs == UpdateRows(old(table.jobs), Picked(picks), Reap(batchMax, delay, picks), now)
    ensures recovered + deadLettered == |picks| && deadLettered == |Exhausted(picks, old(table.jobs))|
  {
    ghost var before := table.Contents();
    var rows := table.ReapExpiredLeases(batchMax, delay, {}, now);
    picks := rows;
    ReapPass(before, Reap(batchMax, delay, picks), now);
    LeasePass(before, picks, batchMax, now);
    recovered, deadLettered := CountOutcomes(rows, table.jobs);
  }

  /** Every row of `taker` reaped once, with the delay of the pass that took it; the rest as it was. */
  function AfterReaps(start: Rows, taker: map<Id, nat>, jitter: nat -> Time, now: Time): Rows {
    map i | i in start :: if i in taker then SetReap(start[i], jitter(taker[i]), now) else start[i]
  }

  function Taken(taker: map<Id, nat>, picked: set<Id>, pass: nat): map<Id, nat> {
    map i | i in taker.Keys + picked :: if i in taker then taker[i] else pass
  }

  lemma NotOverdueAgain(start: Rows, taker: map<Id, nat>, jitter: nat -> Time, now: Time)
    ensures Overdue(AfterReaps(start, taker, jitter, now), now) == Overdue(start, now) - taker.Keys
  {
  }

  lemma ReapedMore(start: Rows, taker: map<Id, nat>, jitter: nat -> Time, now: Time, s: Stmt, picked: set<Id>,
                   pass: nat)
    requires s.Reap? && s.delay == jitter(pass) && taker.Keys !! picked
    ensures UpdateRows(AfterReaps(start, taker, jitter, now), picked, s, now)
         == AfterReaps(start, Taken(taker, picked, pass), jitter, now)
  {
  }

  lemma TakenMore(taker: map<Id, nat>, picked: set<Id>, pass: nat)
    requires taker.Keys !! picked
    ensures Taken(taker, picked, pass).Keys == taker.Keys + picked
  {
  }

  lemma LeasePass(db: Db, picks: seq<Id>, limit: nat, now: Time)
    requires IsFirst(picks, LeaseKeys(db, {}, now), limit)
    ensures Batch(picks, Overdue(db.jobs, now), limit)
  {
    assert LeaseKeys(db, {}, now).Keys == Overdue(db.jobs, now);
    PassTakes(picks, LeaseKeys(db, {}, now), limit);
  }

  /** Where the drain stands: `taker` names the pass that reaped each row so far. */
  ghost predicate Reaping(start: Rows, rows: Rows, taker: map<Id, nat>, jitter: nat -> Time, now: Time) {
    taker.Keys <= Overdue(start, now) && rows == AfterReaps(start, taker, jitter, now)
  }

  function StillOverdue(start: Rows, taker: map<Id, nat>, now: Time): nat {
    |Overdue(start, now) - taker.Keys|
  }

  lemma DrainStep(start: Rows, taker: map<Id, nat>, jitter: nat -> Time, now: Time, db: Db, s: Stmt, pass: nat)
    requires s.Reap? && s.delay == jitter(pass) && Batch(s.picks, Overdue(db.jobs, now), s.limit)
    requires Reaping(start, db.jobs, taker, jitter, now)
    ensures var taker' := Taken(taker, Picked(s.picks), pass);
      && Reaping(start, UpdateRows(db.jobs, Picked(s.picks), s, now), taker', jitter, now)
      && StillOverdue(start, taker', now) == StillOverdue(start, taker, now) - |s.picks|
      && (|s.picks| < s.limit ==> taker'.Keys == Overdue(start, now) && StillOverdue(start, taker', now) == 0)
  {
    NotOverdueAgain(start, taker, jitter, now);
    BatchTaken(Overdue(start, now), taker.Keys, s.picks, s.limit);
    TakenMore(taker, Picked(s.picks), pass);
    ReapedMore(start, taker, jitter, now, s, Picked(s.picks), pass);
  }

  lemma BatchTaken(all: set<Id>, taken: set<Id>, picks: seq<Id>, limit: nat)
    requires taken <= all && Batch(picks, all - taken, limit)
    ensures var taken' := taken + Picked(picks);
      && taken !! Picked(picks) && taken' <= all
      && |all - taken'| == |all - taken| - |picks|
      && (|picks| < limit ==> taken' == all && all - taken' == {})
  {
    FewerLeft(all, taken, Picked(picks));
  }

  /** One turn of the drain loop, the pass numbered `pass`. */
  method DrainPass(table: Table, batchMax: nat, jitter: nat -> Time, now: Time,
                   ghost start: Rows, ghost taker: map<Id, nat>, pass: nat)
    returns (n: nat, ghost taker': map<Id, nat>)
    requires table.Valid() && Reaping(start, table.jobs, taker, jitter, now)
    modifies table`jobs
    ensures table.Valid() && Reaping(start, table.jobs, taker', jitter, now)
    ensures StillOverdue(start, taker', now) == StillOverdue(start, taker, now) - n
    ensures n < batchMax ==> taker'.Keys == Overdue(start, now) && StillOverdue(start, taker', now) == 0
  {
    ghost var before := table.Contents();
    var recovered, deadLettered;
    ghost var picks;
    recovered, deadLettered, picks := ReapOnce(table, batchMax, jitter(pass), now);
    DrainStep(start, taker, jitter, now, before, Reap(batchMax, jitter(pass), picks), pass);
    return recovered + deadLettered, Taken(taker, Picked(picks), pass);
  }

  /** Each running job whose lease is over is reaped, by one pass and with its delay; the rest is as it was. */
  ghost predicate ReapedOnce(before: Rows, after: Rows, taker: map<Id, nat>, jitter: nat -> Time, now: Time) {
    && after.Keys == before.Keys
    && forall i | i in before ::
         var r := before[i];
         if r.state == Running && r.leaseExpiresAt.Some? && r.leaseExpiresAt.value < now then
           i in taker && Columns.Reaped(r, after[i], jitter(taker[i]), now)
         else after[i] == r
  }

  lemma ReapsColumns(start: Rows, taker: map<Id, nat>, jitter: nat -> Time, now: Time)
    requires taker.Keys == Overdue(start, now)
    ensures ReapedOnce(start, AfterReaps(start, taker, jitter, now), taker, jitter, now)
  {
  }

  lemma NoneReaped(start: Rows, jitter: nat -> Time, now: Time)
    ensures Reaping(start, start, map[], jitter, now) && StillOverdue(start, map[], now) == |Overdue(start, now)|
  {
    var none: map<Id, nat> := map[];
    assert AfterReaps(start, none, jitter, now) == start;
    assert Overdue(start, now) - none.Keys == Overdue(start, now);
  }

  /**
   The reaper's drain, undisturbed and at one instant, terminates and leaves what one reap
   without a limit would leave: every overdue row reaped once, with the delay of the pass
   that took it, and no other row touched.
   */
  method DrainExpired(table: Table, batchMax: nat, jitter: nat -> Time, now: Time)
    returns (total: nat, ghost taker: map<Id, nat>)
    requires table.Valid() && batchMax >= 1
    modifies table`jobs
    ensures table.Valid() && taker.Keys == Overdue(old(table.jobs), now) && total == |Overdue(old(table.jobs), now)|
    ensures table.jobs == AfterReaps(old(table.jobs), taker, jitter, now)
    ensures ReapedOnce(old(table.jobs), table.jobs, taker, jitter, now)
  {
    ghost var start := table.jobs;
    total, taker := 0, map[];
    var pass: nat := 0;
    NoneReaped(start, jitter, now);
    while true
      invariant table.Valid() && Reaping(start, table.jobs, taker, jitter, now)
      invariant total + StillOverdue(start, taker, now) == |Overdue(start, now)|
      decreases StillOverdue(start, taker, now)
    {
      var n;
      n, taker := DrainPass(table, batchMax, jitter, now, start, taker, pass);
      total := total + n;
      pass := pass + 1;
      if n < batchMax {
        break;
      }
    }
    ReapsColumns(start, taker, jitter, now);
  }

  // ----- retention -----

  function InQueue(picks: seq<Id>, jobs: Rows, queue: string): set<Id> {
    set i | i in picks && i in jobs && jobs[i].queue == queue
  }

  function CountOf(byQueue: map<string, nat>, queue: string): nat {
    if queue in byQueue then byQueue[queue] else 0
  }

  lemma InQueueGrows(picks: seq<Id>, jobs: Rows, k: nat, queue: string)
    requires Distinct(picks) && k < |picks| && picks[k] in jobs
    ensures |InQueue(picks[..k + 1], jobs, queue)|
         == |InQueue(picks[..k], jobs, queue)| + (if jobs[picks[k]].queue == queue then 1 else 0)
  {
    assert picks[..k + 1] == picks[..k] + [picks[k]] && picks[k] !in picks[..k];
    assert InQueue(picks[..k + 1], jobs, queue)
        == InQueue(picks[..k], jobs, queue) + (if jobs[picks[k]].queue == queue then {picks[k]} else {});
  }

  method CountByQueue(picks: seq<Id>, jobs: Rows) returns (byQueue: map<string, nat>)
    requires Distinct(picks) && forall i | i in picks :: i in jobs
    ensures forall q :: CountOf(byQueue, q) == |InQueue(picks, jobs, q)|
  {
    byQueue := map[];
    for k := 0 to |picks|
      invariant forall q :: CountOf(byQueue, q) == |InQueue(picks[..k], jobs, q)|
    {
      var queue := jobs[picks[k]].queue;
      ghost var counts := byQueue;
      byQueue := byQueue[queue := CountOf(byQueue, queue) + 1];
      forall q ensures CountOf(byQueue, q) == |InQueue(picks[..k + 1], jobs, q)| {
        InQueueGrows(picks, jobs, k, q);
        assert CountOf(byQueue, q) == CountOf(counts, q) + if q == queue then 1 else 0;
      }
    }
    assert picks[..|picks|] == picks;
  }

  /** What is left once `picks` are pruned, or moved to the archive. */
  function Retained(db: Db, picks: seq<Id>, archiving: bool): Db
    requires forall i | i in picks :: i in db.jobs
  {
    db.(jobs := db.jobs - Picked(picks),
        archive := db.archive + (if archiving then ArchiveRows(db.jobs, picks) else []))
  }

  lemma FinishedPass(db: Db, s: Stmt, now: Time)
    requires s.Retain? && IsFirst(s.picks, FinishedKeys(db, s.windows, {}, now), s.limit)
    ensures (forall i | i in s.picks :: i in db.jobs) && Apply(db, s, now) == Retained(db, s.picks, s.archive)
    ensures Batch(s.picks, Prunable(db.jobs, db.configs, s.windows, now), s.limit)
  {
    var keys := FinishedKeys(db, s.windows, {}, now);
    FirstEnabled(db, s, keys, now);
    RemovedRows(db, s, now);
    assert Apply(db, s, now).jobs == db.jobs - Picked(s.picks);
    assert keys.Keys == Prunable(db.jobs, db.configs, s.windows, now);
    PassTakes(s.picks, keys, s.limit);
  }

  /** One retention pass, counted per queue. */
  method PruneOnce(table: Table, batchMax: nat, archiving: bool, windows: Windows, now: Time)
    returns (pruned: nat, byQueue: map<string, nat>, ghost picks: seq<Id>)
    requires table.Valid()
    modifies table`jobs, table`archive
    ensures table.Valid() && pruned == |picks|
    ensures Distinct(picks) && Batch(picks, Prunable(old(table.jobs), table.configs, windows, now), batchMax)
    ensures forall i | i in picks :: i in old(table.jobs)
    ensures table.Contents() == Retained(old(table.Contents()), picks, archiving)
    ensures forall q :: CountOf(byQueue, q) == |InQueue(picks, old(table.jobs), q)|
  {
    var before := table.jobs;
    var rows := table.PruneTerminal(batchMax, archiving, windows, {}, now);
    picks, pruned := rows, |rows|;
    FinishedPass(old(table.Contents()), Retain(batchMax, archiving, windows, picks), now);
    byQueue := CountByQueue(rows, before);
  }

  /** `moved` are the rows a drain has taken so far, in the order it took them. */
  ghost predicate Drained(start: Db, db: Db, moved: seq<Id>, archiving: bool) {
    && Distinct(moved)
    && (forall i | i in moved :: i in start.jobs)
    && db == Retained(start, moved, archiving)
  }

  lemma DistinctMore(moved: seq<Id>, picks: seq<Id>)
    requires Distinct(moved) && Distinct(picks) && Picked(moved) !! Picked(picks)
    ensures Distinct(moved + picks) && Picked(moved + picks) == Picked(moved) + Picked(picks)
  {
    var all := moved + picks;
    forall i, j | 0 <= i < j < |all| ensures all[i] != all[j] {
      if i < |moved| <= j {
        assert all[i] in Picked(moved) && all[j] in Picked(picks);
      }
    }
  }

  lemma ArchiveMore(start: Rows, moved: seq<Id>, picks: seq<Id>)
    requires forall i | i in moved :: i in start
    requires forall i | i in picks :: i in start && i !in moved
    ensures ArchiveRows(start - Picked(moved), picks) + [] == ArchiveRows(start, picks)
    ensures ArchiveRows(start, moved + picks) == ArchiveRows(start, moved) + ArchiveRows(start, picks)
  {
  }

  lemma DrainedMore(start: Db, db: Db, moved: seq<Id>, picks: seq<Id>, archiving: bool)
    requires Drained(start, db, moved, archiving) && Distinct(picks) && Picked(picks) <= db.jobs.Keys
    requires forall i | i in picks :: i in db.jobs
    ensures Drained(start, Retained(db, picks, archiving), moved + picks, archiving)
  {
    DistinctMore(moved, picks);
    ArchiveMore(start.jobs, moved, picks);
    assert start.jobs - Picked(moved) - Picked(picks) == start.jobs - Picked(moved + picks);
  }

  lemma NotPrunableAgain(jobs: Rows, configs: Configs, windows: Windows, now: Time, picked: set<Id>)
    ensures Prunable(jobs - picked, configs, windows, now) == Prunable(jobs, configs, windows, now) - picked
  {
  }

  lemma RetainStep(start: Db, moved: seq<Id>, picks: seq<Id>, all: set<Id>, limit: nat)
    requires Distinct(moved) && Distinct(picks) && Picked(moved) <= all && Batch(picks, all - Picked(moved), limit)
    ensures var moved' := moved + picks;
      && Picked(moved') <= all && all - Picked(moved') == all - Picked(moved) - Picked(picks)
      && |all - Picked(moved')| == |all - Picked(moved)| - |picks|
      && (|picks| < limit ==> Picked(moved') == all)
  {
    FewerLeft(all, Picked(moved), Picked(picks));
    DistinctMore(moved, picks);
  }

  /** Where the drain stands after the rows in `moved`. */
  ghost predicate Draining(start: Db, db: Db, moved: seq<Id>, archiving: bool, windows: Windows, all: set<Id>,
                           now: Time)
  {
    && Drained(start, db, moved, archiving) && Picked(moved) <= all
    && Prunable(db.jobs, db.configs, windows, now) == all - Picked(moved)
  }

  lemma RetentionStep(start: Db, db: Db, moved: seq<Id>, picks: seq<Id>, archiving: bool, windows: Windows,
                      all: set<Id>, limit: nat, now: Time)
    requires Draining(start, db, moved, archiving, windows, all, now) && Distinct(picks)
    requires Batch(picks, Prunable(db.jobs, db.configs, windows, now), limit)
    requires forall i | i in picks :: i in db.jobs
    ensures var db', moved' := Retained(db, picks, archiving), moved + picks;
      && Draining(start, db', moved', archiving, windows, all, now)
      && |all - Picked(moved')| == |all - Picked(moved)| - |picks|
      && (|picks| < limit ==> Picked(moved') == all)
  {
    RetainStep(start, moved, picks, all, limit);
    DrainedMore(start, db, moved, picks, archiving);
    NotPrunableAgain(db.jobs, db.configs, windows, now, Picked(picks));
  }

  /**
   The retention drain, undisturbed and at one instant, removes exactly the rows past their
   window and, when archiving, appends each of them once to the archive.
   */
  method DrainRetention(table: Table, batchMax: nat, archiving: bool, windows: Windows, now: Time)
    returns (total: nat, ghost moved: seq<Id>)
    requires table.Valid() && batchMax >= 1
    modifies table`jobs, table`archive
    ensures table.Valid() && total == |moved|
    ensures Picked(moved) == Prunable(old(table.jobs), table.configs, windows, now)
    ensures Drained(old(table.Contents()), table.Contents(), moved, archiving)
    ensures KeptForWindow(old(table.Contents()), table.Contents(), windows, now)
    ensures |table.archive| == |old(table.archive)| + if archiving then total else 0
  {
    ghost var start := table.Contents();
    ghost var all := Prunable(table.jobs, table.configs, windows, now);
    total, moved := 0, [];
    assert start.jobs - Picked(moved) == start.jobs;
    while true
      invariant table.Valid() && total == |moved|
      invariant Draining(start, table.Contents(), moved, archiving, windows, all, now)
      decreases |all - Picked(moved)|
    {
      ghost var before := table.Contents();
      var pruned, byQueue;
      ghost var picks;
      pruned, byQueue, picks := PruneOnce(table, batchMax, archiving, windows, now);
      RetentionStep(start, before, moved, picks, archiving, windows, all, batchMax, now);
      moved := moved + picks;
      total := total + pruned;
      if pruned < batchMax {
        break;
      }
    }
    DrainColumns(start, table.Contents(), moved, archiving, windows, now);
  }

  /** What is left is exactly what has not finished or not finished long enough ago, row by row as it was. */
  ghost predicate KeptForWindow(before: Db, after: Db, windows: Windows, now: Time) {
    && (forall i | i in before.jobs ::
          var r := before.jobs[i];
          i !in after.jobs <==>
            && r.state in {Succeeded, Dead, Cancelled} && r.finishedAt.Some?
            && r.finishedAt.value + Columns.Window(r, before.configs, windows) < now)
    && (forall i | i in after.jobs :: i in before.jobs && after.jobs[i] == before.jobs[i])
  }

  lemma DrainColumns(start: Db, db: Db, moved: seq<Id>, archiving: bool, windows: Windows, now: Time)
    requires Drained(start, db, moved, archiving)
    requires Picked(moved) == Prunable(start.jobs, start.configs, windows, now)
    ensures KeptForWindow(start, db, windows, now)
    ensures |db.archive| == |start.archive| + if archiving then |moved| else 0
  {
  }

  // ----- purge -----

  datatype PurgeReply = Purged(deleted: nat) | NotConfirmed | NoStates

  predicate AllBelow(low: set<Id>, high: set<Id>) {
    forall i, j | i in low && j in high :: i < j
  }

  /** `gone` are matching rows, all older than the matching rows that stay. */
  ghost predicate OldestGone(before: Rows, after: Rows, gone: set<Id>, matching: set<Id>) {
    && gone <= matching
    && after == before - gone
    && AllBelow(gone, matching - gone)
  }

  lemma MoreGone(start: Rows, before: Rows, gone: set<Id>, matching: set<Id>, picked: set<Id>)
    requires OldestGone(start, before, gone, matching) && picked <= matching - gone
    requires AllBelow(picked, matching - gone - picked)
    ensures OldestGone(start, before - picked, gone + picked, matching)
    ensures |gone + picked| == |gone| + |picked|
  {
    FewerLeft(matching, gone, picked);
    assert AllBelow(gone, matching - gone - picked);
    assert before - picked == start - (gone + picked);
  }

  lemma OldestFirst(picks: seq<Id>, keys: Keys, limit: nat)
    requires IsFirst(picks, keys, limit) && forall i | i in keys :: keys[i] == Key(i, 0, 0)
    ensures AllBelow(Picked(picks), keys.Keys - Picked(picks))
  {
    forall i, j | i in Picked(picks) && j in keys.Keys - Picked(picks) ensures i < j {
      assert !Less(keys[j], keys[i]);
    }
  }

  lemma LeftToPurge(start: Rows, jobs: Rows, gone: set<Id>, matching: set<Id>, queue: string, states: set<JobState>)
    requires jobs == start - gone && gone <= matching && matching == Purgeable(start, queue, states)
    ensures Purgeable(jobs, queue, states) == matching - gone
  {
  }

  lemma PurgePass(db: Db, s: Stmt)
    requires s.Purge? && IsFirst(s.picks, PurgeKeys(db, s.queue, s.states, {}), s.limit)
    ensures Apply(db, s, 0) == db.(jobs := db.jobs - Picked(s.picks))
    ensures var left := Purgeable(db.jobs, s.queue, s.states);
      Batch(s.picks, left, s.limit) && AllBelow(Picked(s.picks), left - Picked(s.picks))
  {
    var keys := PurgeKeys(db, s.queue, s.states, {});
    FirstEnabled(db, s, keys, 0);
    RemovedRows(db, s, 0);
    assert Apply(db, s, 0).jobs == db.jobs - Picked(s.picks);
    assert keys.Keys == Purgeable(db.jobs, s.queue, s.states);
    PassTakes(s.picks, keys, s.limit);
    OldestFirst(s.picks, keys, s.limit);
  }

  /** One purge statement of the loop. */
  method PurgeOnce(table: Table, queue: string, states: set<JobState>, batchSize: nat)
    returns (n: nat, ghost picked: set<Id>)
    requires table.Valid()
    modifies table`jobs, table`archive
    ensures table.Valid() && table.archive == old(table.archive) && table.jobs == old(table.jobs) - picked
    ensures n == |picked| && AllBelow(picked, Purgeable(old(table.jobs), queue, states) - picked)
    ensures picked <= Purgeable(old(table.jobs), queue, states)
    ensures n <= batchSize && (n < batchSize ==> picked == Purgeable(old(table.jobs), queue, states))
  {
    var picks := table.PurgeQueue(queue, states, batchSize, {});
    PurgePass(old(table.Contents()), Statements.Purge(queue, states, batchSize, picks));
    n, picked := |picks|, Picked(picks);
  }

  lemma FullBatch(batchSize: nat, i: nat)
    ensures batchSize * (i + 1) == batchSize * i + batchSize
  {
  }

  lemma SubsetSize(a: set<Id>, b: set<Id>)
    requires a <= b
    ensures |a| <= |b|
  {
    assert b == a + (b - a);
  }

  lemma BatchesCover(batchSize: nat, i: nat, maxBatches: nat, last: nat)
    requires i < maxBatches && last < batchSize
    ensures batchSize * i + last < batchSize * maxBatches
  {
    FullBatch(batchSize, i);
    BatchesGrow(batchSize, i + 1, maxBatches);
  }

  lemma {:induction false} BatchesGrow(batchSize: nat, i: nat, n: nat)
    requires i <= n
    ensures batchSize * i <= batchSize * n
  {
    if i < n {
      BatchesGrow(batchSize, i, n - 1);
      FullBatch(batchSize, n - 1);
    }
  }

  /**
   A purge needs its queue's name as confirmation and at least one state. Undisturbed, it
   deletes the oldest min(n, batchSize * maxBatches) of the n matching rows and nothing else.
   */
  method Purge(table: Table, queue: string, states: set<JobState>, confirm: string, batchSize: nat, maxBatches: nat)
    returns (reply: PurgeReply, ghost gone: set<Id>)
    requires table.Valid()
    modifies table`jobs, table`archive
    ensures table.Valid() && table.archive == old(table.archive)
    ensures reply.NotConfirmed? <==> confirm != queue
    ensures reply.NoStates? <==> confirm == queue && states == {}
    ensures !reply.Purged? ==> table.jobs == old(table.jobs)
    ensures reply.Purged? ==>
      var matching := Purgeable(old(table.jobs), queue, states);
      && OldestGone(old(table.jobs), table.jobs, gone, matching)
      && reply.deleted == |gone|
      && |gone| == if batchSize * maxBatches < |matching| then batchSize * maxBatches else |matching|
  {
    gone := {};
    if confirm != queue {
      return NotConfirmed, gone;
    }
    if states == {} {
      return NoStates, gone;
    }
    ghost var start := table.jobs;
    ghost var matching := Purgeable(start, queue, states);
    var deleted := 0;
    var i := 0;
    while i < maxBatches
      invariant 0 <= i <= maxBatches && table.Valid() && table.archive == old(table.archive)
      invariant OldestGone(start, table.jobs, gone, matching) && deleted == |gone| == batchSize * i
    {
      LeftToPurge(start, table.jobs, gone, matching, queue, states);
      ghost var before, picked := table.jobs, {};
      var n;
      n, picked := PurgeOnce(table, queue, states, batchSize);
      MoreGone(start, before, gone, matching, picked);
      gone := gone + picked;
      deleted := deleted + n;
      if n < batchSize {
        BatchesCover(batchSize, i, maxBatches, n);
        return Purged(deleted), gone;
      }
      FullBatch(batchSize, i);
      i := i + 1;
    }
    SubsetSize(gone, matching);
    return Purged(deleted), gone;
  }
}
