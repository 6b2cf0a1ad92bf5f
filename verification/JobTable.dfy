/**
 The database as an object: one method per statement, each proved to be the atomic step of
 the same name, with what its RETURNING clause tells the caller.
 */
module JobTable {
  import opened Wrappers
  import opened Jobs
  import opened Statements
  import opened Selection
  import opened Claims
  import Columns

  /** A statement that takes the first rows of an order over matching rows is a possible one. */
  lemma FirstEnabled(db: Db, s: Stmt, keys: Keys, now: Time)
    requires Skips(s) && IsFirst(s.picks, keys, s.limit)
    requires forall i | i in keys :: i in db.jobs && Matches(s, db.jobs[i], db.configs, now)
    ensures Enabled(db, s, now)
  {
  }

  lemma RemovedRows(db: Db, s: Stmt, now: Time)
    requires (s.Purge? || s.Retain?) && Enabled(db, s, now)
    ensures Apply(db, s, now).jobs == map i | i in db.jobs && i !in s.picks :: db.jobs[i]
    ensures Apply(db, s, now).nextId == db.nextId && Apply(db, s, now).configs == db.configs
    ensures Apply(db, s, now).archive
      == db.archive + (if s.Retain? && s.archive then ArchiveRows(db.jobs, s.picks) else [])
  {
  }

  /** A claim or a replay either updates all of its rows or is rejected whole. */
  lemma AllOrNothing(db: Db, s: Stmt, now: Time, rows: map<Id, Row>)
    requires Healthy(db)
    requires Updates(s) && Enabled(db, s, now) && rows == UpdateRows(db.jobs, Targets(db, s), s, now)
    ensures Accepted(rows) <==> !ClaimsExhausted(db, s) && !ReplayCollides(db, s)
    ensures Apply(db, s, now) == if Accepted(rows) then db.(jobs := rows) else db
  {
    if ClaimsExhausted(db, s) || ReplayCollides(db, s) {
      RejectedUpdate(db, s, now);
    } else {
      UpdateFits(db, s, now);
    }
  }

  // ----- batches of the rows that have waited longest, on the columns -----

  /** Of the rows in `at` the earliest, earliest first, as many as the limit allows. */
  ghost predicate TakesEarliest(picks: seq<Id>, at: map<Id, int>, limit: nat) {
    && Takes(picks, at.Keys, limit)
    && (forall a, b | 0 <= a < b < |picks| :: picks[a] in at && picks[b] in at && at[picks[a]] <= at[picks[b]])
    && (forall i, j | i in picks && j in at && j !in picks :: at[i] <= at[j])
  }

  /** The unlocked running jobs whose lease is over, with its end. */
  function LeaseEnds(jobs: map<Id, Row>, locked: set<Id>, now: Time): map<Id, int> {
    map i | i in jobs && i !in locked && jobs[i].state == Running && jobs[i].leaseExpiresAt != None
            && jobs[i].leaseExpiresAt.value < now :: jobs[i].leaseExpiresAt.value
  }

  /** The unlocked finished jobs kept for their window, with the time they finished. */
  function FinishTimes(db: Db, windows: Windows, locked: set<Id>, now: Time): map<Id, int> {
    map i | i in db.jobs && i !in locked && db.jobs[i].state in {Succeeded, Dead, Cancelled}
            && db.jobs[i].finishedAt != None
            && db.jobs[i].finishedAt.value + Columns.Window(db.jobs[i], db.configs, windows) < now ::
      db.jobs[i].finishedAt.value
  }

  function MatchingIds(jobs: map<Id, Row>, queue: string, states: set<JobState>, locked: set<Id>): map<Id, int> {
    map i | i in jobs && i !in locked && jobs[i].queue == queue && jobs[i].state in states :: i
  }

  lemma EarliestTaken(picks: seq<Id>, keys: Keys, at: map<Id, int>, limit: nat)
    requires IsFirst(picks, keys, limit) && keys.Keys == at.Keys
    requires forall i, j | i in at && j in at :: Less(keys[i], keys[j]) <==> at[i] < at[j]
    ensures TakesEarliest(picks, at, limit)
  {
    TakesAll(picks, keys, limit);
    assert forall a | 0 <= a < |picks| :: picks[a] in picks;
  }

  lemma InsertNext(jobs: map<Id, Row>, nextId: Id, batch: seq<NewJob>, k: nat, now: Time, ids: seq<Option<Id>>)
    requires k < |batch|
    ensures var r := FreshRow(batch[k], now); var taken := Conflicts(jobs, r);
      var jobs' := if taken then jobs else jobs[nextId := r];
      var ids' := ids + [if taken then None else Some(nextId)];
      && InsertAll(jobs, nextId, batch[k..], now) == InsertAll(jobs', nextId + 1, batch[k + 1..], now)
      && ids + InsertedIds(jobs, nextId, batch[k..], now)
         == ids' + InsertedIds(jobs', nextId + 1, batch[k + 1..], now)
  {
    assert batch[k..][0] == batch[k] && batch[k..][1..] == batch[k + 1..];
  }

  class Table {
    var jobs: map<Id, Row>
    var nextId: Id
    var configs: Configs
    var archive: seq<(Id, Row)>

    function Contents(): Db
      reads this
    {
      Db(jobs, nextId, configs, archive)
    }

    ghost predicate Valid()
      reads this
    {
      Healthy(Contents())
    }

    constructor ()
      ensures Valid() && Contents() == EMPTY
    {
      jobs, nextId, configs, archive := map[], 1, map[], [];
    }

    /** The constraint check at the end of a statement: all of its rows, or none. */
    method Commit(rows: map<Id, Row>) returns (ok: bool)
      modifies this`jobs
      ensures ok <==> Accepted(rows)
      ensures jobs == if ok then rows else old(jobs)
    {
      ok := Accepted(rows);
      if ok {
        jobs := rows;
      }
    }

    // ----- enqueue -----

    method InsertRows(batch: seq<NewJob>, now: Time) returns (ids: seq<Option<Id>>)
      modifies this`jobs, this`nextId
      ensures jobs == InsertAll(old(jobs), old(nextId), batch, now) && nextId == old(nextId) + |batch|
      ensures ids == InsertedIds(old(jobs), old(nextId), batch, now)
    {
      ids := [];
      ghost var all := InsertAll(jobs, nextId, batch, now);
      ghost var allIds := InsertedIds(jobs, nextId, batch, now);
      for k := 0 to |batch|
        invariant nextId == old(nextId) + k
        invariant all == InsertAll(jobs, nextId, batch[k..], now)
        invariant allIds == ids + InsertedIds(jobs, nextId, batch[k..], now)
      {
        var r := FreshRow(batch[k], now);
        InsertNext(jobs, nextId, batch, k, now, ids);
        if Conflicts(jobs, r) {
          ids := ids + [None];
        } else {
          jobs := jobs[nextId := r];
          ids := ids + [Some(nextId)];
        }
        nextId := nextId + 1;
      }
    }

    method InsertJobs(batch: seq<NewJob>, now: Time) returns (ids: Option<seq<Option<Id>>>)
      requires Valid()
      modifies this`jobs, this`nextId
      ensures Valid() && Contents() == Apply(old(Contents()), Insert(batch), now)
      ensures ids.Some? <==> forall j | j in batch :: Insertable(j)
      ensures ids.Some? ==> ids.value == InsertedIds(old(jobs), old(nextId), batch, now)
    {
      ApplyHealthy(Contents(), Insert(batch), now);
      if exists j | j in batch :: !Insertable(j) {
        return None;
      }
      var out := InsertRows(batch, now);
      return Some(out);
    }

    /** An UPDATE of several rows: every one of them, or none. */
    method SetAll(rows: map<Id, Row>, ghost s: Stmt, now: Time) returns (ok: bool)
      requires Valid() && Updates(s) && Enabled(Contents(), s, now)
      requires rows == UpdateRows(jobs, Targets(Contents(), s), s, now)
      modifies this`jobs
      ensures Valid() && Contents() == Apply(old(Contents()), s, now)
      ensures ok <==> !ClaimsExhausted(old(Contents()), s) && !ReplayCollides(old(Contents()), s)
    {
      ApplyHealthy(Contents(), s, now);
      AllOrNothing(Contents(), s, now, rows);
      ok := Commit(rows);
    }

    // ----- claim -----

    method TakeClaim(queue: string, limit: nat, worker: string, picks: seq<Id>, now: Time) returns (ok: bool)
      requires Valid() && Enabled(Contents(), Claim(queue, limit, worker, picks), now)
      modifies this`jobs
      ensures Valid() && Contents() == Apply(old(Contents()), Claim(queue, limit, worker, picks), now)
      ensures ok <==> forall i | i in picks :: old(jobs)[i].attempt < old(jobs)[i].maxAttempts
    {
      ghost var s := Claim(queue, limit, worker, picks);
      var rows := map i | i in jobs ::
        if i in picks then
          var r := jobs[i];
          r.(state := Running, attempt := r.attempt + 1, workerId := Some(worker),
             startedAt := Some(now), leaseExpiresAt := Some(now + r.leaseSeconds * SECOND))
        else jobs[i];
      assert rows == UpdateRows(jobs, Targets(Contents(), s), s, now);
      ok := SetAll(rows, s, now);
    }

    /** `locked` are the rows other sessions hold; SKIP LOCKED passes over them. */
    method ClaimJobs(queue: string, limit: nat, worker: string, locked: set<Id>, now: Time)
      returns (picks: seq<Id>, ok: bool)
      requires Valid()
      modifies this`jobs
      ensures TakesMostUrgent(old(jobs), picks, DueJobs(old(Contents()), queue, locked, now), limit)
      ensures IsFirst(picks, PriorityKeys(old(Contents()), Candidates(old(Contents()), queue, locked, now)), limit)
      ensures Valid() && Contents() == Apply(old(Contents()), Claim(queue, limit, worker, picks), now)
      ensures ok <==> forall i | i in picks :: i in old(jobs) && old(jobs)[i].attempt < old(jobs)[i].maxAttempts
    {
      var db := Contents();
      picks := FirstInOrder(PriorityKeys(db, Candidates(db, queue, locked, now)), limit);
      MostUrgentFirst(db, picks, queue, locked, limit, now);
      ok := TakeClaim(queue, limit, worker, picks, now);
    }

    method ClaimJobsWithAging(queue: string, limit: nat, worker: string, threshold: Threshold, locked: set<Id>,
                              now: Time)
      returns (picks: seq<Id>, ok: bool)
      requires Valid()
      modifies this`jobs
      ensures TakesMostUrgentAged(old(jobs), picks, DueJobs(old(Contents()), queue, locked, now), limit, threshold, now)
      ensures var db := old(Contents());
        IsFirst(picks, AgingKeys(db, Candidates(db, queue, locked, now), threshold, now), limit)
      ensures Valid() && Contents() == Apply(old(Contents()), Claim(queue, limit, worker, picks), now)
      ensures ok <==> forall i | i in picks :: i in old(jobs) && old(jobs)[i].attempt < old(jobs)[i].maxAttempts
    {
      var db := Contents();
      picks := FirstInOrder(AgingKeys(db, Candidates(db, queue, locked, now), threshold, now), limit);
      MostUrgentAgedFirst(db, picks, queue, locked, threshold, limit, now);
      ok := TakeClaim(queue, limit, worker, picks, now);
    }

    // ----- worker reports -----

    /** An UPDATE of one row that the fence let through. */
    method SetOne(i: Id, r: Row, ghost s: Stmt, now: Time)
      requires Valid() && i in jobs && Enabled(Contents(), s, now) && Targets(Contents(), s) == {i}
      requires (s.Send? || s.Operate?) && (s.Operate? ==> !s.admin.Replay?)
      requires r == SetRow(s, jobs[i], now)
      modifies this`jobs
      ensures Valid() && Contents() == Apply(old(Contents()), s, now) && jobs == old(jobs)[i := r]
    {
      ApplyHealthy(Contents(), s, now);
      NeverRejected(Contents(), s, now);
      assert jobs[i := r] == UpdateRows(jobs, {i}, s, now);
      var ok := Commit(jobs[i := r]);
    }

    lemma NoRow(s: Stmt, now: Time)
      requires Valid() && Enabled(Contents(), s, now) && Updates(s) && Targets(Contents(), s) == {}
      ensures Apply(Contents(), s, now) == Contents()
    {
      assert UpdateRows(jobs, {}, s, now) == jobs;
    }

    method CompleteJob(f: Fence, now: Time) returns (hit: bool)
      requires Valid()
      modifies this`jobs
      ensures Valid() && Contents() == Apply(old(Contents()), Send(f, Complete), now)
      ensures hit <==> f.id in old(jobs) && Owns(old(jobs)[f.id], f)
    {
      hit := f.id in jobs && Owns(jobs[f.id], f);
      if hit {
        var r := jobs[f.id];
        SetOne(f.id, r.(state := Succeeded, finishedAt := Some(now), leaseExpiresAt := None, workerId := None),
               Send(f, Complete), now);
      } else {
        NoRow(Send(f, Complete), now);
      }
    }

    method FailJob(f: Fence, nonRetryable: bool, delay: Time, maxHistory: int, error: ErrorRecord, now: Time)
      returns (row: Option<Row>)
      requires Valid()
      modifies this`jobs
      ensures Valid()
      ensures Contents() == Apply(old(Contents()), Send(f, Fail(nonRetryable, delay, maxHistory, error)), now)
      ensures row.Some? <==> f.id in old(jobs) && Owns(old(jobs)[f.id], f)
      ensures row.Some? ==> f.id in jobs && row.value == jobs[f.id]
      ensures row.Some? ==>
        var r, r' := old(jobs)[f.id], jobs[f.id];
        if nonRetryable || r.attempt >= r.maxAttempts then
          && r'.state == Dead && r'.finishedAt == Some(now) && r'.runAt == r.runAt
          && r'.deadReason == Some(if nonRetryable then NonRetryableError else AttemptsExhausted)
        else r'.state == Available && r'.runAt == now + delay
    {
      ghost var s := Send(f, Fail(nonRetryable, delay, maxHistory, error));
      if f.id in jobs && Owns(jobs[f.id], f) {
        var r := jobs[f.id];
        r := r.(errors := AppendBounded(r.errors, maxHistory, error), leaseExpiresAt := None, workerId := None);
        if nonRetryable || r.attempt >= r.maxAttempts {
          r := r.(state := Dead, finishedAt := Some(now),
                  deadReason := Some(if nonRetryable then NonRetryableError else AttemptsExhausted));
        } else {
          r := r.(state := Available, deadReason := None, finishedAt := None, runAt := now + delay);
        }
        SetOne(f.id, r, s, now);
        return Some(r);
      }
      NoRow(s, now);
      return None;
    }

    /** Tells the owner whether a cancellation was requested; tells anyone else nothing. */
    method HeartbeatJob(f: Fence, leaseSeconds: int, now: Time) returns (seen: Option<Option<Time>>)
      requires Valid()
      modifies this`jobs
      ensures Valid() && Contents() == Apply(old(Contents()), Send(f, Heartbeat(leaseSeconds)), now)
      ensures seen.Some? <==> f.id in old(jobs) && Owns(old(jobs)[f.id], f)
      ensures seen.Some? ==> seen.value == old(jobs)[f.id].cancelRequestedAt
    {
      if f.id in jobs && Owns(jobs[f.id], f) {
        var r := jobs[f.id];
        SetOne(f.id, r.(leaseExpiresAt := Some(now + leaseSeconds * SECOND)), Send(f, Heartbeat(leaseSeconds)), now);
        return Some(r.cancelRequestedAt);
      }
      NoRow(Send(f, Heartbeat(leaseSeconds)), now);
      return None;
    }

    method AcknowledgeCancellation(f: Fence, now: Time) returns (hit: bool)
      requires Valid()
      modifies this`jobs
      ensures Valid() && Contents() == Apply(old(Contents()), Send(f, AckCancel), now)
      ensures hit <==>
        f.id in old(jobs) && Owns(old(jobs)[f.id], f) && old(jobs)[f.id].cancelRequestedAt.Some?
    {
      hit := f.id in jobs && Owns(jobs[f.id], f) && jobs[f.id].cancelRequestedAt.Some?;
      if hit {
        var r := jobs[f.id];
        SetOne(f.id, r.(state := Cancelled, deadReason := None, finishedAt := Some(now),
                        leaseExpiresAt := None, workerId := None), Send(f, AckCancel), now);
      } else {
        NoRow(Send(f, AckCancel), now);
      }
    }

    method ReleaseJob(f: Fence, now: Time) returns (hit: bool)
      requires Valid()
      modifies this`jobs
      ensures Valid() && Contents() == Apply(old(Contents()), Send(f, Release), now)
      ensures hit <==> f.id in old(jobs) && Owns(old(jobs)[f.id], f)
    {
      hit := f.id in jobs && Owns(jobs[f.id], f);
      if hit {
        var r := jobs[f.id];
        SetOne(f.id, r.(state := Available, runAt := now, leaseExpiresAt := None, workerId := None,
                        startedAt := None), Send(f, Release), now);
      } else {
        NoRow(Send(f, Release), now);
      }
    }

    // ----- reaper, retention, purge: bounded batches of the rows they may lock -----

    /** The rows a reap locks. */
    method PickExpired(limit: nat, locked: set<Id>, now: Time) returns (picks: seq<Id>)
      ensures TakesEarliest(picks, LeaseEnds(jobs, locked, now), limit)
      ensures IsFirst(picks, LeaseKeys(Contents(), locked, now), limit)
    {
      var keys := LeaseKeys(Contents(), locked, now);
      picks := FirstInOrder(keys, limit);
      EarliestTaken(picks, keys, LeaseEnds(jobs, locked, now), limit);
    }

    method SetReaped(limit: nat, delay: Time, picks: seq<Id>, now: Time)
      requires Valid() && Enabled(Contents(), Reap(limit, delay, picks), now)
      modifies this`jobs
      ensures Valid() && Contents() == Apply(old(Contents()), Reap(limit, delay, picks), now)
    {
      ghost var s := Reap(limit, delay, picks);
      var rows := map i | i in jobs ::
        if i !in picks then jobs[i]
        else
          var r := jobs[i].(errors := AppendBounded(jobs[i].errors, REAPER_HISTORY, ReapRecord(jobs[i], now)),
                            leaseExpiresAt := None, workerId := None);
          if r.attempt >= r.maxAttempts then
            r.(state := Dead, deadReason := Some(LeaseExpired), finishedAt := Some(now))
          else
            r.(state := Available, deadReason := None, finishedAt := None, startedAt := None,
               runAt := now + delay);
      assert rows == UpdateRows(jobs, Targets(Contents(), s), s, now);
      var ok := SetAll(rows, s, now);
    }

    method ReapExpiredLeases(limit: nat, delay: Time, locked: set<Id>, now: Time) returns (picks: seq<Id>)
      requires Valid()
      modifies this`jobs
      ensures TakesEarliest(picks, LeaseEnds(old(jobs), locked, now), limit)
      ensures IsFirst(picks, LeaseKeys(old(Contents()), locked, now), limit)
      ensures Valid() && Contents() == Apply(old(Contents()), Reap(limit, delay, picks), now)
    {
      picks := PickExpired(limit, locked, now);
      FirstEnabled(Contents(), Reap(limit, delay, picks), LeaseKeys(Contents(), locked, now), now);
      SetReaped(limit, delay, picks, now);
    }

    method CopyToArchive(picks: seq<Id>)
      requires forall i | i in picks :: i in jobs
      modifies this`archive
      ensures archive == old(archive) + ArchiveRows(jobs, picks)
    {
      for k := 0 to |picks|
        invariant archive == old(archive) + ArchiveRows(jobs, picks)[..k]
      {
        archive := archive + [(picks[k], jobs[picks[k]])];
      }
      assert ArchiveRows(jobs, picks)[..|picks|] == ArchiveRows(jobs, picks);
    }

    /** Deletes the locked rows, after copying them when archiving. */
    method Remove(picks: seq<Id>, archiving: bool, ghost s: Stmt, now: Time)
      requires Valid() && (s.Purge? || s.Retain?) && s.picks == picks && Enabled(Contents(), s, now)
      requires archiving <==> s.Retain? && s.archive
      modifies this`jobs, this`archive
      ensures Valid() && Contents() == Apply(old(Contents()), s, now)
    {
      ApplyHealthy(Contents(), s, now);
      RemovedRows(Contents(), s, now);
      if archiving {
        CopyToArchive(picks);
      }
      jobs := map i | i in jobs && i !in picks :: jobs[i];
      assert Contents() == Apply(old(Contents()), s, now);
    }

    /** The rows a retention pass locks. */
    method PickFinished(limit: nat, windows: Windows, locked: set<Id>, now: Time) returns (picks: seq<Id>)
      requires Valid()
      ensures TakesEarliest(picks, FinishTimes(Contents(), windows, locked, now), limit)
      ensures IsFirst(picks, FinishedKeys(Contents(), windows, locked, now), limit)
    {
      var keys := FinishedKeys(Contents(), windows, locked, now);
      picks := FirstInOrder(keys, limit);
      SameFinished(Contents(), windows, locked, now);
      EarliestTaken(picks, keys, FinishTimes(Contents(), windows, locked, now), limit);
    }

    method PruneTerminal(limit: nat, archiving: bool, windows: Windows, locked: set<Id>, now: Time)
      returns (picks: seq<Id>)
      requires Valid()
      modifies this`jobs, this`archive
      ensures TakesEarliest(picks, FinishTimes(old(Contents()), windows, locked, now), limit)
      ensures IsFirst(picks, FinishedKeys(old(Contents()), windows, locked, now), limit)
      ensures Valid() && Contents() == Apply(old(Contents()), Retain(limit, archiving, windows, picks), now)
    {
      picks := PickFinished(limit, windows, locked, now);
      ghost var s := Retain(limit, archiving, windows, picks);
      FirstEnabled(Contents(), s, FinishedKeys(Contents(), windows, locked, now), now);
      Remove(picks, archiving, s, now);
    }

    method PurgeQueue(queue: string, states: set<JobState>, limit: nat, locked: set<Id>) returns (picks: seq<Id>)
      requires Valid()
      modifies this`jobs, this`archive
      ensures TakesEarliest(picks, MatchingIds(old(jobs), queue, states, locked), limit)
      ensures IsFirst(picks, PurgeKeys(old(Contents()), queue, states, locked), limit)
      ensures Valid() && Contents() == Apply(old(Contents()), Purge(queue, states, limit, picks), 0)
    {
      var db := Contents();
      picks := FirstInOrder(PurgeKeys(db, queue, states, locked), limit);
      EarliestTaken(picks, PurgeKeys(db, queue, states, locked), MatchingIds(jobs, queue, states, locked), limit);
      ghost var s := Purge(queue, states, limit, picks);
      FirstEnabled(db, s, PurgeKeys(db, queue, states, locked), 0);
      Remove(picks, false, s, 0);
    }

    // ----- operators -----

    method CancelAvailableJob(i: Id, now: Time) returns (hit: bool)
      requires Valid()
      modifies this`jobs
      ensures Valid() && Contents() == Apply(old(Contents()), Operate([i], CancelAvailable), now)
      ensures hit <==> i in old(jobs) && old(jobs)[i].state == Available
    {
      hit := i in jobs && jobs[i].state == Available;
      if hit {
        SetOne(i, jobs[i].(state := Cancelled, finishedAt := Some(now)), Operate([i], CancelAvailable), now);
      } else {
        NoRow(Operate([i], CancelAvailable), now);
      }
    }

    method RequestCancelRunningJob(i: Id, now: Time) returns (hit: bool)
      requires Valid()
      modifies this`jobs
      ensures Valid() && Contents() == Apply(old(Contents()), Operate([i], RequestCancel), now)
      ensures hit <==> i in old(jobs) && old(jobs)[i].state == Running
    {
      hit := i in jobs && jobs[i].state == Running;
      if hit {
        var at := if jobs[i].cancelRequestedAt.Some? then jobs[i].cancelRequestedAt else Some(now);
        SetOne(i, jobs[i].(cancelRequestedAt := at), Operate([i], RequestCancel), now);
      } else {
        NoRow(Operate([i], RequestCancel), now);
      }
    }

    method RetryJobNow(i: Id, now: Time) returns (hit: bool)
      requires Valid()
      modifies this`jobs
      ensures Valid() && Contents() == Apply(old(Contents()), Operate([i], RetryNow), now)
      ensures hit <==> i in old(jobs) && old(jobs)[i].state == Available
    {
      hit := i in jobs && jobs[i].state == Available;
      if hit {
        SetOne(i, jobs[i].(runAt := now), Operate([i], RetryNow), now);
      } else {
        NoRow(Operate([i], RetryNow), now);
      }
    }

    /** Replays any number of dead jobs; a taken unique key rejects them all. */
    method ReplayDeadJobs(ids: seq<Id>, now: Time) returns (replayed: set<Id>, ok: bool)
      requires Valid()
      modifies this`jobs
      ensures Valid() && Contents() == Apply(old(Contents()), Operate(ids, Replay), now)
      ensures ok <==> !ReplayCollides(old(Contents()), Operate(ids, Replay))
      ensures replayed == if ok then set i | i in ids && i in old(jobs) && old(jobs)[i].state == Dead else {}
    {
      ghost var s := Operate(ids, Replay);
      replayed := set i | i in ids && i in jobs && jobs[i].state == Dead;
      var rows := map i | i in jobs ::
        if i in replayed then
          jobs[i].(state := Available, attempt := 0, deadReason := None, runAt := now,
                   finishedAt := None, startedAt := None)
        else jobs[i];
      assert rows == UpdateRows(jobs, Targets(Contents(), s), s, now);
      ok := SetAll(rows, s, now);
      replayed := if ok then replayed else {};
    }

    method SetQueuePaused(queue: string, paused: bool)
      requires Valid()
      modifies this`configs
      ensures Valid() && Contents() == Apply(old(Contents()), SetPaused(queue, paused), 0)
    {
      if queue in configs {
        configs := configs[queue := configs[queue].(paused := paused)];
      } else {
        configs := configs[queue := QueueConfig(paused, DEFAULT_RETAIN_SUCCEEDED, DEFAULT_RETAIN_DEAD)];
      }
    }

    /** Other sessions: any sequence of statements at all. */
    method Interfere(es: seq<Event>)
      requires Valid()
      modifies this
      ensures Valid() && Contents() == Play(old(Contents()), es)
    {
      for k := 0 to |es|
        invariant Valid() && Play(old(Contents()), es) == Play(Contents(), es[k..])
      {
        assert es[k..][1..] == es[k + 1..];
        ApplyHealthy(Contents(), es[k].stmt, es[k].now);
        var db := Apply(Contents(), es[k].stmt, es[k].now);
        jobs, nextId, configs, archive := db.jobs, db.nextId, db.configs, db.archive;
      }
    }
  }

  /** ORDER BY lease_expires_at, finished_at and id; only the last of the three never ties. */
  function LeaseKeys(db: Db, locked: set<Id>, now: Time): Keys {
    map i | i in db.jobs && i !in locked && Expired(db.jobs[i], now) ::
      Key(db.jobs[i].leaseExpiresAt.value, 0, 0)
  }

  function FinishedKeys(db: Db, windows: Windows, locked: set<Id>, now: Time): Keys {
    map i | i in db.jobs && i !in locked && PastRetention(db.jobs[i], db.configs, windows, now) ::
      Key(db.jobs[i].finishedAt.value, 0, 0)
  }

  lemma SameFinished(db: Db, windows: Windows, locked: set<Id>, now: Time)
    ensures var keys, at := FinishedKeys(db, windows, locked, now), FinishTimes(db, windows, locked, now);
      keys.Keys == at.Keys && forall i | i in at :: keys[i] == Key(at[i], 0, 0)
  {
  }

  function PurgeKeys(db: Db, queue: string, states: set<JobState>, locked: set<Id>): Keys {
    map i | i in db.jobs && i !in locked && db.jobs[i].queue == queue && db.jobs[i].state in states ::
      Key(i, 0, 0)
  }
}
