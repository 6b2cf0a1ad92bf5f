/**
 Sessions that lock their rows one at a time. A statement with SKIP LOCKED remembers the
 queue_config it saw when it started, takes rows nobody holds, re-checking each one as it
 locks it, and writes them all when it commits. The atomic statements of the rest of the
 model are what this comes to.
 */
module SkipLocked {
  import opened Jobs
  import opened Statements

  type SessionId = nat

  /** `stmt` carries the rows locked so far as its picks. */
  datatype Txn = Txn(stmt: Stmt, now: Time, configs: Configs)

  datatype Entry = Entry(stmt: Stmt, now: Time, configs: Configs)

  datatype Shared = Shared(db: Db, open: map<SessionId, Txn>, log: seq<Entry>)

  datatype Move =
    | Begin(session: SessionId, stmt: Stmt, now: Time)
    | Lock(session: SessionId, id: Id)
    | Commit(session: SessionId)
    | Abort(session: SessionId)
    | Direct(stmt: Stmt, now: Time)

  predicate Locked(open: map<SessionId, Txn>, i: Id) {
    exists t | t in open && Skips(open[t].stmt) :: i in open[t].stmt.picks
  }

  predicate CanLock(st: Shared, t: SessionId, i: Id) {
    && t in st.open && i in st.db.jobs && !Locked(st.open, i)
    && var x := st.open[t];
       Skips(x.stmt) && |x.stmt.picks| < x.stmt.limit && Matches(x.stmt, st.db.jobs[i], x.configs, x.now)
  }

  /** Writing locked rows re-checks nothing: it only needs the rows to be there. */
  function Written(db: Db, s: Stmt, now: Time): Db {
    if s.Retain? && exists i | i in s.picks :: i !in db.jobs then db
    else
      match Exec(db, s, now)
      case Ok(db') => db'
      case Rejected => db
  }

  /** A move that is not possible in `st` leaves it alone. */
  function Do(st: Shared, m: Move): Shared {
    match m
    case Begin(t, s, now) =>
      if t in st.open || !Skips(s) then st
      else st.(open := st.open[t := Txn(s.(picks := []), now, st.db.configs)])
    case Lock(t, i) =>
      if !CanLock(st, t, i) then st
      else
        var x := st.open[t];
        st.(open := st.open[t := x.(stmt := x.stmt.(picks := x.stmt.picks + [i]))])
    case Commit(t) =>
      if t !in st.open then st
      else
        var x := st.open[t];
        Shared(Written(st.db, x.stmt, x.now), st.open - {t}, st.log + [Entry(x.stmt, x.now, x.configs)])
    case Abort(t) => st.(open := st.open - {t})
    case Direct(s, now) =>
      if Skips(s) || exists i | i in Targets(st.db, s) :: Locked(st.open, i) then st
      else st.(db := Apply(st.db, s, now), log := st.log + [Entry(s, now, st.db.configs)])
  }

  function DoAll(st: Shared, ms: seq<Move>): Shared
    decreases |ms|
  {
    if ms == [] then st else DoAll(Do(st, ms[0]), ms[1..])
  }

  /** One committed statement as an atomic step, under the configuration it saw. */
  function ApplySeen(db: Db, e: Entry): Db {
    Apply(db.(configs := e.configs), e.stmt, e.now).(
      configs := if e.stmt.SetPaused? then Pause(db.configs, e.stmt.queue, e.stmt.paused) else db.configs)
  }

  function Serial(db: Db, log: seq<Entry>): Db {
    if log == [] then db else ApplySeen(Serial(db, log[..|log| - 1]), log[|log| - 1])
  }

  ghost predicate Holds(db: Db, x: Txn) {
    Skips(x.stmt) && Enabled(db.(configs := x.configs), x.stmt, x.now)
  }

  ghost predicate Disjoint(open: map<SessionId, Txn>) {
    forall t, u, i | t in open && u in open && t != u && Skips(open[t].stmt) && Skips(open[u].stmt)
                     && i in open[t].stmt.picks :: i !in open[u].stmt.picks
  }

  /** What every locked row still satisfies, and no two sessions hold the same row. */
  ghost predicate LockInv(st: Shared) {
    && Sound(st.db)
    && (forall t | t in st.open :: Holds(st.db, st.open[t]))
    && Disjoint(st.open)
  }

  lemma LockKept(st: Shared, t: SessionId, i: Id)
    requires LockInv(st)
    ensures LockInv(Do(st, Lock(t, i)))
  {
    if CanLock(st, t, i) {
      var open := Do(st, Lock(t, i)).open;
      assert forall u | u in st.open && u != t :: i !in st.open[u].stmt.picks;
      assert forall j | j in open[t].stmt.picks :: j in st.open[t].stmt.picks || j == i;
      assert Holds(st.db, open[t]);
    }
  }

  /** Rows outside the picks come out of a write as they were. */
  lemma Untouched(db: Db, s: Stmt, now: Time, i: Id)
    requires IdsFresh(db) && IdempotencyUnique(db.jobs) && ActiveKeyUnique(db.jobs)
    requires i in db.jobs && i !in Targets(db, s)
    ensures i in Written(db, s, now).jobs && Written(db, s, now).jobs[i] == db.jobs[i]
  {
    if s.Insert? {
      InsertAllSpec(db.jobs, db.nextId, s.batch, now);
    }
  }

  lemma StillHolds(db: Db, db': Db, x: Txn)
    requires Holds(db, x)
    requires forall i | i in x.stmt.picks :: i in db'.jobs && db'.jobs[i] == db.jobs[i]
    ensures Holds(db', x)
  {
  }

  /** A write of locked rows is the atomic statement, under the configuration seen. */
  lemma WriteIsAtomic(db: Db, x: Txn)
    requires Sound(db) && Holds(db, x)
    ensures Written(db, x.stmt, x.now) == ApplySeen(db, Entry(x.stmt, x.now, x.configs))
    ensures Sound(Written(db, x.stmt, x.now))
  {
    ApplySound(db.(configs := x.configs), x.stmt, x.now);
    assert Targets(db, x.stmt) == Targets(db.(configs := x.configs), x.stmt);
  }

  lemma CommitKept(st: Shared, t: SessionId)
    requires LockInv(st)
    ensures LockInv(Do(st, Commit(t)))
  {
    if t in st.open {
      var x := st.open[t];
      var db' := Written(st.db, x.stmt, x.now);
      WriteIsAtomic(st.db, x);
      forall u | u in st.open - {t} ensures Holds(db', st.open[u]) {
        forall i | i in st.open[u].stmt.picks ensures i in db'.jobs && db'.jobs[i] == st.db.jobs[i] {
          Untouched(st.db, x.stmt, x.now, i);
        }
        StillHolds(st.db, db', st.open[u]);
      }
    }
  }

  lemma DirectKept(st: Shared, s: Stmt, now: Time)
    requires LockInv(st)
    ensures LockInv(Do(st, Direct(s, now)))
  {
    if Do(st, Direct(s, now)) != st {
      var db' := Apply(st.db, s, now);
      ApplySound(st.db, s, now);
      forall u | u in st.open ensures Holds(db', st.open[u]) {
        forall i | i in st.open[u].stmt.picks ensures i in db'.jobs && db'.jobs[i] == st.db.jobs[i] {
          assert Locked(st.open, i);
          Untouched(st.db, s, now, i);
        }
        StillHolds(st.db, db', st.open[u]);
      }
    }
  }

  lemma MoveKept(st: Shared, m: Move)
    requires LockInv(st)
    ensures LockInv(Do(st, m))
  {
    match m
    case Begin(t, s, now) =>
    case Lock(t, i) => LockKept(st, t, i);
    case Commit(t) => CommitKept(st, t);
    case Abort(t) =>
    case Direct(s, now) => DirectKept(st, s, now);
  }

  lemma MoveIsSerial(start: Db, st: Shared, m: Move)
    requires LockInv(st) && st.db == Serial(start, st.log)
    ensures Do(st, m).db == Serial(start, Do(st, m).log)
  {
    var st' := Do(st, m);
    if |st'.log| > |st.log| {
      assert st'.log[..|st'.log| - 1] == st.log;
      if m.Commit? {
        WriteIsAtomic(st.db, st.open[m.session]);
      }
    }
  }

  /**
   Every interleaving leaves the table that running the committed statements one after the
   other, in commit order, would have left; and no two open sessions ever hold the same row.
   */
  lemma {:induction false} SkipLockedIsSerial(start: Db, st: Shared, ms: seq<Move>)
    requires LockInv(st) && st.db == Serial(start, st.log)
    ensures LockInv(DoAll(st, ms))
    ensures DoAll(st, ms).db == Serial(start, DoAll(st, ms).log)
    decreases |ms|
  {
    if ms != [] {
      MoveKept(st, ms[0]);
      MoveIsSerial(start, st, ms[0]);
      SkipLockedIsSerial(start, Do(st, ms[0]), ms[1..]);
    }
  }

  // ----- and every statement can happen -----

  function Locks(t: SessionId, ids: seq<Id>): seq<Move> {
    seq(|ids|, k requires 0 <= k < |ids| => Lock(t, ids[k]))
  }

  lemma {:induction false} DoAppend(st: Shared, a: seq<Move>, b: seq<Move>)
    ensures DoAll(st, a + b) == DoAll(DoAll(st, a), b)
    decreases |a|
  {
    if a == [] {
      assert a + b == b;
    } else {
      assert (a + b)[1..] == a[1..] + b;
      DoAppend(Do(st, a[0]), a[1..], b);
    }
  }

  lemma DoOne(st: Shared, a: seq<Move>, m: Move)
    ensures DoAll(st, a + [m]) == Do(DoAll(st, a), m)
  {
    DoAppend(st, a, [m]);
    assert [m][1..] == [] && DoAll(DoAll(st, a), [m]) == DoAll(Do(DoAll(st, a), m), []);
  }

  /** The session after it locked the first `k` rows of the statement. */
  function Locking(st: Shared, t: SessionId, s: Stmt, now: Time, k: nat): Shared
    requires Skips(s) && k <= |s.picks|
  {
    st.(open := st.open[t := Txn(s.(picks := s.picks[..k]), now, st.db.configs)])
  }

  lemma LockNext(st: Shared, t: SessionId, s: Stmt, now: Time, k: nat)
    requires Skips(s) && Enabled(st.db, s, now) && k < |s.picks| && t !in st.open
    requires forall i | i in s.picks :: !Locked(st.open, i)
    ensures Do(Locking(st, t, s, now, k), Lock(t, s.picks[k])) == Locking(st, t, s, now, k + 1)
  {
    var st', i := Locking(st, t, s, now, k), s.picks[k];
    assert i in s.picks && i !in s.picks[..k];
    assert forall u | u in st'.open && u != t :: u in st.open && st'.open[u] == st.open[u];
    assert !Locked(st'.open, i);
    assert s.picks[..k + 1] == s.picks[..k] + [i];
  }

  lemma {:induction false} LockPrefix(st: Shared, t: SessionId, s: Stmt, now: Time, k: nat)
    requires Skips(s) && Enabled(st.db, s, now) && k <= |s.picks| && t !in st.open
    requires forall i | i in s.picks :: !Locked(st.open, i)
    ensures DoAll(Locking(st, t, s, now, 0), Locks(t, s.picks[..k])) == Locking(st, t, s, now, k)
  {
    if k > 0 {
      LockPrefix(st, t, s, now, k - 1);
      assert Locks(t, s.picks[..k]) == Locks(t, s.picks[..k - 1]) + [Lock(t, s.picks[k - 1])];
      DoOne(Locking(st, t, s, now, 0), Locks(t, s.picks[..k - 1]), Lock(t, s.picks[k - 1]));
      LockNext(st, t, s, now, k - 1);
    }
  }

  /**
   The other direction: whatever other sessions hold, a session that begins an enabled statement
   on rows nobody has locked can lock them all, one after the other, and its commit is the
   atomic statement.
   */
  lemma EveryStatementHappens(st: Shared, t: SessionId, s: Stmt, now: Time)
    requires LockInv(st) && t !in st.open && Skips(s) && Enabled(st.db, s, now)
    requires forall i | i in s.picks :: !Locked(st.open, i)
    ensures var end := DoAll(st, [Begin(t, s, now)] + Locks(t, s.picks) + [Commit(t)]);
      end.db == Apply(st.db, s, now) && end.open == st.open
  {
    var moves := [Begin(t, s, now)] + Locks(t, s.picks);
    var mid := Locking(st, t, s, now, |s.picks|);
    assert s.picks[..0] == [] && s.picks[..|s.picks|] == s.picks;
    assert moves[1..] == Locks(t, s.picks) && Do(st, moves[0]) == Locking(st, t, s, now, 0);
    LockPrefix(st, t, s, now, |s.picks|);
    assert DoAll(st, moves) == mid;
    DoOne(st, moves, Commit(t));
    CommitLocked(st, t, s, now);
  }

  lemma CommitLocked(st: Shared, t: SessionId, s: Stmt, now: Time)
    requires Sound(st.db) && t !in st.open && Skips(s) && Enabled(st.db, s, now)
    ensures var end := Do(Locking(st, t, s, now, |s.picks|), Commit(t));
      end.db == Apply(st.db, s, now) && end.open == st.open
  {
    var mid := Locking(st, t, s, now, |s.picks|);
    assert s.picks[..|s.picks|] == s.picks && s.(picks := s.picks) == s;
    WriteIsAtomic(st.db, mid.open[t]);
    assert mid.open - {t} == st.open;
  }

  /** A session that commits or gives up holds nothing any more; giving up leaves no trace in the table. */
  lemma RowsFreed(st: Shared, t: SessionId, m: Move)
    requires LockInv(st) && t in st.open && (m == Commit(t) || m == Abort(t))
    ensures var st' := Do(st, m);
      && st'.open == st.open - {t}
      && (Skips(st.open[t].stmt) ==> forall i | i in st.open[t].stmt.picks :: !Locked(st'.open, i))
      && (m.Abort? ==> st'.db == st.db && st'.log == st.log)
  {
    var open := st.open - {t};
    if Skips(st.open[t].stmt) {
      forall i | i in st.open[t].stmt.picks ensures !Locked(open, i) {
        assert forall u | u in open && Skips(open[u].stmt) :: u != t && i !in st.open[u].stmt.picks;
      }
    }
  }

  // ----- the configuration is read, not locked -----

  /**
   A claim is the atomic claim at its commit if and only if the queue was not paused behind
   its back, or it has nothing to hand out.
   */
  lemma PauseRaces(st: Shared, t: SessionId)
    requires LockInv(st) && t in st.open && st.open[t].stmt.Claim?
    ensures var x := st.open[t];
      Do(st, Commit(t)).db == Apply(st.db, x.stmt, x.now) <==>
        || !Paused(st.db.configs, x.stmt.queue)
        || x.stmt.picks == []
        || Exec(st.db, x.stmt, x.now).Rejected?
  {
    var x := st.open[t];
    var db' := Written(st.db, x.stmt, x.now);
    assert Enabled(st.db, x.stmt, x.now) <==> !Paused(st.db.configs, x.stmt.queue) || x.stmt.picks == [] by {
      if x.stmt.picks != [] {
        assert x.stmt.picks[0] in x.stmt.picks;
      }
    }
    if x.stmt.picks != [] && Exec(st.db, x.stmt, x.now).Ok? {
      var i := x.stmt.picks[0];
      assert i in Targets(st.db, x.stmt);
      assert db'.jobs[i].state == Running && st.db.jobs[i].state == Available;
    }
  }

  predicate Calm(m: Move) {
    m.Direct? ==> !m.stmt.SetPaused?
  }

  ghost predicate SeenAlike(st: Shared, configs: Configs) {
    && st.db.configs == configs
    && (forall t | t in st.open :: st.open[t].configs == configs)
    && (forall k | 0 <= k < |st.log| :: st.log[k].configs == configs && !st.log[k].stmt.SetPaused?)
  }

  lemma CalmStep(st: Shared, m: Move, configs: Configs)
    requires LockInv(st) && SeenAlike(st, configs) && Calm(m)
    ensures SeenAlike(Do(st, m), configs)
  {
    if m.Commit? && m.session in st.open {
      WriteIsAtomic(st.db, st.open[m.session]);
    }
  }

  function Events(log: seq<Entry>): seq<Event> {
    seq(|log|, k requires 0 <= k < |log| => Event(log[k].stmt, log[k].now))
  }

  lemma {:induction false} PlayLast(db: Db, es: seq<Event>, e: Event)
    ensures Play(db, es + [e]) == Apply(Play(db, es), e.stmt, e.now)
    decreases |es|
  {
    if es == [] {
      assert es + [e] == [e] && [e][1..] == [];
    } else {
      assert (es + [e])[1..] == es[1..] + [e];
      PlayLast(Apply(db, es[0].stmt, es[0].now), es[1..], e);
    }
  }

  lemma {:induction false} SerialIsPlay(db: Db, log: seq<Entry>)
    requires forall k | 0 <= k < |log| :: log[k].configs == db.configs && !log[k].stmt.SetPaused?
    ensures Serial(db, log) == Play(db, Events(log)) && Serial(db, log).configs == db.configs
  {
    if log != [] {
      var init, last := log[..|log| - 1], log[|log| - 1];
      SerialIsPlay(db, init);
      assert Events(log) == Events(init) + [Event(last.stmt, last.now)];
      PlayLast(db, Events(init), Event(last.stmt, last.now));
    }
  }

  lemma {:induction false} CalmRun(st: Shared, ms: seq<Move>, configs: Configs)
    requires LockInv(st) && SeenAlike(st, configs) && forall m | m in ms :: Calm(m)
    ensures SeenAlike(DoAll(st, ms), configs)
    decreases |ms|
  {
    if ms != [] {
      MoveKept(st, ms[0]);
      CalmStep(st, ms[0], configs);
      CalmRun(Do(st, ms[0]), ms[1..], configs);
    }
  }

  /** While no queue is paused or resumed, the outcome is a run of the atomic statements. */
  lemma CalmRunsAreAtomic(db: Db, ms: seq<Move>)
    requires Sound(db) && forall m | m in ms :: Calm(m)
    ensures var end := DoAll(Shared(db, map[], []), ms);
      end.db == Play(db, Events(end.log))
  {
    var st := Shared(db, map[], []);
    SkipLockedIsSerial(db, st, ms);
    CalmRun(st, ms, db.configs);
    SerialIsPlay(db, DoAll(st, ms).log);
  }
}
