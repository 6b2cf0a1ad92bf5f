/**
 The `job` table's rows, its CHECK constraints and unique indexes, and the SET clause
 of every statement that updates a row.
 */
module Jobs {
  import opened Wrappers

  type Id = nat

  /** Database timestamps and intervals, in microseconds. */
  type Time = int

  const SECOND: Time := 1_000_000
  const MIN_PRIORITY := -32768
  const MAX_PRIORITY := 32767
  const MAX_MAX_ATTEMPTS := 1000
  const REAPER_HISTORY := 5

  datatype JobState = Available | Running | Succeeded | Dead | Cancelled

  datatype DeadReason = AttemptsExhausted | LeaseExpired | NonRetryableError | OperatorCancelled

  datatype ErrorKind = HandlerError | Timeout | LeaseExpiry | ValidationError | NoHandler

  datatype ErrorRecord = ErrorRecord(attempt: int, at: Time, kind: ErrorKind, worker: Option<string>)

  datatype Row = Row(
    queue: string,
    kind: string,
    state: JobState,
    priority: int,
    attempt: int,
    maxAttempts: int,
    leaseSeconds: int,
    runAt: Time,
    enqueuedAt: Time,
    startedAt: Option<Time>,
    finishedAt: Option<Time>,
    leaseExpiresAt: Option<Time>,
    cancelRequestedAt: Option<Time>,
    workerId: Option<string>,
    idempotencyKey: Option<string>,
    uniqueKey: Option<string>,
    deadReason: Option<DeadReason>,
    errors: seq<ErrorRecord>,
    scheduleId: Option<Id>)

  predicate IsTerminal(s: JobState) {
    s == Succeeded || s == Dead || s == Cancelled
  }

  /** States covered by the partial index on unique_key. */
  predicate IsActive(s: JobState) {
    s == Available || s == Running
  }

  // ----- constraints of the schema -----

  /** The CHECK constraints, conjunct by conjunct. */
  predicate Checked(r: Row) {
    && 0 <= r.attempt <= r.maxAttempts
    && 1 <= r.maxAttempts <= MAX_MAX_ATTEMPTS
    && 0 < r.leaseSeconds
    && (r.state == Running ==> r.leaseExpiresAt.Some? && r.workerId.Some?)
    && (r.state == Dead ==> r.deadReason.Some?)
    && (IsTerminal(r.state) ==> r.finishedAt.Some?)
  }

  /** Two rows collide in job_idempotency_idx. */
  predicate SameIdempotency(r: Row, s: Row) {
    r.idempotencyKey.Some? && r.queue == s.queue && r.idempotencyKey == s.idempotencyKey
  }

  /** Two rows collide in job_unique_active_idx. */
  predicate SameActiveKey(r: Row, s: Row) {
    && r.uniqueKey.Some? && r.queue == s.queue && r.uniqueKey == s.uniqueKey
    && IsActive(r.state) && IsActive(s.state)
  }

  predicate IdempotencyUnique(jobs: map<Id, Row>) {
    forall i, j | i in jobs && j in jobs && i != j :: !SameIdempotency(jobs[i], jobs[j])
  }

  predicate ActiveKeyUnique(jobs: map<Id, Row>) {
    forall i, j | i in jobs && j in jobs && i != j :: !SameActiveKey(jobs[i], jobs[j])
  }

  /** What the database accepts as the outcome of a statement. */
  predicate Accepted(jobs: map<Id, Row>) {
    && (forall i | i in jobs :: Checked(jobs[i]))
    && IdempotencyUnique(jobs)
    && ActiveKeyUnique(jobs)
  }

  /**
   The invariant the statements themselves keep, in both directions where the CHECKs
   only state one.
   */
  predicate Consistent(r: Row) {
    && (r.state == Running <==> r.workerId.Some?)
    && (r.state == Running <==> r.leaseExpiresAt.Some?)
    && (IsTerminal(r.state) <==> r.finishedAt.Some?)
    && (r.state == Dead <==> r.deadReason.Some?)
  }

  // ----- worker reports -----

  datatype Fence = Fence(id: Id, worker: string, attempt: int)

  datatype Report =
    | Complete
    | Fail(nonRetryable: bool, delay: Time, maxHistory: int, error: ErrorRecord)
    | Heartbeat(leaseSeconds: int)
    | AckCancel
    | Release

  /** The ownership fence shared by every report. */
  predicate Owns(r: Row, f: Fence) {
    r.state == Running && r.workerId == Some(f.worker) && r.attempt == f.attempt
  }

  predicate ReportGuard(r: Row, f: Fence, report: Report) {
    Owns(r, f) && (report.AckCancel? ==> r.cancelRequestedAt.Some?)
  }

  /** `errors - 0` drops only the oldest element, and nothing from an empty array. */
  function AppendBounded(errors: seq<ErrorRecord>, limit: int, e: ErrorRecord): seq<ErrorRecord> {
    (if |errors| >= limit && |errors| > 0 then errors[1..] else errors) + [e]
  }

  function SetReport(r: Row, report: Report, now: Time): Row {
    match report
    case Complete =>
      r.(state := Succeeded, finishedAt := Some(now), leaseExpiresAt := None, workerId := None)
    case Fail(nonRetryable, delay, maxHistory, error) =>
      var dead := nonRetryable || r.attempt >= r.maxAttempts;
      r.(state := if dead then Dead else Available,
         deadReason := if nonRetryable then Some(NonRetryableError)
                       else if r.attempt >= r.maxAttempts then Some(AttemptsExhausted)
                       else None,
         runAt := if dead then r.runAt else now + delay,
         finishedAt := if dead then Some(now) else None,
         errors := AppendBounded(r.errors, maxHistory, error),
         leaseExpiresAt := None,
         workerId := None)
    case Heartbeat(leaseSeconds) =>
      r.(leaseExpiresAt := Some(now + leaseSeconds * SECOND))
    case AckCancel =>
      r.(state := Cancelled, deadReason := None, finishedAt := Some(now),
         leaseExpiresAt := None, workerId := None)
    case Release =>
      r.(state := Available, runAt := now, leaseExpiresAt := None, workerId := None,
         startedAt := None)
  }

  // ----- claim and reap -----

  predicate Eligible(r: Row, queue: string, paused: bool, now: Time) {
    r.queue == queue && r.state == Available && r.runAt <= now && !paused
  }

  function SetClaim(r: Row, worker: string, now: Time): Row {
    r.(state := Running,
       attempt := r.attempt + 1,
       workerId := Some(worker),
       startedAt := Some(now),
       leaseExpiresAt := Some(now + r.leaseSeconds * SECOND))
  }

  predicate Expired(r: Row, now: Time) {
    r.state == Running && r.leaseExpiresAt.Some? && r.leaseExpiresAt.value < now
  }

  function ReapRecord(r: Row, now: Time): ErrorRecord {
    ErrorRecord(r.attempt, now, LeaseExpiry, r.workerId)
  }

  function SetReap(r: Row, delay: Time, now: Time): Row {
    var dead := r.attempt >= r.maxAttempts;
    r.(state := if dead then Dead else Available,
       deadReason := if dead then Some(LeaseExpired) else None,
       runAt := if dead then r.runAt else now + delay,
       finishedAt := if dead then Some(now) else None,
       startedAt := if dead then r.startedAt else None,
       errors := AppendBounded(r.errors, REAPER_HISTORY, ReapRecord(r, now)),
       leaseExpiresAt := None,
       workerId := None)
  }

  // ----- operators -----

  datatype Admin = CancelAvailable | RequestCancel | RetryNow | Replay

  predicate AdminGuard(r: Row, admin: Admin) {
    match admin
    case CancelAvailable => r.state == Available
    case RequestCancel => r.state == Running
    case RetryNow => r.state == Available
    case Replay => r.state == Dead
  }

  function SetAdmin(r: Row, admin: Admin, now: Time): Row {
    match admin
    case CancelAvailable => r.(state := Cancelled, finishedAt := Some(now))
    case RequestCancel =>
      r.(cancelRequestedAt := if r.cancelRequestedAt.Some? then r.cancelRequestedAt else Some(now))
    case RetryNow => r.(runAt := now)
    case Replay =>
      r.(state := Available, attempt := 0, deadReason := None, runAt := now,
         finishedAt := None, startedAt := None)
  }

  // ----- enqueue -----

  datatype NewJob = NewJob(
    queue: string,
    kind: string,
    priority: int,
    maxAttempts: int,
    leaseSeconds: int,
    runAt: Option<Time>,
    idempotencyKey: Option<string>,
    uniqueKey: Option<string>,
    scheduleId: Option<Id>)

  /** Column types and CHECKs an inserted row must satisfy. */
  predicate Insertable(j: NewJob) {
    && MIN_PRIORITY <= j.priority <= MAX_PRIORITY
    && 1 <= j.maxAttempts <= MAX_MAX_ATTEMPTS
    && 0 < j.leaseSeconds
  }

  function FreshRow(j: NewJob, now: Time): Row {
    Row(j.queue, j.kind, Available, j.priority, 0, j.maxAttempts, j.leaseSeconds,
        match j.runAt { case Some(t) => t case None => now },
        now, None, None, None, None, None, j.idempotencyKey, j.uniqueKey, None, [], j.scheduleId)
  }

  /** ON CONFLICT DO NOTHING skips the row: some index already holds its key. */
  predicate Conflicts(jobs: map<Id, Row>, r: Row) {
    exists i | i in jobs :: SameIdempotency(r, jobs[i]) || SameActiveKey(r, jobs[i])
  }
}
