# pgjobq: a verified model

pgjobq is a job queue kept in one Postgres table. Its lifecycle is a lease-based protocol: workers
claim rows, heartbeat and report; reapers recover rows whose lease ran out; schedulers insert
occurrences; operators cancel, retry, replay, pause and purge. Every step is one SQL statement, and
any number of processes interleave them. This project models those statements and the loops around
them in Dafny and proves what the protocol promises over whole runs.

`dafny verify dfyconfig.toml` checks everything.

## How the model is built

- `Jobs` is a row, its CHECK constraints, its two unique indexes and the SET clause of every update.
- `Statements` is the database and its atomic statements (`Exec`, `Apply`, `Play`). What SKIP LOCKED
  leaves to chance is an argument: a claim, reap, purge or prune names the rows it got to lock. A
  statement that violates a constraint is rejected whole. Clocks are arguments too, and nothing
  assumes that they only move forward.
- `History` adds each job's past (deliveries, failures, accumulated delay, how it left the table) and
  the invariant of every reachable world. The statements never read the past (`RunIsPlay`).
- `Columns` spells out, column by column and apart from those definitions, which rows each statement may
  take and what it leaves in them. `Waiting` is what follows for a job that is due later.
- `Deliveries`, `Guarantees` and `StateMachine` are the promises about whole runs.
- `SkipLocked` goes below the atomic statements: sessions lock rows one at a time and commit later.
- `Selection` and `Claims` are ORDER BY ... LIMIT, the two claim orders and what aging buys.
- `JobTable` is the table as an object whose methods assign columns step by step; each is proved to
  be the atomic statement of the same name. `Runner`, `Clients`, `BatchEnqueue`, `Drains`, `Ticks`,
  `Pool` and `EventStream` are the source's loops and multi-statement calls, proved against it.
- `Scheduler` lets any number of schedulers interleave the phases of their ticks (claim, read the clock,
  insert, advance) with clients and with operators, whose resume reads its clock in one step and writes in
  another; `Planning` is what each of these steps does, and what a paused schedule
  makes; `Outages` is about runs with one scheduler. `Occurrences`, `Enqueue`, `LeaseSafety`,
  `Backoff` and `Keyset` hold the remaining protocols and their theorems.

Time is in microseconds for the database and in milliseconds for JavaScript dates. Delays are reals
until they are rounded. The heartbeat timer, the handler, random draws and everything other sessions
do are arguments.

## Where the code differs from its documentation

The model follows the code in each case.

- `docs/state-machine.md:6` and `packages/core/src/engine/state-machine.ts:4` say that every mutation
  goes through `assertTransition`. Nothing that writes the table calls it. The statements do stay
  within the table all the same (`UpdateRefinesTable`, `StepRefinesTable`), but a release has no reason
  of its own in it.
- `docs/delivery-guarantees.md:61-76` says the fence catches every stale write. A replay resets
  `attempt` (`packages/core/src/sql/query.sql.ts:216`), so a delivery from before the replay passes when
  the same worker is at the same attempt again. `FenceExact` gives the condition, both ways, and
  `ReplayAdmitsStaleReport` a run of five statements in which it happens.
- `docs/delivery-guarantees.md:17` bounds deliveries by `max_attempts` under any sequence of events. The
  bound that holds is `max_attempts * (1 + replays)` (`DeliveryBudget`).
- A release on the final attempt leaves an available row with no attempts left. The claim that selects
  it is rejected whole, and where it is first in its queue no uncontended claim hands out anything
  (`ExhaustedAvailable`, `RejectedExactly`, `BlockedQueue`). `ReleaseExhausts` is a run of three statements
  that gets there, `SpentForever` says that only a cancel or a purge ends it, and `BlockedForever` that the
  queue stays blocked until something gets ahead of the row.
- `packages/core/src/worker/pool.ts:242-284` keys what is in flight by job id, so a pool that is handed a job
  it still runs executes more handlers than its concurrency. `ReclaimRun` is a run of six statements on an
  empty table that brings it about.
- `enqueueBatch` takes entries without an idempotency key to be positional because they cannot conflict.
  They can, on a unique key. `MappingExact` and `AnswerableExactly` say exactly when the mapping is right, and
  `DebouncedBatch` is a batch of two for which it is not.
- A claim reads `queue_config` without locking it, so it can hand out jobs of a queue paused meanwhile
  (`PauseRaces`).
- One occurrence has at most one job in the table at any time, but a second scheduler that already holds
  the occurrence creates it again once the first row is purged (`RepeatsAfterPurge`).
- `packages/core/src/sql/schedule.sql.ts:4-9` makes uniqueness of the occurrence key the whole guarantee,
  but a client may use a key of that form too (`packages/server/src/schemas.ts:49` takes any string). Such a
  request swallows the occurrence (`ClientSuppresses`). `FiresExactly` holds whatever keys clients use;
  `HeldMeansDone` and `KeyNamesOccurrence` need them to keep away from the form.
- `packages/core/src/sql/schedule.sql.ts:133-135` says that a resume advances from the next future occurrence.
  It computes that occurrence from a clock it reads first (`packages/core/src/engine/scheduler.ts:300`) and
  writes it later, without a guard (`packages/core/src/sql/schedule.sql.ts:146-152`). If a tick
  processes the schedule in between, the write puts `next_run_at` back, the next tick processes the same
  occurrence again, and if its first job is gone it gets a second one (`LateResumeRepeats`). The promises
  about one scheduler hold as long as no resume writes a time its schedule was processed at or after;
  `WriteKeepsExactly` says that such a write, and no other, breaks them, and `UninterruptedIsFresh` that nothing
  needs checking when no tick comes between a resume's reading and its write.
- Between an insert and its advance a failing tick leaves the schedule where it was, and the next tick
  processes the same occurrence again (`LostAdvanceRepeats`).
- A cancel whose job is released between its two statements fails with an invalid transition out of
  `available` (`CancelMissesRelease`).

## Model

| member | source | states |
|---|---|---|
| Statements.InsertAllSpec | packages/core/src/sql/enqueue.sql.ts:37-112 | an insert keeps every old row, puts fresh rows under fresh ids in request order and keeps both unique indexes; what a fresh row holds is `Columns.InsertColumns` |
| Statements.InsertedUnlessConflict | packages/core/src/sql/enqueue.sql.ts:37-112 | an item is inserted iff it conflicts with nothing in the table as the items before it left it |
| Statements.RowAfter | packages/core/src/sql/report.sql.ts:33-210 | the only ways one row comes out of any statement: untouched, updated under its own WHERE clause, or removed by a purge or by retention |
| Statements.ApplyHealthy | packages/core/migrations/001_initial_schema.sql:120-135 | running iff worker set iff lease set, terminal iff finished_at set, dead iff dead_reason set: kept by every statement's own clauses |
| Statements.PlayHealthy | packages/core/migrations/001_initial_schema.sql:120-172 | the same over every run, with the constraints, the unique indexes and the freshness of ids |
| Statements.UpdateFits | packages/core/migrations/001_initial_schema.sql:120-172 | an update outside the two rejected cases violates no constraint |
| Statements.RejectedUpdate | packages/core/migrations/001_initial_schema.sql:120-172 | a claim of an exhausted row, and a replay onto a taken unique key, violate one |
| Statements.Reported | packages/core/src/sql/report.sql.ts:7-210 | a report changes exactly its own row when the fence lets it through, and nothing at all otherwise |
| Statements.GoneStays | packages/core/migrations/001_initial_schema.sql:85 | a removed id never comes back |
| Columns.InsertAccepts | packages/core/migrations/001_initial_schema.sql:97-135 | an insert is accepted iff every priority is a smallint, every max_attempts is 1 to 1000 and every lease positive |
| Columns.InsertColumns | packages/core/src/sql/enqueue.sql.ts:37-112 | a created row is available and untried, due at the requested time or else now, with the request's queue, type, priority, attempts, lease, keys and schedule |
| Columns.ClaimTakes | packages/core/src/sql/claim.sql.ts:56-67 | a claim may take exactly distinct rows, within its limit, that are available and due in its queue, if that is not paused |
| Columns.ClaimColumns | packages/core/src/sql/claim.sql.ts:68-80 | each row taken is running for the worker under the next attempt, leased from now for its own lease time; nothing else changes |
| Columns.FencedOut | packages/core/src/sql/report.sql.ts:7-50 | a report that is not the owner's, or an acknowledgement nobody asked for, changes nothing |
| Columns.CompleteColumns | packages/core/src/sql/report.sql.ts:33-50 | the owner's completion: succeeded, finished now, no lease and no worker |
| Columns.RetryColumns | packages/core/src/sql/report.sql.ts:73-120 | a retryable failure with attempts left: available, due again exactly the delay later, one more error |
| Columns.DeadColumns | packages/core/src/sql/report.sql.ts:73-120 | a non-retryable failure or the last attempt: dead for that reason, run_at kept, one more error |
| Columns.HeartbeatColumns | packages/core/src/sql/report.sql.ts:139-153 | a heartbeat leases from now for the given time and changes nothing else |
| Columns.AckColumns | packages/core/src/sql/report.sql.ts:161-180 | an acknowledged cancellation: cancelled, finished now |
| Columns.ReleaseColumns | packages/core/src/sql/report.sql.ts:192-210 | a release: available and due now, with the attempt it used |
| Columns.ReapTakes | packages/core/src/sql/reap.sql.ts:38-45 | a reap may take exactly distinct running rows, within its limit, whose lease ended before now |
| Columns.ReapColumns | packages/core/src/sql/reap.sql.ts:46-89 | each is due again after the delay or, without attempts left, dead as lease_expired, with a lease error either way |
| Columns.RetainTakes | packages/core/src/sql/retention.sql.ts:32-49 | retention may take exactly finished rows past their window: the dead's own, the others', the queue's configuration first |
| Columns.PurgeTakes | packages/core/src/sql/query.sql.ts:279-297 | a purge may take exactly rows of its queue in its states, within its limit |
| Columns.DeleteColumns | packages/core/src/sql/retention.sql.ts:49-109 | both delete their rows and nothing else; archiving appends each with its id |
| Columns.CancelColumns | packages/core/src/sql/query.sql.ts:155-168 | an available job is cancelled now, any other left alone |
| Columns.RequestColumns | packages/core/src/sql/query.sql.ts:177-188 | a running job gets a cancellation request, if it has none yet |
| Columns.RetryNowColumns | packages/core/src/sql/query.sql.ts:191-202 | an available job is due now |
| Columns.ReplayColumns | packages/core/src/sql/query.sql.ts:211-246 | each dead job named starts afresh: available, due now, attempt 0, errors kept |
| Columns.PauseColumns | packages/core/src/sql/query.sql.ts:249-260 | pausing keeps the windows of a configured queue; any other gets a day and thirty days |
| Waiting.ScheduledWaits | packages/core/src/sql/enqueue.sql.ts:45 | after every run that neither retries it now nor claims it when it is due, no claim may take a job before the time it was enqueued for |
| Waiting.RetryWaits | packages/core/src/sql/report.sql.ts:87-90 | the same of a job that failed: not before the failure plus its delay |
| Waiting.ReapWaits | packages/core/src/sql/reap.sql.ts:55-58 | the same of a reaped job |
| Waiting.CanBeHad | packages/core/src/sql/claim.sql.ts:56-67 | a claim of a job goes through iff it is available, due and has attempts left and its queue is not paused |
| Waiting.HandedBack | packages/core/src/sql/report.sql.ts:192-210 | a released job with attempts left can be claimed at once |
| Waiting.RetriedNow | packages/core/src/sql/query.sql.ts:191-202 | so can one retried now |
| History.Reachable | packages/core/src/sql/report.sql.ts:7-21 | the invariant tying every row to its past (attempt count, deliveries in order, open iff running, how it closed, error log) holds in every reachable world |
| History.RunIsPlay | packages/core/src/sql/report.sql.ts:7-21 | recording the past never changes what the database does |
| History.RowKept | packages/core/src/sql/claim.sql.ts:56-80 | one update keeps a row and its past consistent |
| History.FailureLogged | packages/core/src/sql/report.sql.ts:95-100 | a bounded append keeps the log a suffix of the unbounded history |
| StateMachine.BuildPermitted | packages/core/src/engine/state-machine.ts:112-118 | the lookup built entry by entry has every state as key, and permits exactly the transitions listed in the table |
| StateMachine.UpdateRefinesTable | packages/core/src/engine/state-machine.ts:43-110 | every statement's state change is an entry of the table, for its own reason; only a release borrows another's |
| StateMachine.MovesExactly | packages/core/src/engine/state-machine.ts:43-110 | the pairs of states the table permits, state by state: none out of succeeded or cancelled, out of dead only to available |
| StateMachine.EveryEntryHappens | packages/core/src/engine/state-machine.ts:43-110 | no entry too many: each is a move that some statement makes for its reason |
| StateMachine.StepRefinesTable | packages/core/src/engine/state-machine.ts:43-137 | whatever the step, a row keeps its state or makes a permitted move |
| StateMachine.TerminalStays | packages/core/src/engine/state-machine.ts:123-125 | over every run of job statements a succeeded or cancelled row never changes again, and a dead one only by a replay; what deleting a schedule does to it is `TerminalUnlinked` |
| Deliveries.FenceExact | packages/core/src/sql/report.sql.ts:7-50 | in every run a delivery passes the fence iff it is the current one, or the same worker was given the same attempt again after a replay |
| Deliveries.SingleHolder | packages/core/src/sql/claim.sql.ts:56-80 | at most one delivery of a job is open, and then its holder owns the row |
| Deliveries.StaleReportIgnored | packages/core/src/sql/report.sql.ts:33-210 | within a replay epoch a report of a delivery that is over changes nothing, even from the worker that re-claimed the job |
| Deliveries.AcceptedReportCloses | packages/core/src/sql/report.sql.ts:33-210 | a report that passes closes the open delivery in its own way, and touches no other job |
| Deliveries.ReplayAdmitsStaleReport | packages/core/src/sql/query.sql.ts:211-227 | a concrete run in which a reaped delivery completes the job after a replay |
| Deliveries.AttemptCountsClaims | packages/core/src/sql/claim.sql.ts:43-48 | attempt is the number of claims since insertion or the last replay |
| Deliveries.DeliveryBudget | packages/core/migrations/001_initial_schema.sql:120-124 | no job, present or gone, is delivered more than max_attempts * (1 + replays) times |
| Deliveries.ClosedOnce | packages/core/src/sql/report.sql.ts:33-210 | over every run a delivery is closed at most once and nothing in a job's past is rewritten |
| Deliveries.ExhaustedAvailable | packages/core/src/sql/report.sql.ts:192-210 | an available row is out of attempts iff its last delivery was released on the final attempt; succeeded and lease_expired say how the last delivery closed |
| Deliveries.ReleaseExhausts | packages/core/src/sql/report.sql.ts:192-210 | a concrete run: one attempt, claimed and released, after which every claim of the job is rejected |
| Deliveries.SpentForever | packages/core/src/sql/claim.sql.ts:68-76 | in every run that neither cancels nor purges it such a job stays available and out of attempts, and a claim that selects it changes nothing |
| Deliveries.RejectedExactly | packages/core/migrations/001_initial_schema.sql:120-172 | in every reachable database a statement, for an insert one without a schedule, is rejected iff it claims an exhausted row, replays onto a taken unique key or inserts a value out of range |
| Guarantees.ErrorsAreSuffix | packages/core/src/sql/reap.sql.ts:67-79 | errors is the end of the full failure history, never longer than the largest limit used and, with that many failures, never shorter than the smallest |
| Guarantees.ErrorsBounded | packages/core/src/sql/report.sql.ts:95-100 | in every run whose limits lie between two numbers, the reaper's five between them, the log holds at most the larger and all failures or at least the smaller |
| Guarantees.FailureAttemptsIncrease | packages/core/src/sql/report.sql.ts:95-100 | within a replay epoch the recorded attempts strictly increase |
| Guarantees.LifetimeBackoff | packages/core/src/sql/report.sql.ts:73-120 | between two replays failures and reaps delay a job by at most (max_attempts - 1) times the longest single delay |
| Guarantees.DelayIsPostponement | packages/core/src/sql/report.sql.ts:87-90 | what is added up is the distance from each retrying statement to the row's new run_at, and a replay starts from nothing |
| Guarantees.EpochsAreReplays | packages/core/src/sql/query.sql.ts:211-227 | the epochs of a job are counted up by its replays and by nothing else |
| Guarantees.CancelRequestStays | packages/core/src/sql/query.sql.ts:177-188 | no statement clears a cancellation request |
| Guarantees.KeysUnique | packages/core/migrations/001_initial_schema.sql:161-172 | in every run one row per idempotency key and one non-terminal row per unique key |
| Guarantees.JobsConserved | packages/core/src/sql/retention.sql.ts:27-109 | every id ever inserted is in the table, once in the archive, or removed by a prune or purge, and in one place only |
| Guarantees.RemovedOnlyBy | packages/core/src/sql/retention.sql.ts:27-109 | a row leaves only by a purge of its queue and state, or by retention once terminal and past its window, archived if archiving |
| Guarantees.RemovedHow | packages/core/src/sql/retention.sql.ts:27-109 | a removed job is on record as purged, archived or pruned, each exactly when that statement removed it |
| SkipLocked.SkipLockedIsSerial | packages/core/src/sql/claim.sql.ts:56-80 | every interleaving of row locks leaves the table that the committed statements, run one by one in commit order, would leave; no row is locked twice |
| SkipLocked.EveryStatementHappens | packages/core/src/sql/claim.sql.ts:56-80 | conversely, next to any open sessions an enabled statement on rows nobody holds can lock them one by one, and its commit is the atomic statement |
| SkipLocked.RowsFreed | packages/core/src/sql/claim.sql.ts:56-80 | a session that commits or gives up holds no row any more, and giving up leaves the table as it is |
| SkipLocked.WriteIsAtomic | packages/core/src/sql/reap.sql.ts:38-45 | writing rows locked earlier is the atomic statement at commit, under the configuration it saw |
| SkipLocked.PauseRaces | packages/core/src/sql/claim.sql.ts:56-80 | a claim is the atomic claim at its commit iff its queue is not paused by then, or it has nothing to hand out |
| SkipLocked.CalmRunsAreAtomic | packages/core/src/sql/query.sql.ts:286-294 | while no queue is paused or resumed, every interleaving is a run of atomic statements |
| Selection.FirstInOrder | packages/core/src/sql/claim.sql.ts:62-66 | ORDER BY ... LIMIT takes the first min(limit, n) rows in order |
| Selection.FirstUnique | packages/core/src/sql/claim.sql.ts:62-66 | when no keys tie that choice is unique |
| Claims.OrdersAreStrict | packages/core/src/sql/claim.sql.ts:96-117 | both claim orders are strict |
| Claims.MostUrgentFirst | packages/core/src/sql/claim.sql.ts:60-66 | on the columns: distinct due jobs, fewer than the limit only if there are no more, each of higher priority than the next and than any left out, or as high and due longer, or that and older |
| Claims.MostUrgentAgedFirst | packages/core/src/sql/claim.sql.ts:104-117 | the same with a point of priority for each full threshold a job has been due |
| Claims.AgingExact | packages/core/src/sql/claim.sql.ts:96-117 | the job due first stays ahead at every instant iff its head start is at least one threshold per point of priority |
| Claims.OvertakenOnlyByOlder | packages/core/src/sql/claim.sql.ts:96-117 | an uncontended aging claim passes a job over only for jobs due less than 65535 thresholds after it |
| Claims.NoStarvation | packages/core/src/sql/claim.sql.ts:96-117 | over every run from the empty database: while its run_at stays, a job is passed over by uncontended claims only for jobs due less than 65535 thresholds later |
| Claims.InRangeAlways | packages/core/migrations/001_initial_schema.sql:97 | priorities stay within smallint in every run |
| Claims.BlockedQueue | packages/core/src/sql/claim.sql.ts:53-130 | in the priority order and in the aging order, an exhausted row first in its queue makes every uncontended claim fail whole |
| Claims.BlockedForever | packages/core/src/sql/claim.sql.ts:53-130 | the blockage lasts, in both orders, over every run that brings nothing ahead of the row and neither cancels nor purges it |
| Claims.BehindExactly | packages/core/src/sql/claim.sql.ts:96-130 | under aging a job due later stays behind the row at all times iff it is due later by a threshold for each point of priority it has on it |
| JobTable.AllOrNothing | packages/core/migrations/001_initial_schema.sql:120-172 | a multi-row update changes all of its rows, or none exactly in the two rejected cases |
| JobTable.Table.InsertJobs | packages/core/src/sql/enqueue.sql.ts:75-112 | the insert statement, with the ids RETURNING yields item by item; the rows are those of `Columns.InsertColumns` |
| JobTable.Table.ClaimJobs | packages/core/src/sql/claim.sql.ts:53-80 | takes the most urgent due jobs nobody holds, highest priority, longest due and oldest first and none passed over, or is rejected iff one of them is out of attempts |
| JobTable.Table.ClaimJobsWithAging | packages/core/src/sql/claim.sql.ts:96-136 | the same with a point of priority for each full threshold a job has been due |
| JobTable.Table.CompleteJob | packages/core/src/sql/report.sql.ts:33-50 | the statement, and hit iff the fence holds |
| JobTable.Table.FailJob | packages/core/src/sql/report.sql.ts:73-120 | the statement; with attempts left a retryable failure is available and due exactly the delay later, any other is dead for its reason |
| JobTable.Table.HeartbeatJob | packages/core/src/sql/report.sql.ts:139-153 | the statement; the owner alone learns of a cancellation request |
| JobTable.Table.AcknowledgeCancellation | packages/core/src/sql/report.sql.ts:161-180 | the statement, and hit iff owned and requested |
| JobTable.Table.ReleaseJob | packages/core/src/sql/report.sql.ts:192-210 | the statement, with no guard on the attempt |
| JobTable.Table.ReapExpiredLeases | packages/core/src/sql/reap.sql.ts:35-89 | the running jobs whose leases ended earliest, unlocked and within the limit, each recovered or dead-lettered |
| JobTable.Table.PruneTerminal | packages/core/src/sql/retention.sql.ts:27-109 | deletes, or moves to the archive, the unlocked jobs past their window that finished earliest |
| JobTable.Table.PurgeQueue | packages/core/src/sql/query.sql.ts:279-297 | deletes the lowest unlocked ids of the queue in the given states |
| JobTable.Table.CancelAvailableJob | packages/core/src/sql/query.sql.ts:155-168 | the statement, and hit iff available |
| JobTable.Table.RequestCancelRunningJob | packages/core/src/sql/query.sql.ts:177-188 | the statement, and hit iff running; the first request's time stays |
| JobTable.Table.RetryJobNow | packages/core/src/sql/query.sql.ts:191-202 | the statement, and hit iff available |
| JobTable.Table.ReplayDeadJobs | packages/core/src/sql/query.sql.ts:211-246 | replays every dead row named, or none iff a unique key would have two active rows |
| JobTable.Table.SetQueuePaused | packages/core/src/sql/query.sql.ts:249-260 | the upsert of the queue's configuration |
| Enqueue.HolderStaysAlong | packages/core/src/sql/enqueue.sql.ts:115-118 | while nothing is removed, the job under a key stays the one found |
| Enqueue.ConcurrentEnqueue | packages/core/src/client.ts:107-136 | N enqueues of one key in any interleaving leave one job; all return its id and exactly one says it created it |
| Clients.EnqueueJob | packages/core/src/client.ts:107-136 | creates an available, untried job due at the requested time or now iff neither key is held; otherwise says which index rejected it, as found by the later lookups; the table is exactly what the statements leave |
| Clients.ResolveConflict | packages/core/src/client.ts:458-481 | idempotency first, then the active unique key, then unexplained |
| Enqueue.ConflictExplained | packages/core/src/sql/enqueue.sql.ts:115-128 | ON CONFLICT skips a row iff one of the two lookups would find its rival |
| Clients.KeyStaysTaken | packages/core/src/client.ts:458-481 | a held key resolves to its holder whatever happens before the lookup, short of removals |
| Clients.Cancel | packages/core/src/client.ts:266-284 | acknowledged iff available, requested iff running at the second statement, else the state read last, with the table of that case; undisturbed, an error names a terminal state |
| Clients.CancelMissesRelease | packages/core/src/client.ts:266-284 | a release between the two statements leaves the job available and not cancelled |
| Clients.ReplayMany | packages/core/src/client.ts:316-331 | the dead jobs named are replayed and the rest reported, or the call fails and changes nothing |
| Clients.SkippedExactly | packages/core/src/client.ts:316-331 | an id is skipped iff it was not replayed |
| BatchEnqueue.EnqueueBatch | packages/core/src/client.ts:144-210 | too large, the first invalid item, or a value out of range, each exactly when so and nothing inserted; otherwise result i is what the mapping reports for item i, from the table as its own lookup finds it |
| BatchEnqueue.MapBack | packages/core/src/client.ts:176-201 | the two loops compute the mapping for every mix of items, whatever others commit before each lookup |
| BatchEnqueue.KeyedItem | packages/core/src/client.ts:185-197 | a keyed item gets its own job or its key's holder, unless it was kept out while its key went in with another item |
| BatchEnqueue.UnkeyedItem | packages/core/src/client.ts:198-201 | an item without a key is answered rightly iff neither it nor one before it was debounced |
| BatchEnqueue.MappingExact | packages/core/src/client.ts:176-201 | every result is the item's own job, or its key's holder marked deduplicated, or none, iff each item kept out has a key no other item was inserted under |
| BatchEnqueue.InsertedExactly | packages/core/src/sql/enqueue.sql.ts:75-112 | an item is inserted iff both of its keys are free in the table and among the items entering before it |
| BatchEnqueue.AnswerableExactly | packages/core/src/client.ts:176-201 | the condition of the exact mapping, on the table and the request before the call |
| BatchEnqueue.MappingServes | packages/core/src/client.ts:176-201 | every result is right and names a job iff each item kept out had its key in the table already |
| BatchEnqueue.MappableExactly | packages/core/src/client.ts:176-201 | that is so iff, among the items whose key is not in the table, none is debounced and no two share a key |
| BatchEnqueue.DebouncedItemTakesNextId | packages/core/src/client.ts:198-201 | for every table that holds an unkeyed item's unique key, that item is reported as the creator of the next item's job and the next as having none |
| BatchEnqueue.DebouncedBatch | packages/core/src/client.ts:198-201 | a concrete table and batch of two on which it happens |
| Runner.Runner.Run | packages/core/src/worker/runner.ts:55-163 | the run sends exactly one heartbeat per tick for the job's lease, the acknowledgement if called for and the outcome report, all under its own fence, and the one transition its outcome names was made and no other; a failed run is dead iff the error is hopeless or the attempts are used up, with its error recorded and the retry due after its backoff; a cancellation a heartbeat saw wins if the row is still owned |
| Runner.OutcomeNamesEffects | packages/core/src/worker/runner.ts:55-253 | whatever runs in between, the statements of a run had exactly the one effect its outcome names; a lost ownership had none |
| Runner.RunDecided | packages/core/src/worker/runner.ts:113-253 | the outcome case by case: lost, cancelled, lost at the report, succeeded, dead iff declared non-retryable, an invalid payload or a missing handler without a timeout, or out of attempts, else retried |
| Runner.FailureRecorded | packages/core/src/worker/runner.ts:200-226 | the row gets one more error of this attempt, a timeout if it timed out and else of the kind thrown; a retry is due after the delay the error asked for, capped, or this attempt's backoff |
| Runner.SeenCancelWins | packages/core/src/worker/runner.ts:132-143 | after a heartbeat saw a cancellation request the run is cancelled iff it owns the row at the acknowledgement |
| Runner.Runner.Heartbeats | packages/core/src/worker/runner.ts:103-111 | one heartbeat per tick, and the flag is set iff one of them saw a request |
| Runner.Runner.Beat | packages/core/src/worker/runner.ts:80-101 | sends the heartbeat, and sees a request iff the row is owned and one is pending |
| Runner.Runner.Acknowledge | packages/core/src/worker/runner.ts:132-143 | sends the acknowledgement, accepted iff the row is owned and a request pending |
| Runner.Runner.Finish | packages/core/src/worker/runner.ts:145-163 | sends the completion, and answers succeeded iff the row is owned |
| Runner.Runner.ReportFailure | packages/core/src/worker/runner.ts:171-253 | sends the failure report; lost if not the owner, dead iff the error is hopeless or the attempts are used up, else retried, with the error recorded and the retry due after its backoff |
| Runner.RunnerReportsFit | packages/core/src/worker/runner.ts:203-226 | the reports runners send meet what the run-level theorems assume of them |
| LeaseSafety.HeartbeatFitsLease | packages/core/src/worker/runner.ts:75-78 | the interval is the given fraction of the lease in whole milliseconds, at least 500, and leaves a tenth of the lease for every fraction configuration allows |
| LeaseSafety.ClaimLeases | packages/core/src/sql/claim.sql.ts:68-80 | a claim leases each job it takes from its instant for the job's lease time |
| LeaseSafety.ReapedAfterLease | packages/core/src/sql/reap.sql.ts:38-45 | a reap may take a leased job iff more than the granted time has gone by |
| LeaseSafety.OnTimeKeepsJob | packages/core/src/sql/reap.sql.ts:38-45 | a delivery that heartbeats on time still owns its row, whatever all reapers and others do |
| LeaseSafety.PunctualIsOnTime | packages/core/src/worker/runner.ts:103-111 | a timer with bounded start-up and delivery delay is on time when they fit beside the interval |
| LeaseSafety.LiveHandlerKeepsJob | packages/core/src/worker/runner.ts:75-111 | hence from the claim on no reap takes the job of a live handler whose delays fit in a tenth of the lease |
| Backoff.BaseDelayMonotone | packages/core/src/engine/backoff.ts:27-35 | the base delay never decreases with the attempt, never exceeds the cap and stays at it |
| Backoff.BaseDelayGrows | packages/core/src/engine/backoff.ts:27-35 | the first retry waits the initial delay, each later one the multiplier times the last, both up to the cap |
| Backoff.JitterExact | packages/core/src/engine/backoff.ts:51-65 | to the nearest millisecond: the base, or as far along its upper half, or along all of it, as the draw says |
| Backoff.DelaySent | packages/core/src/worker/runner.ts:208-211 | a delay the error asks for is sent as it is up to the cap |
| Backoff.DelayBounded | packages/core/src/engine/backoff.ts:51-65 | every jitter strategy stays between zero and the rounded base |
| Backoff.WholeLifeBackoff | packages/core/src/worker/runner.ts:208-211 | in every run the backoff between two replays totals at most (max_attempts - 1) * maxMs |
| Backoff.DescribeSchedule | packages/core/src/engine/backoff.ts:89-99 | one step per retry of the budget, non-decreasing and capped |
| Drains.ReapOnce | packages/core/src/engine/reaper.ts:75-117 | one pass over a batch of overdue rows; the counters are the recovered and the exhausted ones |
| Drains.DrainExpired | packages/core/src/engine/reaper.ts:44-56 | the drain terminates and reaps every running job whose lease ended, by one pass each and with its delay, and leaves every other row as it was |
| Drains.PruneOnce | packages/core/src/engine/retention.ts:88-116 | one pass over a batch of prunable rows, counted per queue |
| Drains.DrainRetention | packages/core/src/engine/retention.ts:58-72 | the drain terminates; exactly the jobs finished longer ago than their window are gone, each archived once when archiving, and every other row is as it was |
| Drains.Purge | packages/core/src/client.ts:351-380 | with its confirmation, deletes the oldest min(n, batchSize * maxBatches) matching rows and nothing else |
| Occurrences.MovesPastExactly | packages/core/src/engine/scheduler.ts:125-133 | an advance computed from now passes the planned time iff the scheduler's clock has reached it |
| Occurrences.OccurrenceKeyInjective | packages/core/src/sql/schedule.sql.ts:167-169 | two occurrences share a key iff they are the same |
| Scheduler.StepsKeep | packages/core/src/engine/scheduler.ts:116-200 | through any interleaving of tick phases, operators and clients, a materialised job stays under its occurrence's key in its schedule's queue |
| Scheduler.OneJobPerOccurrence | packages/core/src/sql/schedule.sql.ts:4-9 | for any number of schedulers and whatever keys clients use, the table never holds two jobs materialised for one occurrence |
| Scheduler.KeyNamesOccurrence | packages/core/src/sql/schedule.sql.ts:167-169 | where clients keep away from the form, a job has an occurrence's key iff it was materialised for it |
| Scheduler.MaterialisedExactly | packages/core/src/engine/scheduler.ts:168-197 | the insert is deduplicated iff a job of the queue, anybody's, holds the occurrence's key |
| Scheduler.FiresExactly | packages/core/src/engine/scheduler.ts:116-200 | a job is created iff the expression has a next occurrence, the catch-up rule fires, the schedule exists and nobody in the queue holds the key |
| Planning.MadeColumns | packages/core/src/engine/scheduler.ts:168-181 | the job made is due now under its occurrence's key in its schedule's queue and type, with priority 0, five attempts and a lease of 30 seconds |
| Planning.FiresWithinHour | packages/core/src/engine/scheduler.ts:212-232 | an occurrence fires iff it runs once or is at most an hour late |
| Planning.ClaimExactly | packages/core/src/sql/schedule.sql.ts:22-43 | an idle scheduler may claim exactly enabled schedules that are due, within its limit; it remembers what each was planned for and only last_run_at changes |
| Planning.PausedMakesNone | packages/core/src/sql/schedule.sql.ts:26-28 | over every run of any schedulers, clients and operators in which a schedule stays paused it gets no job but for occurrences claimed before |
| Planning.EditExactly | packages/core/src/engine/scheduler.ts:296-306 | an undisturbed pause keeps next_run_at, a resume plans the first occurrence after its clock, and nothing else changes |
| Planning.CreateExactly | packages/core/src/engine/scheduler.ts:246-283 | a new schedule is planned for the first occurrence after the clock; without one nothing is created |
| Planning.DeleteExactly | packages/core/migrations/001_initial_schema.sql:139-141 | deleting a schedule unlinks its jobs and changes nothing else about any job |
| Scheduler.HeldMeansDone | packages/core/src/sql/schedule.sql.ts:4-9 | where clients keep away from the form, the key is held iff the occurrence has a job |
| Scheduler.ClientSuppresses | packages/server/src/schemas.ts:49 | a client request under an occurrence's key makes the scheduler count it as done without a job |
| Scheduler.ClaimedTwice | packages/core/src/sql/schedule.sql.ts:22-43 | the claim leaves next_run_at, so a second scheduler gets the same occurrence |
| Scheduler.RepeatsAfterPurge | packages/core/src/engine/scheduler.ts:168-200 | two schedulers holding one occurrence both create it when its row is purged in between |
| Scheduler.TerminalUnlinked | packages/core/migrations/001_initial_schema.sql:139-141 | whatever schedulers, operators and clients do, a terminal row that is still there is as it was, and has lost its schedule_id iff its schedule was deleted meanwhile |
| Outages.OutageCollapses | packages/core/src/engine/scheduler.ts:125-166 | in every run of one scheduler with clocks that never go back, in which no advance is lost and no resume writes a time its schedule was processed at or after, each occurrence processed lies after the clock that processed the schedule's previous one |
| Outages.OneJobEver | packages/core/src/engine/scheduler.ts:168-200 | in such a run an occurrence never gets a second job, even after its first was purged |
| Outages.PlannedNeverBack | packages/core/src/engine/scheduler.ts:116-200 | even if ticks fail before their advance, planned times never go back as long as no resume writes a time before one its schedule was processed or is claimed for |
| Outages.WriteKeepsExactly | packages/core/src/sql/schedule.sql.ts:146-158 | a resume's write keeps a processed occurrence behind its schedule iff the time written lies past it or an advance owed overwrites it |
| Outages.UninterruptedIsFresh | packages/core/src/engine/scheduler.ts:296-306 | a resume whose schedule was not processed at a clock after the one it read, so in particular not between its reading and its write, never writes such a time |
| Outages.NextFollows | packages/core/src/engine/scheduler.ts:125-199 | with no advance lost and no resume, the occurrence processed after this one is the first after the clock that processed it: an outage yields exactly one and none after it is skipped |
| Outages.LateResumeRepeats | packages/core/src/engine/scheduler.ts:296-306 | a resume that reads before a tick and writes after it gives the occurrence a second job once the first is purged: one scheduler, no clock going back |
| Outages.LostAdvanceRepeats | packages/core/src/engine/scheduler.ts:199 | a tick failing between the insert and the advance leaves the same occurrence to the next tick |
| Outages.FiringsOccur | packages/core/src/engine/scheduler.ts:212-232 | in every run of any number of schedulers, what is processed of an expression that never runs out is an occurrence; run_once fires all of them, skip_missed those at most an hour late |
| Ticks.Scheduler.ClaimDueSchedules | packages/core/src/sql/schedule.sql.ts:22-43 | the enabled schedules planned for a time that has come, the earliest first and within the limit; last_run_at is set and nothing else touched |
| Ticks.Scheduler.AdvanceSchedule | packages/core/src/sql/schedule.sql.ts:58-74 | sets next_run_at, and the last job only if there is one |
| Ticks.Scheduler.ProcessRow | packages/core/src/engine/scheduler.ts:122-199 | one row is its read of the clock, its fire and its advance, and returns the job it made |
| Ticks.Scheduler.Tick | packages/core/src/engine/scheduler.ts:116-200 | an undisturbed tick takes the enabled due schedules planned earliest and is the run claim, then read, fire and advance per row; created counts the new jobs and every processed schedule is moved past the clock |
| Pool.SlotsAccounted | packages/core/src/worker/pool.ts:130-163 | in every interleaving the entries fit the slots and each claimed job is counted once, threw or is executing |
| Pool.CountersExact | packages/core/src/worker/pool.ts:245-281 | in every interleaving each counter counts the runs that ended its way |
| Pool.EndExactly | packages/core/src/worker/pool.ts:245-281 | the end of a run deletes the entry under its job id, a later run's included, and no other |
| Pool.AskExactly | packages/core/src/worker/pool.ts:130-163 | a claim is made iff a slot is free, for all the free slots or a full batch |
| Pool.PassAsksEveryQueue | packages/core/src/worker/pool.ts:130-163 | a pass that is not stopped, fails nowhere and ends with a slot free has asked for every queue once |
| Pool.ExactAfterClaim | packages/core/src/worker/pool.ts:242-284 | a claim keeps one entry per executing handler iff it returns no job the pool still runs |
| Pool.ConcurrencyLimited | packages/core/src/worker/pool.ts:242-284 | without such re-claims the executing handlers are the entries, so concurrency bounds them |
| Pool.ReclaimOvershoots | packages/core/src/worker/pool.ts:242-284 | with one, three handlers execute in two slots |
| Pool.OwnJobAgain | packages/core/src/sql/reap.sql.ts:30-75 | a job whose lease expired with attempts left is, one reap and one claim later, back with the worker that may still run it |
| Pool.ReclaimRun | packages/core/src/worker/pool.ts:195-217 | a run from the empty table, each claim one the pool makes itself, that ends with three handlers in two slots |
| Pool.WorkerPool.SpawnJob | packages/core/src/worker/pool.ts:242-284 | registers a handler under its job id, replacing any entry there |
| Pool.WorkerPool.Finish | packages/core/src/worker/pool.ts:245-281 | counts the outcome and deletes by job id |
| Pool.WorkerPool.ClaimQueue | packages/core/src/worker/pool.ts:195-217 | one awaited claim is its request, the runs ending meanwhile and its answer |
| Pool.WorkerPool.ClaimPass | packages/core/src/worker/pool.ts:130-163 | one pass makes exactly one claim per queue while slots are free and the pool runs, each for at most the free slots; counts and reports what the answers brought, whatever ends meanwhile |
| Keyset.DescendingSpec | packages/core/src/sql/query.sql.ts:35-59 | the list holds exactly the passing rows below the cursor, newest first |
| Keyset.PageExact | packages/core/src/sql/query.sql.ts:35-59 | on the columns: a page holds the newest rows that pass every filter set and lie below the cursor, as many as asked for within 1 and 200 |
| Keyset.WalkComplete | packages/server/src/routes.ts:76-83 | following nextCursor over a changing table, ids strictly decrease and every row passing throughout is returned |
| Keyset.WalkReadsTables | packages/server/src/routes.ts:159-177 | each page holds rows that passed when it was read |
| Keyset.StaticWalk | packages/server/src/routes.ts:76-83 | on a static table the pages together are the whole filtered list |
| Keyset.CursorNeedsLimit | packages/core/src/client.ts:518-520 | a limit that clamping changes never yields a cursor; any other yields one iff the page is full |
| EventStream.SplitAppend | packages/dashboard/src/api.ts:197-205 | splitting what was left over together with the next chunk is splitting the whole text |
| EventStream.Client.Feed | packages/dashboard/src/api.ts:202-219 | one read delivers the complete frames' snapshots and keeps the unterminated tail |
| EventStream.Client.ReadAll | packages/dashboard/src/api.ts:197-219 | any sequence of chunks ends as one read of all the text would |
| EventStream.TextSplits | packages/server/src/events.ts:84-99 | parsing what the server prints yields the snapshots in order, through retry and keepalive frames |
| EventStream.PrefixIsItems | packages/server/src/events.ts:69-115 | text broken off anywhere is some whole items and a part without a blank line |
| EventStream.StreamDelivers | packages/dashboard/src/api.ts:197-219 | printed, broken off anywhere and cut into any chunks, exactly the snapshots of the whole items arrive in order and the rest is the buffer |

## Left out

- Payload, metadata, trace context, `updated_at`, audit rows and metrics: columns and writes no decision depends on.
- LISTEN/NOTIFY and the idle wait: they only change latency.
- The cron library, time zones and daylight saving: a calendar whose `next` is the least later occurrence stands for them.
- `toISOString`: assumed to write different instants differently.
- JSON: assumed to print one line and to be undone by its parser; UTF-8 decoding of the stream and truncation of error text are not modelled.
- Floating point: delays and the growth factor are reals, and the guard against non-finite values is the cap.
- Identity values spent by a rejected insert, transactions that block each other, MVCC snapshots and lost connections.
- Table and archive partitions, indexes as performance structures, the migration runner.
- The worker pool's stop and its grace period, and the running flags that end the drain loops early.
- Validation of names, sizes and requests, authentication, routes other than the job list, the CLI, the React views.
- The lists of dead jobs, queue statistics and lag, and the server's bookkeeping of slow subscribers.
- Schedule names and their uniqueness: a create or an update rejected for them changes nothing.
- Ticks.Scheduler.Tick: assumes that nothing else runs during the tick and reads the clocks from its arguments; interleaved ticks are the subject of the Scheduler module.
- Drains.DrainExpired: is about an undisturbed drain at one instant, as is Drains.DrainRetention; interleaved passes are ordinary statements of a run.
- Runner.Runner.Run: database errors during the run are not modelled; a heartbeat the timer still sends after the handler ended counts among the statements in between.
- Outages.OutageCollapses: is about runs in which no tick fails between an insert and its advance and no resume writes a stale time; PlannedNeverBack is what remains of the first, and LostAdvanceRepeats and LateResumeRepeats are runs outside it.
- Deliveries.RejectedExactly: leaves the foreign key on schedule_id to the schedulers, whose inserts are the only ones with a schedule (`Scheduler.FireRow`).
- BatchEnqueue.EnqueueBatch: takes RETURNING to keep the input order, which the SQL does not promise.
- Claims.OvertakenOnlyByOlder: is about uncontended claims; rows other sessions hold are passed over.
