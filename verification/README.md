# Verified model of the Observable Job Queue

A Postgres-backed job queue: many workers claim rows of one `jobs` table under a lease, run a handler and
report; a reaper takes back claims whose lease has run out; every statement also appends to the `job_events`
outbox, which shippers copy to ClickHouse, where reports read it. This project models that system in Dafny and
proves what it keeps over whole runs: with any number of workers, crashes, reports that come after the lease,
concurrent claims, failing shippers and background merges.

## How it is built

| file | holds |
|---|---|
| `Jobs.dfy` | the rows of the three tables, events, tickets (the copy of a row a worker decides by) |
| `Statements.dfy` | each SQL statement as a function on the database, with the UNIQUE constraint on dead letters |
| `Store.dfy` | the `Store` object: methods that update the tables in place, each proved equal to its statement |
| `Paths.dfy` | sequences of steps in any state machine |
| `Runs.dfy` | the protocol as a state machine: effects on one row, actions (one statement each), runs |
| `EventLog.dfy` | readings of the log: replay, counts, one job's history |
| `Invariants.dfy`, `History.dfy`, `EveryRun.dfy` | what holds in every run |
| `Columns.dfy` | what the statements write, column by column, what of it the log determines, and that no claim comes early |
| `Fencing.dfy` | runs in which workers report before the reaper takes their claim |
| `Guards.dfy` | for each property of disciplined runs, the condition on reports that is necessary and sufficient |
| `LateReports.dfy` | what late reports can do, as explicit runs |
| `Recovery.dfy` | when a terminal row is final, a terminal job can come back, a blocked reaper recovers: exactly |
| `Executions.dfy` | how often a job can still be executed, from any point of any run |
| `Reaper.dfy`, `Drain.dfy`, `Bypass.dfy` | the reaper's all-or-nothing, draining the queue, fairness of the claim order |
| `ConcurrentClaim.dfy` | claims in two steps with SKIP LOCKED, refined to atomic claims |
| `Processes.dfy` | a worker's report, one shipper cycle, the status watcher |
| `Shipping.dfy` | the outbox protocol and the deduplicated view |
| `Reports.dfy`, `Durations.dfy` | the backlog and duration reports against the live table and the log |
| `Backoff.dfy` | retry and poll backoff on wrapping 64-bit durations |

A run is any sequence of enabled actions from an empty database. The outcome statements (`Complete`, `Retry`,
`Fail`) match a row by id only, so a worker that reports late acts on whatever the row has become. The theory
therefore has two parts.

*Every run.* The log replays to the rows, down to claim, completion and error columns; no job is claimed before its
run_after; dead letters are counted by the log, no job is claimed more than
2 * max_attempts - 1 times (and some run reaches that for every max_attempts; `Executions.dfy` has the bound and how to
reach it from every reachable state), claims of one job are separated by
a requeue, waiting jobs are passed over a bounded number of times.

*Disciplined runs.* A report is `Timely` when it comes no later than its lease, `Unreaped` when the reaper has
not taken the claim away, `Fenced` when the row is still running at the claimed attempt and lease. `FencingExact` proves
that all reports of a run are fenced if and only if all are unreaped, and that timely ones are. Results about
disciplined runs hold for any of the three. In them terminal rows never change, attempts stay within
max_attempts, a dead letter exists exactly for failed jobs, and each history has one fixed shape.

Where a property fails outside disciplined runs, `LateReports.dfy` and `Recovery.dfy` give the run, and the exact
condition is proved. In all states of a run, attempts stay within max_attempts exactly when no retry hits a row that is
out of attempts (`AttemptsWithinExact`), dead letters are those of the failed jobs exactly when no complete or retry hits
a job that has one (`LettersMatchExact`), a claim not reaped is the running row exactly when no report hits a job
another worker still holds (`HoldersExact`), and histories have the fixed shape exactly when every report finds its job
running and every retry finds attempts left (`ShapesExact`). After every run: a terminal row never changes again exactly when no worker still holds a ticket of
that job (`AbsorptionExact`), and the job can come back to life exactly when such a worker was not on the last attempt
(`RevivalExact`); the queue can be drained exactly when no unfinished job has a dead letter (`DrainExact`); a reap
commits exactly when no expired exhausted row has one (`TryReapExact`), and aborts for ever exactly when such a row has
no worker left (`WedgeExact`); arrivals minus departures are the live count exactly when no event hit a terminal job
(`NetAgainstLive`); an outcome event names its own attempt exactly when the job was not claimed again
(`ReportAttribution`).

*Reports.* Both reports read the raw ClickHouse table, with whatever copies and gaps shipping and merging have left in it.
Duration samples are not affected by copies. The backlog report is: for every window and every state of the
pipeline its last value is the change of the live count since the window opened, less the terminal hits, plus the excess of
copies, and it is right exactly when these two cancel (`BacklogAgreesWithLiveTable`). One job, shipped again after failed
marks, shows as a backlog of any size, with nothing unshipped and no late report (`CopiesSkewTheBacklog`).

## What the code does that its comments do not say

- `migrations/0002_add_dead_letters.sql:16-19` says a job can reach `failed` only once because a failed row can
  never be reclaimed. A late `Retry` does put a failed row back in the queue. Its next exhausted claim then makes the
  UNIQUE constraint abort every `ReapExpiredLeases`, for all jobs, and for ever once no worker of that job holds a ticket
  (`LateReportsBreakTheQueue`, `ReaperWedgedForever`, `WedgeExact`). This needs max_attempts >= 2
  (`SingleAttemptStaysBuried`); a late `Complete` of a failed job, whose dead letter stays, does not
  (`LateCompleteOverridesFailure`).
- `internal/analytics/reports.go:79-84` says every event of an attempt carries its attempts value. An outcome event
  carries the row's value, which a late report finds already increased (`LateCompletionIsMisattributed`).
- `internal/analytics/shipper.go:34-59` ships at least once, and `internal/analytics/reports.go:152-170` counts rows without
  FINAL, so a re-shipped event counts again until ClickHouse merges it (`CopiesSkewTheBacklog`).
- `internal/worker/worker.go:79-82`: with a positive poll interval and a cap that is not negative, one of them at 2^62 nanoseconds or
  more, doubling overflows before the cap is compared (`PollBackoffExact`).
- `internal/worker/worker.go:163-166` says the delay is capped and doubles with each attempt. The first attempt's bound is the
  base even when that exceeds the cap (`RetryCapBounded`), and a base of 0 under a positive cap gives the full cap from
  the second attempt on (`RetryCapExact`).

## Assumptions

One monotone clock. Statements are atomic, except a claim in `ConcurrentClaim.dfy`. Rows are created only by
`Enqueue`, with max_attempts >= 1 (the schema default is 5; the protocol allows any, and any priority). A ticket is used for one
report: no code path sends an outcome twice. `Retry` may name any `run_after`; only `BoundedBypass` needs it to be
no earlier than the clock. Handlers are arbitrary: each claim ends in success, an error, or a crash.

## Model

| member | source | states |
|---|---|---|
| `Storage.Store.Enqueue` | internal/store/jobs.go:19-37 | a fresh row with the schema defaults and its enqueued event, column by column, nothing else |
| `Storage.Store.GetStatus` | internal/store/jobs.go:43-60 | the row's own id, status, attempts, max_attempts and last_error, NULL as empty, or not found |
| `Storage.SelectEligible` | internal/store/jobs.go:74-80 | a selection in priority and run_after order, up to the limit, around locked rows, always exists and is found |
| `Storage.Store.Claim` | internal/store/jobs.go:65-102 | exactly the selected rows run with one more attempt and a lease, one event each; returns their tickets; a negative limit is rejected |
| `Columns.ClaimWrites` | internal/store/jobs.go:65-88 | a claim takes only rows that are queued and due, by priority and then run_after, up to the limit; it writes the five claim columns of each, one event each with worker and time, and nothing else |
| `Storage.Store.Complete` | internal/store/jobs.go:105-120 | the row with that id becomes completed now whatever its state, other columns kept, one event; an unknown id changes nothing |
| `Storage.Store.Retry` | internal/store/jobs.go:125-145 | the row is queued for the given run_after with the message and its claim cleared, other columns kept, one event; an unknown id changes nothing |
| `Storage.Store.Fail` | internal/store/jobs.go:152-176 | row, dead letter and event together, all with the message, or nothing, iff the job has a dead letter already |
| `Storage.Store.FindExpired` | internal/store/jobs.go:188-201 | exactly the running rows whose lease ended before now, each once |
| `Storage.Store.ReapExpiredLeases` | internal/store/jobs.go:185-219 | all expired rows or, iff an expired exhausted row has a dead letter, none; the two counts are the rows taken and the dead letters written |
| `Storage.Store.ReapAll` | internal/store/jobs.go:188-213 | row by row; the first rejected dead letter rolls every row, event and letter back |
| `Storage.Store.CountByStatusAndType` | internal/store/jobs.go:278-300 | one entry for each type that occurs, with the number of its jobs in that status |
| `Storage.Store.FetchUnshippedEvents` | internal/store/jobs.go:242-258 | the first unshipped events by id, or an error for a negative limit |
| `Storage.Store.MarkEventsShipped` | internal/store/jobs.go:263-274 | those of the ids that have an outbox row become shipped, nothing else |
| `Storage.Store.ShipperLag` | internal/store/jobs.go:304-316 | 0 when all events are shipped, else the age of the first unshipped one; 0 iff all are shipped or that one occurred now |
| `Runs.NextRunsStatement` | internal/store/jobs.go:19-219 | every step of the protocol changes the database as the store's statement does |
| `Runs.ClaimHandsOutTickets` | internal/worker/worker.go:67-86 | a claim hands each worker a ticket with the row's next attempt, max_attempts and lease |
| `Processes.Process` | internal/worker/worker.go:98-150 | the choice between complete, fail and retry reads the ticket only; an aborted fail changes nothing |
| `Processes.ProcessIsReport` | internal/worker/worker.go:98-150 | a worker's report on the database is the protocol's report step, and uses the ticket up |
| `Columns.ReportWrites` | internal/store/jobs.go:105-176 | the columns, event and dead letter a report writes, with its message, run_after and time; no other row changes |
| `Columns.RetryIsHonoured` | internal/worker/worker.go:140-150 | in every run: after a retry with some run_after the job is not claimed before it, unless put back in the queue again |
| `Columns.NotClaimedBeforeDue` | internal/store/jobs.go:74-80 | after every run, in every continuation: a queued job is not claimed before its run_after, unless requeued first |
| `Invariants.InvRun` | internal/store/jobs.go:65-219 | in every run: running rows have a lease, tickets are unique records of a claim, a reaped ticket's lease is over, a running row was not reaped since its claim |
| `EveryRunResults.LogReplaysRows` | internal/store/jobs.go:21-31 | in every run the log replays to every row's status and attempts; attempts counts the claims; events carry type and replayed attempts |
| `Columns.LogDeterminesColumns` | internal/store/jobs.go:19-219 | in every run the log alone determines type, status, attempts and the created, claimed, completed and error columns of every row; claim columns are set together; no claim began before its row was due |
| `EveryRunResults.CountsFromLog` | internal/store/jobs.go:278-300 | in every run the jobs of each status and type are those replayed from the log alone |
| `EveryRunResults.NoDoubleClaim` | internal/store/jobs.go:65-88 | between two claims of a job lies a retried or reaped_retry, and they carry different attempts |
| `EveryRunResults.DeadLettersCounted` | migrations/0002_add_dead_letters.sql:7-21 | a job's dead letters equal its failed and reaped_failed events, at most one; a failed row's letter copies it |
| `EveryRunResults.ExecutionBound` | internal/store/jobs.go:125-214 | in every run a job is claimed at most 2 * max_attempts - 1 times |
| `LateReports.ExecutionBoundTight` | internal/worker/worker.go:117-150 | for every max_attempts some run claims a job that often |
| `Executions.ReachBoundsAttempts` | internal/worker/worker.go:117-150 | from every reachable state, in every continuation, attempts stay within a number read off the row and the tickets out, and no step increases it |
| `Executions.ReachIsReached` | internal/worker/worker.go:117-150 | some continuation brings attempts to exactly that number, for a row out of attempts or when no unfinished job has a dead letter |
| `Fencing.FencingExact` | internal/store/jobs.go:68-80 | all reports find their own running claim iff none comes after its reap; reports within the lease do |
| `Fencing.OneHolderAndBoundedAttempts` | internal/store/jobs.go:68-80 | in disciplined runs at most one unreaped holder of a job; attempts <= max_attempts, < when queued (exactly when: `HoldersExact`, `AttemptsWithinExact`) |
| `Guards.AttemptsWithinExact` | internal/store/jobs.go:125-145 | in every run: attempts <= max_attempts, < when queued, in all states iff every retry finds its row not exhausted; dead letters then count max_attempts attempts |
| `Guards.HoldersExact` | internal/store/jobs.go:105-176 | in every run: each unreaped ticket is its job's running row in all states iff no report hits a job of which another unreaped ticket is out |
| `Fencing.TerminalIsAbsorbing` | internal/store/jobs.go:105-176 | completed and failed rows never change again, in any disciplined continuation (`AbsorptionExact` has the exact condition in every run) |
| `Fencing.TraceLanguage` | internal/job/event.go:13-21 | every history is enqueued, then rounds of claimed and outcome at the same attempt, only the last of which may end the job; it determines the row |
| `Guards.ShapesExact` | internal/job/event.go:13-21 | in every run: all histories have that shape in all states iff every report finds its job running and every retry finds it not exhausted |
| `Fencing.DeadLettersMatchFailures` | internal/store/jobs.go:178-219 | in disciplined runs dead letters exist exactly for failed jobs, after max_attempts attempts; neither reap nor fail aborts |
| `Guards.LettersMatchExact` | migrations/0002_add_dead_letters.sql:7-21 | in every run: dead letters exist exactly for failed jobs in all states iff no complete or retry hits a job with a dead letter; no reap is then blocked |
| `Guards.DisciplineMeetsGuards` | internal/store/jobs.go:68-80 | disciplined runs meet all four of these conditions |
| `EveryRunResults.SingleAttemptStaysBuried` | internal/worker/worker.go:128-138 | with max_attempts = 1 a job with a dead letter is terminal in every run |
| `LateReports.LateReportsBreakTheQueue` | internal/store/jobs.go:125-140 | for every max_attempts >= 2: after a run of reports within their leases, one late retry and no further report revive a failed job, pass max_attempts and block the reaper |
| `LateReports.ReaperWedgedForever` | internal/store/jobs.go:188-213 | once a row without workers is wedged every later reap aborts, and every claim only the reaper could free stays running |
| `Recovery.AbsorptionExact` | internal/store/jobs.go:105-176 | after every run: a terminal row is unchanged in every continuation iff no outstanding ticket names its job |
| `Recovery.RevivalExact` | internal/store/jobs.go:125-145 | after every run: a terminal job can be queued or running again iff an outstanding ticket of it is below max_attempts |
| `Recovery.LateCompleteOverridesFailure` | internal/store/jobs.go:105-120 | for every max_attempts >= 1 a run in which a failed job with a dead letter is then completed |
| `Recovery.WedgeExact` | internal/store/jobs.go:185-219 | after every run: the reaper aborts in every continuation iff some row blocks it and has no outstanding ticket |
| `LateReports.LateReportsSkewTheBacklog` | internal/analytics/reports.go:152-170 | some run leaves arrivals minus departures below the live count |
| `LateReports.ReportAttribution` | internal/store/jobs.go:106-114 | an outcome event carries its worker's attempt iff the job was not claimed again |
| `LateReports.LateCompletionIsMisattributed` | internal/analytics/reports.go:79-84 | a run in which attempt 1's completion is logged as attempt 2's |
| `Reaper.TryReapExact` | internal/store/jobs.go:185-219 | done row by row in any order, the reap aborts iff an expired exhausted row has a dead letter at its start |
| `Reaper.ReapAllOrNothing` | internal/store/jobs.go:185-219 | the protocol's reap is that statement; aborted it changes nothing; otherwise it changes exactly the running rows whose lease ended before now and leaves none of them, one event per row, one letter per exhausted row |
| `Drain.DrainExact` | internal/store/jobs.go:185-219 | after every run: clock advances, single claims and reaps can finish every job iff no unfinished job has a dead letter |
| `Drain.EveryJobDrains` | cmd/jobqueue/main.go:473-494 | every disciplined run can be continued until every job is terminal |
| `Drain.BoundedChanges` | internal/store/jobs.go:65-219 | at most 2 * max_attempts state changes after enqueue; the measure is exactly what is left of them |
| `Bypass.BoundedBypass` | internal/store/jobs.go:74-80 | while a due job waits and none outranks it, the set of jobs of its priority ahead of it never grows, and the claims that pass it over are at most its remaining budget |
| `ConcurrentClaim.CommitIsClaim` | internal/store/jobs.go:74-80 | updating only the locked rows equals an atomic claim of the table at commit that skips only rows locked by others or changed meanwhile |
| `ConcurrentClaim.ConcurrentClaimsRefineAtomic` | README.md:28-33 | every interleaving of selects, updates of locked rows and other statements ends as a run of atomic claims; no row is locked twice; no double claim |
| `ConcurrentClaim.UndisturbedClaimSkipsNothing` | internal/store/jobs.go:74-80 | a claim that found no locks and whose rows nobody touched until its commit, however much later, is an atomic claim that skips nothing |
| `Shipping.BatchIsFirst` | internal/store/jobs.go:243-249 | the fetched batch is exactly the first unshipped events, ascending |
| `Shipping.MergeKeepsFinal` | clickhouse/schema.sql:10-34 | dropping a replaced duplicate leaves the deduplicated view unchanged |
| `Shipping.ShippingIsFaithful` | internal/analytics/shipper.go:34-59 | over every interleaving a shipped event is in the view, and table and view hold only copies of outbox rows, column for column, the time cut to its millisecond |
| `Shipping.FullyShippedViewIsLog` | internal/analytics/shipper.go:34-59 | with nothing unshipped the view is the outbox row for row, column for column |
| `Shipping.ShipperProgress` | internal/analytics/shipper.go:21-59 | with other shippers running, each completed cycle takes a batch off the first n events; enough cycles ship them all |
| `Processes.Warehouse.InsertEvents` | internal/analytics/client.go:49-83 | the accepted rows are appended, in order, each a copy of its event column for column |
| `Processes.ShipOnce` | internal/analytics/shipper.go:34-59 | what one cycle leaves in both stores, by how far it gets |
| `Processes.CycleIsPipeRun` | internal/analytics/shipper.go:34-59 | that is the state after the protocol's fetch, insert and mark steps |
| `Reports.BacklogPoints` | internal/analytics/reports.go:152-170 | every cumulative value is arrivals minus departures from the window's start through its bucket; buckets ascend |
| `Reports.BucketStart` | internal/analytics/reports.go:161 | a bucket starts at a multiple of its size and holds the times up to the next |
| `Reports.BacklogByTime` | internal/analytics/reports.go:152-170 | each point belongs to an interval that has rows of the window, and is the arrivals minus departures from the window's start to that interval's end |
| `Reports.NetAgainstLive` | internal/store/jobs.go:278-300 | in every run arrivals minus departures plus events that hit a terminal job equal the queued and running jobs; none do in disciplined runs |
| `Reports.EveryRunSplits` | internal/analytics/reports.go:152-170 | every run splits where a report window opens, for every start |
| `Reports.NetOfWindow` | internal/analytics/reports.go:134-144 | in every run a window's arrivals minus departures plus its terminal hits are the change of the live count |
| `Reports.BacklogAgreesWithLiveTable` | internal/analytics/reports.go:152-175 | over the raw table, in every pipeline state and window: last value plus terminal hits equal the change of the live count plus the excess of copies; right iff excess equals hits |
| `Reports.BacklogOverFinal` | clickhouse/schema.sql:10-34 | read with FINAL and all shipped, only the terminal hits would remain |
| `Reports.CopiesSkewTheBacklog` | internal/analytics/shipper.go:34-59 | for every n a run and pipeline with one live job, nothing unshipped, no terminal hit, and a last value of n + 1 |
| `Durations.SamplesIgnoreDuplicates` | internal/analytics/reports.go:103-115 | raw table and deduplicated view give the same samples in every pipeline state |
| `Durations.SamplesPairOneAttempt` | internal/analytics/reports.go:79-116 | in disciplined runs each sample from the raw table, in every pipeline state, is one claim and the very next event of that job, its own end |
| `Durations.SamplesExact` | internal/analytics/reports.go:103-115 | in disciplined runs and every pipeline state an attempt has a sample iff its claim and its completion or failure are both in the table and the window at least a millisecond apart, and the sample is the time between them |
| `Processes.WatchStatus` | internal/grpcserver/server.go:75-108 | streams each status read, stops at the first terminal one or the first not found, and only the last is terminal |
| `Processes.WatchedStream` | internal/grpcserver/server.go:75-108 | of such a stream, over every run and polling schedule: each reading has the row's own columns at that poll, attempts never decrease, max_attempts is constant, not found comes only first; in disciplined runs a closed stream ended on what every later poll would read |
| `Backoff.DoubleWraps` | internal/worker/worker.go:187 | doubling is two's complement multiplication modulo 2^64 |
| `Backoff.DoubleUntilCapped` | internal/worker/worker.go:184-192 | the wrapping loop computes the loop-free bound for all 64-bit settings |
| `Backoff.CalculateRetryDelay` | internal/worker/worker.go:184-197 | the delay is whatever is drawn below a positive bound, or 0; the random source never gets a non-positive argument |
| `Backoff.RetryCapClosedForm` | internal/worker/worker.go:163-166 | for positive settings the bound is min(base * 2^(attempts-1), max) over the integers, and base for the first attempt |
| `Backoff.RetryCapExact` | internal/worker/worker.go:163-166 | for all 64-bit settings: the bound is min(base * 2^(attempts-1), max) from the second attempt on iff base > 0, or base = 0 and the cap is not positive |
| `Backoff.RetryCapBounded` | internal/worker/worker.go:163-166 | for all 64-bit settings: every attempt's bound is within the cap iff base <= max |
| `Backoff.RetryCapMonotone` | internal/worker/worker.go:163-166 | for all 64-bit settings: the bound grows with attempts iff base <= max |
| `Backoff.PollWaits` | internal/worker/worker.go:60-88 | over every sequence of claim results: no wait after a job found, and the wait of the n-th empty claim since the start or the last job found is the interval doubled n times |
| `Backoff.WaitsRestart` | internal/worker/worker.go:79-86 | where the settings fit, that wait is min(poll * 2^n, max), so it returns to the poll interval after every job found |
| `Backoff.PollBackoffExact` | internal/worker/worker.go:79-82 | for all 64-bit settings, the waits are min(poll * 2^k, max) for all k iff poll >= 0 and, for a cap >= 0, poll is 0 or both are below 2^62, for a negative cap, it is below -2^62 and not above the doubled interval |

## Left out

- pgx, ClickHouse client, gRPC and protobuf code, connection pools, HTTP servers, signals and flags: I/O.
- Tracing and Prometheus metrics: they do not change job state; the trace context is carried as an opaque string.
- Job handlers and the registry: a handler is an arbitrary success, error or crash.
- The distribution of the jitter: the draw is any value in range.
- `ListDeadLetters`, `ArrivalsVsCompletions`, `RecentCompletionRates`, `EstimateDrainTime` and the p99 quantile: easy reads, library
  numerics and floating point. `active_workers` of the backlog report: `uniqIf` is approximate.
- The ticker loops `runReaper` and `RunShipper`: their bodies are the reap action and `ShipOnce`, which runs schedule freely.
- Identity values burned by aborted statements: an event's id is its position in the log; job ids may have gaps in the protocol.
- Ids below zero, which no row has, and report buckets under one second, which become an interval of 0 that ClickHouse rejects.
- 32-bit limits of attempts and priority, and text-to-interval parsing of a lease.
- Clock skew between Go and Postgres; a claim's transaction start is modelled, that of other statements is their step.
- Row visibility below statement level, except the two-step claim.
- Processes.WatchStatus: the store at each poll is a parameter; a failing send and errors of the database itself are I/O.
- Processes.ShipOnce: one undisturbed cycle; interleaved cycles are covered by the protocol in `Shipping.dfy`.
