/** The domain types shared by the store, the workers, the reaper and the shipper:
    rows of the three Postgres tables, and what a worker keeps of a claimed row. */
module Jobs {

  datatype Option<+T> = None | Some(value: T)

  datatype Result<+R, +E> = Ok(value: R) | Err(error: E)

  datatype StoreError = NotFound | UniqueViolation | NegativeLimit

  datatype Status = StatusQueued | StatusRunning | StatusCompleted | StatusFailed

  predicate Terminal(s: Status) {
    s == StatusCompleted || s == StatusFailed
  }

  /** One row of `jobs`. Timestamps are integers on one clock; NULL is `None`. */
  datatype Row = Row(
    jobType: string,
    payload: string,
    traceContext: string,
    status: Status,
    priority: int,
    attempts: nat,
    maxAttempts: int,
    runAfter: int,
    claimedBy: Option<string>,
    claimedAt: Option<int>,
    leaseExpiresAt: Option<int>,
    createdAt: int,
    completedAt: Option<int>,
    lastError: Option<string>)

  datatype EventKind =
    | EventEnqueued
    | EventClaimed
    | EventCompleted
    | EventRetried
    | EventFailed
    | EventReapedRetry
    | EventReapedFailed

  /** One row of the `job_events` outbox. Its id is its position in the log. */
  datatype Event = Event(
    jobId: nat,
    jobType: string,
    kind: EventKind,
    attempts: nat,
    workerId: string,
    errorMessage: string,
    occurredAt: int)

  datatype DeadLetter = DeadLetter(
    jobId: nat,
    jobType: string,
    payload: string,
    attempts: nat,
    lastError: string,
    failedAt: int)

  /** What `GetStatus` reports of a row. */
  datatype Snapshot = Snapshot(id: nat, status: Status, attempts: nat, maxAttempts: int, lastError: string)

  /** A NULL last_error reads as the empty string. */
  function SnapshotOf(id: nat, r: Row): Snapshot {
    Snapshot(id, r.status, r.attempts, r.maxAttempts, if r.lastError.Some? then r.lastError.value else "")
  }

  /** The copy of a claimed row a worker decides by, with the lease it was given.
      The worker never reads the row again before it reports. */
  datatype Ticket = Ticket(jobId: nat, attempts: nat, maxAttempts: int, expiry: int)

  /** What a handler run ends with; a panic is an error too. */
  datatype HandlerResult = Success | Error(message: string, runAfter: int)

  const DEFAULT_PRIORITY: int := 0
  const DEFAULT_MAX_ATTEMPTS: int := 5
  const LEASE_EXPIRED := "lease expired: worker did not report back in time"
}
