/** The SQL statements of the store as functions on the database. A statement over several
    rows is the fold of its effect on one row; `Fail` and `Reap` abort as a whole
    when they would insert a second dead letter for a job. */
module Statements {
  import opened Jobs

  datatype Db = Db(jobs: map<nat, Row>, nextId: nat, log: seq<Event>, dead: seq<DeadLetter>)

  const EMPTY := Db(map[], 0, [], [])

  // ----- effects on one row -----

  function NewRow(now: int, jobType: string, payload: string, trace: string, priority: int, maxAttempts: int): Row {
    Row(jobType, payload, trace, StatusQueued, priority, 0, maxAttempts, now,
        None, None, None, now, None, None)
  }

  /** `id` is an identity value: fresh, and larger than every id handed out before. */
  function InsertJob(db: Db, now: int, id: nat, row: Row): Db {
    Db(db.jobs[id := row], id + 1, db.log + [Event(id, row.jobType, EventEnqueued, row.attempts, "", "", now)], db.dead)
  }

  function ClaimRow(db: Db, at: int, id: nat, worker: string, lease: int): Db
    requires id in db.jobs
  {
    var r := db.jobs[id].(status := StatusRunning, claimedBy := Some(worker), claimedAt := Some(at),
                          leaseExpiresAt := Some(at + lease), attempts := db.jobs[id].attempts + 1);
    db.(jobs := db.jobs[id := r],
        log := db.log + [Event(id, r.jobType, EventClaimed, r.attempts, worker, "", at)])
  }

  function CompleteRow(db: Db, now: int, id: nat): Db
    requires id in db.jobs
  {
    var r := db.jobs[id].(status := StatusCompleted, completedAt := Some(now));
    db.(jobs := db.jobs[id := r],
        log := db.log + [Event(id, r.jobType, EventCompleted, r.attempts, "", "", now)])
  }

  function RetryRow(db: Db, now: int, id: nat, runAfter: int, message: string): Db
    requires id in db.jobs
  {
    var r := db.jobs[id].(status := StatusQueued, runAfter := runAfter, claimedBy := None, claimedAt := None,
                          leaseExpiresAt := None, lastError := Some(message));
    db.(jobs := db.jobs[id := r],
        log := db.log + [Event(id, r.jobType, EventRetried, r.attempts, "", message, now)])
  }

  function FailRow(db: Db, now: int, id: nat, message: string): Db
    requires id in db.jobs
  {
    var r := db.jobs[id].(status := StatusFailed, completedAt := Some(now), claimedBy := None, claimedAt := None,
                          leaseExpiresAt := None, lastError := Some(message));
    db.(jobs := db.jobs[id := r],
        log := db.log + [Event(id, r.jobType, EventFailed, r.attempts, "", message, now)],
        dead := db.dead + [DeadLetter(id, r.jobType, r.payload, r.attempts, message, now)])
  }

  predicate Exhausted(r: Row) {
    r.attempts >= r.maxAttempts
  }

  function ReapRow(db: Db, now: int, id: nat): Db
    requires id in db.jobs
  {
    var out := Exhausted(db.jobs[id]);
    var r := db.jobs[id].(status := if out then StatusFailed else StatusQueued,
                          completedAt := if out then Some(now) else None,
                          claimedBy := None, claimedAt := None, leaseExpiresAt := None,
                          lastError := Some(LEASE_EXPIRED));
    db.(jobs := db.jobs[id := r],
        log := db.log + [Event(id, r.jobType, if out then EventReapedFailed else EventReapedRetry,
                               r.attempts, "", LEASE_EXPIRED, now)],
        dead := if out then db.dead + [DeadLetter(id, r.jobType, r.payload, r.attempts, LEASE_EXPIRED, now)]
                else db.dead)
  }

  // ----- row conditions -----

  predicate HasDeadLetter(dead: seq<DeadLetter>, id: nat) {
    exists i :: 0 <= i < |dead| && dead[i].jobId == id
  }

  /** The claim query's WHERE clause. */
  predicate Eligible(r: Row, at: int) {
    r.status == StatusQueued && r.runAfter <= at
  }

  /** The claim query's ORDER BY: `a` strictly before `b`. */
  predicate Precedes(a: Row, b: Row) {
    a.priority > b.priority || (a.priority == b.priority && a.runAfter < b.runAfter)
  }

  predicate Distinct(ids: seq<nat>) {
    forall i, j :: 0 <= i < j < |ids| ==> ids[i] != ids[j]
  }

  /** `chosen` is a possible result of the claim query's subselect when the rows in `skipped`
      are locked by other sessions: rows that tie in the ORDER BY may come in any order. */
  ghost predicate ValidSelection(jobs: map<nat, Row>, at: int, skipped: set<nat>, limit: nat, chosen: seq<nat>) {
    && Distinct(chosen)
    && |chosen| <= limit
    && (forall c :: c in chosen ==> c in jobs && Eligible(jobs[c], at) && c !in skipped)
    && (forall u :: u in jobs && Eligible(jobs[u], at) && u !in skipped && u !in chosen ==>
          |chosen| == limit && forall c :: c in chosen ==> !Precedes(jobs[u], jobs[c]))
  }

  /** The reaper's WHERE clause; a NULL lease compares as unknown, so it does not match. */
  predicate Expired(r: Row, now: int) {
    r.status == StatusRunning && r.leaseExpiresAt.Some? && r.leaseExpiresAt.value < now
  }

  /** `order` lists exactly the rows the reaper's UPDATE matches. */
  ghost predicate ListsExpired(jobs: map<nat, Row>, now: int, order: seq<nat>) {
    && Distinct(order)
    && forall id :: id in order <==> id in jobs && Expired(jobs[id], now)
  }

  /** The rows whose dead letter the UNIQUE constraint rejects. */
  ghost predicate ReapBlocked(db: Db, now: int) {
    exists id :: id in db.jobs && Expired(db.jobs[id], now) && Exhausted(db.jobs[id]) && HasDeadLetter(db.dead, id)
  }

  // ----- statements -----

  function ClaimRows(db: Db, at: int, worker: string, lease: int, chosen: seq<nat>): (r: Db)
    requires forall c :: c in chosen ==> c in db.jobs
    ensures r.jobs.Keys == db.jobs.Keys
    decreases |chosen|
  {
    if chosen == [] then db
    else ClaimRows(ClaimRow(db, at, chosen[0], worker, lease), at, worker, lease, chosen[1..])
  }

  function Complete(db: Db, now: int, id: nat): Db {
    if id in db.jobs then CompleteRow(db, now, id) else db
  }

  function Retry(db: Db, now: int, id: nat, runAfter: int, message: string): Db {
    if id in db.jobs then RetryRow(db, now, id, runAfter, message) else db
  }

  /** The UNIQUE (job_id) constraint rejects a second dead letter, and with it the whole statement. */
  function Fail(db: Db, now: int, id: nat, message: string): Result<Db, StoreError> {
    if id !in db.jobs then Ok(db)
    else if HasDeadLetter(db.dead, id) then Err(UniqueViolation)
    else Ok(FailRow(db, now, id, message))
  }

  function ReadStatus(jobs: map<nat, Row>, id: nat): Result<Snapshot, StoreError> {
    if id in jobs then Ok(SnapshotOf(id, jobs[id])) else Err(NotFound)
  }

  /** The reaper's statement, row by row: the first dead letter that the UNIQUE constraint rejects aborts it. */
  function TryReap(db: Db, now: int, order: seq<nat>): Result<Db, StoreError>
    requires forall c :: c in order ==> c in db.jobs
    decreases |order|
  {
    if order == [] then Ok(db)
    else if Exhausted(db.jobs[order[0]]) && HasDeadLetter(db.dead, order[0]) then Err(UniqueViolation)
    else TryReap(ReapRow(db, now, order[0]), now, order[1..])
  }

  /** What it comes to when no letter is rejected. */
  function ReapRows(db: Db, now: int, order: seq<nat>): (r: Db)
    requires forall c :: c in order ==> c in db.jobs
    ensures r.jobs.Keys == db.jobs.Keys
    decreases |order|
  {
    if order == [] then db
    else ReapRows(ReapRow(db, now, order[0]), now, order[1..])
  }
}
