/** What the statements write, column by column, and what that means over whole runs: the log alone determines
    every column of a row that a claim or an outcome writes, and no claim comes before a row is due. */
module Columns {
  import opened Jobs
  import opened Statements
  import opened Runs
  import opened EventLog
  import opened Invariants

  // ----- one statement -----

  /** The row a claim turns `r` into. */
  ghost predicate ClaimedTo(r: Row, r': Row, at: int, worker: string, lease: int) {
    r' == r.(status := StatusRunning, attempts := r.attempts + 1, claimedBy := Some(worker),
             claimedAt := Some(at), leaseExpiresAt := Some(at + lease))
  }

  lemma {:induction false} ClaimRowsWrite(db: Db, at: int, worker: string, lease: int, chosen: seq<nat>)
    requires Distinct(chosen) && forall id :: id in chosen ==> id in db.jobs
    ensures var db' := ClaimRows(db, at, worker, lease, chosen);
            && db'.nextId == db.nextId && db'.dead == db.dead
            && (forall id :: id in chosen ==> ClaimedTo(db.jobs[id], db'.jobs[id], at, worker, lease))
            && (forall id :: id in db.jobs && id !in chosen ==> db'.jobs[id] == db.jobs[id])
    decreases |chosen|
  {
    if chosen != [] {
      assert chosen == [chosen[0]] + chosen[1..] && chosen[0] !in chosen[1..];
      ClaimRowsWrite(ClaimRow(db, at, chosen[0], worker, lease), at, worker, lease, chosen[1..]);
    }
  }

  lemma {:induction false} ClaimRowsLog(db: Db, at: int, worker: string, lease: int, chosen: seq<nat>)
    requires Distinct(chosen) && forall id :: id in chosen ==> id in db.jobs
    ensures var log' := ClaimRows(db, at, worker, lease, chosen).log;
            && |log'| == |db.log| + |chosen| && log'[..|db.log|] == db.log
            && forall i :: 0 <= i < |chosen| ==>
                 log'[|db.log| + i] == Event(chosen[i], db.jobs[chosen[i]].jobType, EventClaimed,
                                             db.jobs[chosen[i]].attempts + 1, worker, "", at)
    decreases |chosen|
  {
    if chosen != [] {
      var db1 := ClaimRow(db, at, chosen[0], worker, lease);
      ClaimRowsLog(db1, at, worker, lease, chosen[1..]);
      var log' := ClaimRows(db, at, worker, lease, chosen).log;
      assert log'[..|db.log|] == log'[..|db1.log|][..|db.log|];
      forall i | 0 <= i < |chosen|
        ensures log'[|db.log| + i] == Event(chosen[i], db.jobs[chosen[i]].jobType, EventClaimed,
                                            db.jobs[chosen[i]].attempts + 1, worker, "", at)
      {
        if i == 0 {
          assert log'[|db.log|] == log'[..|db1.log|][|db.log|];
        } else {
          assert chosen[i] == chosen[1..][i - 1] && chosen[i] != chosen[0];
        }
      }
    }
  }

  /** A claim takes rows that are queued and due, highest priority and earliest run_after first, up to the limit;
      it writes five columns of each and one event, and nothing else. */
  lemma ClaimWrites(
    db: Db, at: int, worker: string, lease: int, skipped: set<nat>, limit: nat, chosen: seq<nat>)
    requires ValidSelection(db.jobs, at, skipped, limit, chosen)
    ensures |chosen| <= limit
    ensures forall id :: id in chosen ==>
              id in db.jobs && id !in skipped && db.jobs[id].status == StatusQueued && db.jobs[id].runAfter <= at
    ensures forall u, c ::
              && u in db.jobs && db.jobs[u].status == StatusQueued && db.jobs[u].runAfter <= at
              && u !in skipped && u !in chosen && c in chosen
              ==> && |chosen| == limit && db.jobs[u].priority <= db.jobs[c].priority
                  && (db.jobs[u].priority == db.jobs[c].priority ==> db.jobs[c].runAfter <= db.jobs[u].runAfter)
    ensures var db' := ClaimRows(db, at, worker, lease, chosen);
            && db'.nextId == db.nextId && db'.dead == db.dead && db'.jobs.Keys == db.jobs.Keys
            && (forall id :: id in chosen ==> ClaimedTo(db.jobs[id], db'.jobs[id], at, worker, lease))
            && (forall id :: id in db.jobs && id !in chosen ==> db'.jobs[id] == db.jobs[id])
            && |db'.log| == |db.log| + |chosen| && db'.log[..|db.log|] == db.log
            && forall i :: 0 <= i < |chosen| ==>
                 db'.log[|db.log| + i] == Event(chosen[i], db.jobs[chosen[i]].jobType, EventClaimed,
                                                db.jobs[chosen[i]].attempts + 1, worker, "", at)
  {
    ClaimRowsWrite(db, at, worker, lease, chosen);
    ClaimRowsLog(db, at, worker, lease, chosen);
    forall u, c |
      && u in db.jobs && db.jobs[u].status == StatusQueued && db.jobs[u].runAfter <= at
      && u !in skipped && u !in chosen && c in chosen
      ensures |chosen| == limit && !Precedes(db.jobs[u], db.jobs[c])
    {
      assert Eligible(db.jobs[u], at);
    }
  }

  /** A report writes to the row its ticket names and to no other: these columns, one event, and for a failure
      one dead letter. */
  lemma ReportWrites(w: World, t: Ticket, result: HandlerResult)
    requires t in w.tickets && t.jobId in w.db.jobs
    ensures var r, db' := w.db.jobs[t.jobId], Next(w, Report(t, result)).db;
            && db'.nextId == w.db.nextId
            && match result
               case Success =>
                 && db'.jobs == w.db.jobs[t.jobId := r.(status := StatusCompleted, completedAt := Some(w.clock))]
                 && db'.log == w.db.log + [Event(t.jobId, r.jobType, EventCompleted, r.attempts, "", "", w.clock)]
                 && db'.dead == w.db.dead
               case Error(message, runAfter) =>
                 if t.attempts < t.maxAttempts then
                   && db'.jobs == w.db.jobs[t.jobId :=
                        r.(status := StatusQueued, runAfter := runAfter, claimedBy := None, claimedAt := None,
                           leaseExpiresAt := None, lastError := Some(message))]
                   && db'.log == w.db.log +
                        [Event(t.jobId, r.jobType, EventRetried, r.attempts, "", message, w.clock)]
                   && db'.dead == w.db.dead
                 else if exists i :: 0 <= i < |w.db.dead| && w.db.dead[i].jobId == t.jobId then db' == w.db
                 else
                   && db'.jobs == w.db.jobs[t.jobId :=
                        r.(status := StatusFailed, completedAt := Some(w.clock), claimedBy := None,
                           claimedAt := None, leaseExpiresAt := None, lastError := Some(message))]
                   && db'.log == w.db.log +
                        [Event(t.jobId, r.jobType, EventFailed, r.attempts, "", message, w.clock)]
                   && db'.dead == w.db.dead +
                        [DeadLetter(t.jobId, r.jobType, r.payload, r.attempts, message, w.clock)]
  {
    OneEffect(w, ReportEffect(w, t, result));
  }

  // ----- the log determines the columns -----

  datatype Columns = Columns(
    jobType: string, status: Status, attempts: nat, createdAt: int, claimedBy: Option<string>,
    claimedAt: Option<int>, completedAt: Option<int>, lastError: Option<string>)

  /** The columns after event `e`, from the columns before it and the event alone. A late retry keeps
      completed_at; a reap that requeues clears it; a completion keeps the claim. */
  function ColumnsAfter(prev: Option<Columns>, e: Event): Option<Columns> {
    if e.kind == EventEnqueued
    then Some(Columns(e.jobType, StatusQueued, 0, e.occurredAt, None, None, None, None))
    else if prev.None? then None
    else
      var c := prev.value;
      match e.kind
      case EventClaimed =>
        Some(c.(status := StatusRunning, attempts := c.attempts + 1,
                claimedBy := Some(e.workerId), claimedAt := Some(e.occurredAt)))
      case EventCompleted => Some(c.(status := StatusCompleted, completedAt := Some(e.occurredAt)))
      case EventRetried =>
        Some(c.(status := StatusQueued, claimedBy := None, claimedAt := None, lastError := Some(e.errorMessage)))
      case EventReapedRetry =>
        Some(c.(status := StatusQueued, claimedBy := None, claimedAt := None, completedAt := None,
                lastError := Some(e.errorMessage)))
      case _ =>
        Some(c.(status := StatusFailed, claimedBy := None, claimedAt := None, completedAt := Some(e.occurredAt),
                lastError := Some(e.errorMessage)))
  }

  function ReplayColumns(log: seq<Event>, id: nat): Option<Columns> {
    if log == [] then None
    else
      var last := log[|log| - 1];
      var prev := ReplayColumns(log[..|log| - 1], id);
      if last.jobId == id then ColumnsAfter(prev, last) else prev
  }

  ghost function ColumnsOf(jobs: map<nat, Row>, id: nat): Option<Columns> {
    if id !in jobs then None
    else
      var r := jobs[id];
      Some(Columns(r.jobType, r.status, r.attempts, r.createdAt, r.claimedBy, r.claimedAt, r.completedAt, r.lastError))
  }

  /** The claim columns go together; a claim in progress began no earlier than the row was due. */
  ghost predicate ClaimColumnsOk(r: Row) {
    && (r.status == StatusRunning ==>
          && r.claimedBy.Some? && r.claimedAt.Some? && r.leaseExpiresAt.Some? && r.runAfter <= r.claimedAt.value)
    && (r.status == StatusQueued || r.status == StatusFailed ==>
          r.claimedBy.None? && r.claimedAt.None? && r.leaseExpiresAt.None?)
  }

  ghost predicate ColumnsOk(w: World) {
    && (forall id: nat :: ReplayColumns(w.db.log, id) == ColumnsOf(w.db.jobs, id))
    && (forall id :: id in w.db.jobs ==> ClaimColumnsOk(w.db.jobs[id]))
  }

  lemma EventTellsColumns(w: World, e: Effect)
    requires EffectOk(w, e) && Logs(w, e)
    ensures var ev := Apply(w, e).db.log[|w.db.log|];
            ColumnsOf(Apply(w, e).db.jobs, ev.jobId) == ColumnsAfter(ColumnsOf(w.db.jobs, ev.jobId), ev)
  {
  }

  lemma KeepsClaimColumns(w: World, e: Effect, id: nat)
    requires EffectOk(w, e) && id in Apply(w, e).db.jobs
    requires id in w.db.jobs ==> ClaimColumnsOk(w.db.jobs[id])
    ensures ClaimColumnsOk(Apply(w, e).db.jobs[id])
  {
  }

  lemma KeepsColumns(w: World, e: Effect)
    requires EffectOk(w, e) && ColumnsOk(w)
    ensures ColumnsOk(Apply(w, e))
  {
    var w' := Apply(w, e);
    LogGrows(w, e);
    if Logs(w, e) { EventTellsColumns(w, e); }
    forall id: nat ensures ReplayColumns(w'.db.log, id) == ColumnsOf(w'.db.jobs, id) {
      assert ReplayColumns(w.db.log, id) == ColumnsOf(w.db.jobs, id);
    }
    forall id | id in w'.db.jobs ensures ClaimColumnsOk(w'.db.jobs[id]) {
      KeepsClaimColumns(w, e, id);
    }
  }

  lemma {:induction false} ColumnsEffects(w: World, es: seq<Effect>)
    requires EffectsOk(w, es) && ColumnsOk(w)
    ensures ColumnsOk(ApplyAll(w, es))
    decreases |es|
  {
    if es != [] {
      KeepsColumns(w, es[0]);
      ColumnsEffects(Apply(w, es[0]), es[1..]);
    }
  }

  lemma {:induction false} ColumnsRun(w: World, run: seq<Action>)
    requires IsRun(w, run) && ColumnsOk(w)
    ensures ColumnsOk(After(w, run))
    decreases |run|
  {
    if run != [] {
      EnabledEffectsOk(w, run[0]);
      ColumnsEffects(w, Effects(w, run[0]));
      ColumnsRun(Next(w, run[0]), run[1..]);
    }
  }

  /** In every run the log alone determines type, status, attempts, created_at, claimed_by, claimed_at, completed_at
      and last_error of every row; the claim columns are set together; and no claim began before its row
      was due. */
  lemma LogDeterminesColumns(clock: int, run: seq<Action>, id: nat)
    requires IsRun(Init(clock), run)
    ensures var db := After(Init(clock), run).db;
            && ReplayColumns(db.log, id) == ColumnsOf(db.jobs, id)
            && (id in db.jobs ==> ClaimColumnsOk(db.jobs[id]))
  {
    ColumnsRun(Init(clock), run);
  }

  // ----- no claim before its time -----

  ghost predicate NoRequeue(log: seq<Event>, id: nat, from: nat, to: nat) {
    forall m :: from <= m < to && m < |log| && log[m].jobId == id ==> !IsRequeue(log[m].kind)
  }

  /** From event `n` on, and until job `id` goes back to the queue, it waits for `due` and is not claimed earlier. */
  ghost predicate Waiting(w: World, id: nat, n: nat, due: int) {
    && n <= |w.db.log| && id in w.db.jobs
    && (NoRequeue(w.db.log, id, n, |w.db.log|) && w.db.jobs[id].status == StatusQueued ==>
          w.db.jobs[id].runAfter == due)
    && forall i ::
         && n <= i < |w.db.log| && w.db.log[i].jobId == id && w.db.log[i].kind == EventClaimed
         && NoRequeue(w.db.log, id, n, i)
         ==> due <= w.db.log[i].occurredAt
  }

  /** What an effect does to the row its event names. */
  lemma EventAndDue(w: World, e: Effect)
    requires EffectOk(w, e) && Logs(w, e)
    ensures var ev := Apply(w, e).db.log[|w.db.log|];
            && (ev.kind != EventEnqueued ==> ev.jobId in w.db.jobs)
            && (ev.kind == EventClaimed ==>
                  w.db.jobs[ev.jobId].status == StatusQueued && w.db.jobs[ev.jobId].runAfter <= ev.occurredAt)
            && (ev.kind != EventEnqueued && !IsRequeue(ev.kind) ==>
                  Apply(w, e).db.jobs[ev.jobId].status != StatusQueued)
  {
  }

  lemma KeepsWaiting(w: World, e: Effect, id: nat, n: nat, due: int)
    requires RowsOk(w) && EffectOk(w, e) && Waiting(w, id, n, due)
    ensures Waiting(Apply(w, e), id, n, due)
  {
    var w' := Apply(w, e);
    LogGrows(w, e);
    if Logs(w, e) {
      EventAndDue(w, e);
      var log, log' := w.db.log, w'.db.log;
      forall i | n <= i < |log'| && log'[i].jobId == id && log'[i].kind == EventClaimed && NoRequeue(log', id, n, i)
        ensures due <= log'[i].occurredAt
      {
        assert NoRequeue(log, id, n, i) by { PrefixNoRequeue(log, log', id, n, i); }
        if i < |log| { assert log'[i] == log[i]; }
      }
      if NoRequeue(log', id, n, |log'|) {
        PrefixNoRequeue(log, log', id, n, |log|);
        assert log'[|log|].jobId == id ==> !IsRequeue(log'[|log|].kind);
      }
    }
  }

  lemma PrefixNoRequeue(log: seq<Event>, log': seq<Event>, id: nat, n: nat, i: nat)
    requires log <= log' && exists j :: i <= j && NoRequeue(log', id, n, j)
    ensures NoRequeue(log, id, n, i)
  {
    forall m | n <= m < i && m < |log| && log[m].jobId == id ensures !IsRequeue(log[m].kind) {
      assert log'[m] == log[m];
    }
  }

  lemma {:induction false} WaitingEffects(w: World, es: seq<Effect>, id: nat, n: nat, due: int)
    requires RowsOk(w) && EffectsOk(w, es) && Waiting(w, id, n, due)
    ensures Waiting(ApplyAll(w, es), id, n, due)
    decreases |es|
  {
    if es != [] {
      KeepsWaiting(w, es[0], id, n, due);
      KeepsRows(w, es[0]);
      WaitingEffects(Apply(w, es[0]), es[1..], id, n, due);
    }
  }

  lemma {:induction false} WaitingRun(w: World, run: seq<Action>, id: nat, n: nat, due: int)
    requires Inv(w) && IsRun(w, run) && Waiting(w, id, n, due)
    ensures Waiting(After(w, run), id, n, due)
    decreases |run|
  {
    if run != [] {
      EnabledEffectsOk(w, run[0]);
      WaitingEffects(w, Effects(w, run[0]), id, n, due);
      InvNext(w, run[0]);
      WaitingRun(Next(w, run[0]), run[1..], id, n, due);
    }
  }

  /** After every run and in every continuation: a queued job is not claimed before its run_after, unless it is
      put back in the queue again first. */
  lemma NotClaimedBeforeDue(clock: int, past: seq<Action>, future: seq<Action>, id: nat, i: nat)
    requires IsRun(Init(clock), past) && IsRun(After(Init(clock), past), future)
    requires var w, log := After(Init(clock), past), After(After(Init(clock), past), future).db.log;
             && id in w.db.jobs && w.db.jobs[id].status == StatusQueued
             && |w.db.log| <= i < |log| && log[i].jobId == id && log[i].kind == EventClaimed
             && NoRequeue(log, id, |w.db.log|, i)
    ensures var w, log := After(Init(clock), past), After(After(Init(clock), past), future).db.log;
            w.db.jobs[id].runAfter <= log[i].occurredAt
  {
    var w := After(Init(clock), past);
    InvInit(clock);
    InvRun(Init(clock), past);
    WaitingRun(w, future, id, |w.db.log|, w.db.jobs[id].runAfter);
  }

  /** A retry is honoured: when a worker sends its job back with run_after `due`, the job is not claimed before
      `due`, however the run goes on, unless a further retry or reap intervenes. */
  lemma RetryIsHonoured(
    clock: int, past: seq<Action>, t: Ticket, message: string, due: int, future: seq<Action>, i: nat)
    requires IsRun(Init(clock), past) && t in After(Init(clock), past).tickets && t.attempts < t.maxAttempts
    requires IsRun(Next(After(Init(clock), past), Report(t, Error(message, due))), future)
    requires var w := Next(After(Init(clock), past), Report(t, Error(message, due)));
             var log := After(w, future).db.log;
             && |w.db.log| <= i < |log| && log[i].jobId == t.jobId && log[i].kind == EventClaimed
             && NoRequeue(log, t.jobId, |w.db.log|, i)
    ensures var w := Next(After(Init(clock), past), Report(t, Error(message, due)));
            due <= After(w, future).db.log[i].occurredAt
  {
    var w0, a := After(Init(clock), past), Report(t, Error(message, due));
    InvInit(clock);
    InvRun(Init(clock), past);
    assert TicketOk(w0, t);
    ReportWrites(w0, t, a.result);
    OneStep(w0, a);
    RunConcat(Init(clock), past, [a]);
    NotClaimedBeforeDue(clock, past + [a], future, t.jobId, i);
  }
}
