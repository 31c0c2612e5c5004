/** Main results that hold in every run of the system, however late workers report. */
module EveryRunResults {
  import opened Jobs
  import opened Statements
  import opened Runs
  import opened EventLog
  import opened Invariants
  import opened History

  // ----- log replay -----

  /** Folding a job's events reproduces its row, every event carries the type of its job and the
      attempts replayed up to it, and attempts counts the claims. */
  lemma LogReplaysRows(clock: int, run: seq<Action>)
    requires IsRun(Init(clock), run)
    ensures var db := After(Init(clock), run).db;
            && (forall id: nat :: Replay(db.log, id).Some? <==> id in db.jobs)
            && (forall id :: id in db.jobs ==>
                  Replay(db.log, id) == Some(LogState(db.jobs[id].status, db.jobs[id].attempts)))
            && (forall id :: id in db.jobs ==> Count(db.log, id, {EventClaimed}) == db.jobs[id].attempts)
            && (forall i :: 0 <= i < |db.log| ==>
                  && db.log[i].jobId in db.jobs && db.log[i].jobType == db.jobs[db.log[i].jobId].jobType
                  && Replay(db.log[..i + 1], db.log[i].jobId).Some?
                  && Replay(db.log[..i + 1], db.log[i].jobId).value.attempts == db.log[i].attempts)
  {
    EveryRun(clock, run);
    var w := After(Init(clock), run);
    forall id | id in w.db.jobs ensures Count(w.db.log, id, {EventClaimed}) == w.db.jobs[id].attempts {
      assert BoundOk(w, id);
    }
    forall i | 0 <= i < |w.db.log|
      ensures w.db.log[i].jobId in w.db.jobs && w.db.log[i].jobType == w.db.jobs[w.db.log[i].jobId].jobType
      ensures Replay(w.db.log[..i + 1], w.db.log[i].jobId).Some?
      ensures Replay(w.db.log[..i + 1], w.db.log[i].jobId).value.attempts == w.db.log[i].attempts
    {
      assert EventOk(w, i);
    }
  }

  /** The type a job was enqueued with, read from the log. */
  ghost predicate LoggedType(log: seq<Event>, id: nat, jobType: string) {
    exists i :: 0 <= i < |log| && log[i].jobId == id && log[i].jobType == jobType
  }

  ghost function JobsByStatusAndType(jobs: map<nat, Row>, status: Status, jobType: string): set<nat> {
    set id | id in jobs && jobs[id].status == status && jobs[id].jobType == jobType
  }

  ghost function LoggedIds(log: seq<Event>): set<nat> {
    set i | 0 <= i < |log| :: log[i].jobId
  }

  ghost function ReplayedByStatusAndType(log: seq<Event>, status: Status, jobType: string): set<nat> {
    set id | id in LoggedIds(log) && Replay(log, id).Some? && Replay(log, id).value.status == status &&
             LoggedType(log, id, jobType)
  }

  lemma {:induction false} ReplayedIsLogged(log: seq<Event>, id: nat)
    requires Replay(log, id).Some?
    ensures exists i :: 0 <= i < |log| && log[i].jobId == id
    decreases |log|
  {
    var n := |log| - 1;
    if log[n].jobId != id {
      ReplayedIsLogged(log[..n], id);
      var i :| 0 <= i < n && log[..n][i].jobId == id;
      assert log[i].jobId == id;
    }
  }

  /** The live counts by status and type are those computed from the log alone. */
  lemma CountsFromLog(clock: int, run: seq<Action>, status: Status, jobType: string)
    requires IsRun(Init(clock), run)
    ensures var db := After(Init(clock), run).db;
            JobsByStatusAndType(db.jobs, status, jobType) == ReplayedByStatusAndType(db.log, status, jobType)
  {
    EveryRun(clock, run);
    var w := After(Init(clock), run);
    forall id: nat
      ensures id in JobsByStatusAndType(w.db.jobs, status, jobType) <==>
              id in ReplayedByStatusAndType(w.db.log, status, jobType)
    {
      CountedFromLog(w, id, status, jobType);
    }
  }

  lemma CountedFromLog(w: World, id: nat, status: Status, jobType: string)
    requires ReplayOk(w) && EventsOk(w)
    ensures id in JobsByStatusAndType(w.db.jobs, status, jobType) <==>
            id in ReplayedByStatusAndType(w.db.log, status, jobType)
  {
    assert Replay(w.db.log, id) == RowState(w.db, id);
    if id in w.db.jobs {
      forall i | 0 <= i < |w.db.log| && w.db.log[i].jobId == id
        ensures w.db.log[i].jobType == w.db.jobs[id].jobType
      {
        assert EventOk(w, i);
      }
      JobIsLogged(w.db, id, jobType);
    }
  }

  lemma JobIsLogged(db: Db, id: nat, jobType: string)
    requires id in db.jobs && Replay(db.log, id).Some?
    requires forall i :: 0 <= i < |db.log| && db.log[i].jobId == id ==> db.log[i].jobType == db.jobs[id].jobType
    ensures id in LoggedIds(db.log) && (LoggedType(db.log, id, jobType) <==> db.jobs[id].jobType == jobType)
  {
    ReplayedIsLogged(db.log, id);
    var i :| 0 <= i < |db.log| && db.log[i].jobId == id;
    assert LoggedType(db.log, id, db.log[i].jobType);
  }

  // ----- no job is claimed twice in a row -----

  lemma {:induction false} RequeueBetween(log: seq<Event>, id: nat, i: nat, k: nat)
    requires OriginsOk(log) && i <= k <= |log|
    requires Replay(log[..i], id).Some? && Replay(log[..i], id).value.status == StatusRunning
    requires Replay(log[..k], id).Some? && Replay(log[..k], id).value.status == StatusQueued
    ensures exists m :: i <= m < k && log[m].jobId == id && IsRequeue(log[m].kind)
    decreases k - i
  {
    assert i < k;
    assert log[..k][..k - 1] == log[..k - 1];
    assert OriginOk(log, k - 1);
    if !(log[k - 1].jobId == id && IsRequeue(log[k - 1].kind)) {
      StaysLogged(log, id, i, k - 1);
      RequeueBetween(log, id, i, k - 1);
    }
  }

  lemma {:induction false} StaysLogged(log: seq<Event>, id: nat, i: nat, k: nat)
    requires OriginsOk(log) && i <= k <= |log| && Replay(log[..i], id).Some?
    ensures Replay(log[..k], id).Some?
    ensures Replay(log[..k], id).value.attempts >= Replay(log[..i], id).value.attempts
    decreases k - i
  {
    if i < k {
      StaysLogged(log, id, i, k - 1);
      assert log[..k][..k - 1] == log[..k - 1];
      assert OriginOk(log, k - 1);
    }
  }

  lemma ClaimsApart(log: seq<Event>, i: nat, k: nat)
    requires OriginsOk(log) && i < k < |log| && log[i].jobId == log[k].jobId
    requires log[i].kind == EventClaimed && log[k].kind == EventClaimed
    ensures exists m :: i < m < k && log[m].jobId == log[i].jobId && IsRequeue(log[m].kind)
    ensures var id := log[i].jobId;
            && Replay(log[..i + 1], id).Some? && Replay(log[..k + 1], id).Some?
            && Replay(log[..i + 1], id).value.attempts < Replay(log[..k + 1], id).value.attempts
  {
    var id := log[i].jobId;
    assert OriginOk(log, i) && OriginOk(log, k);
    assert log[..i + 1][..i] == log[..i] && log[..k + 1][..k] == log[..k];
    StaysLogged(log, id, i + 1, k);
    RequeueBetween(log, id, i + 1, k);
  }

  /** Between two claims of one job lies a retry or a reap that put it back, and the two claims
      carry different attempts: (job_id, attempts) names one claim. */
  lemma NoDoubleClaim(clock: int, run: seq<Action>, i: nat, k: nat)
    requires IsRun(Init(clock), run)
    requires i < k < |After(Init(clock), run).db.log|
    requires var log := After(Init(clock), run).db.log;
             log[i].kind == EventClaimed && log[k].kind == EventClaimed && log[i].jobId == log[k].jobId
    ensures var log := After(Init(clock), run).db.log;
            && (exists m :: i < m < k && log[m].jobId == log[i].jobId && IsRequeue(log[m].kind))
            && log[i].attempts < log[k].attempts
  {
    EveryRun(clock, run);
    LogReplaysRows(clock, run);
    ClaimsApart(After(Init(clock), run).db.log, i, k);
  }

  // ----- dead letters -----

  /** The log counts a job's dead letters; there is never more than one; and the letter of a
      failed job is a copy of its row. */
  lemma DeadLettersCounted(clock: int, run: seq<Action>, id: nat)
    requires IsRun(Init(clock), run)
    ensures var db := After(Init(clock), run).db;
            && LetterCount(db.dead, id) == Count(db.log, id, {EventFailed, EventReapedFailed}) <= 1
            && (id in db.jobs && db.jobs[id].status == StatusFailed ==>
                  LetterCount(db.dead, id) == 1 && HasCopy(db.dead, id, db.jobs[id]))
  {
    EveryRun(clock, run);
    var db := After(Init(clock), run).db;
    if HasCopy(db.dead, id, if id in db.jobs then db.jobs[id] else NewRow(0, "", "", "", 0, 1)) {
      var i :| 0 <= i < |db.dead| && db.dead[i].jobId == id;
      assert HasDeadLetter(db.dead, id);
    }
  }

  // ----- the execution bound -----

  /** However many workers crash or report late, a job is claimed at most 2 * max_attempts - 1 times. */
  lemma ExecutionBound(clock: int, run: seq<Action>, id: nat)
    requires IsRun(Init(clock), run)
    requires id in After(Init(clock), run).db.jobs
    ensures var db := After(Init(clock), run).db;
            && Count(db.log, id, {EventClaimed}) == db.jobs[id].attempts <= 2 * db.jobs[id].maxAttempts - 1
            && Count(db.log, id, {EventRetried}) < db.jobs[id].maxAttempts
            && Count(db.log, id, {EventReapedRetry}) < db.jobs[id].maxAttempts
  {
    EveryRun(clock, run);
    assert BoundOk(After(Init(clock), run), id);
  }

  // ----- a job of one attempt stays buried -----

  lemma {:induction false} CountZero(log: seq<Event>, id: nat, kinds: set<EventKind>)
    ensures Count(log, id, kinds) == 0 <==>
            forall i :: 0 <= i < |log| && log[i].jobId == id ==> log[i].kind !in kinds
    decreases |log|
  {
    if log != [] {
      CountZero(log[..|log| - 1], id, kinds);
      assert log == log[..|log| - 1] + [log[|log| - 1]];
    }
  }

  lemma {:induction false} TerminalUntilRequeued(log: seq<Event>, id: nat, i: nat, k: nat)
    requires OriginsOk(log) && i <= k <= |log|
    requires Replay(log[..i], id).Some? && Terminal(Replay(log[..i], id).value.status)
    requires forall m :: i <= m < k && log[m].jobId == id ==> !IsRequeue(log[m].kind)
    ensures Replay(log[..k], id).Some? && Terminal(Replay(log[..k], id).value.status)
    decreases k - i
  {
    if i < k {
      TerminalUntilRequeued(log, id, i, k - 1);
      assert log[..k][..k - 1] == log[..k - 1];
      assert OriginOk(log, k - 1);
    }
  }

  /** With max_attempts = 1 nothing can send a job back to the queue: once it has a dead letter it is
      terminal for good, in every run. */
  lemma SingleAttemptStaysBuried(clock: int, run: seq<Action>, id: nat)
    requires IsRun(Init(clock), run)
    requires var db := After(Init(clock), run).db;
             id in db.jobs && db.jobs[id].maxAttempts == 1 && HasDeadLetter(db.dead, id)
    ensures Terminal(After(Init(clock), run).db.jobs[id].status)
  {
    var db := After(Init(clock), run).db;
    EveryRun(clock, run);
    ExecutionBound(clock, run, id);
    CountZero(db.log, id, {EventRetried});
    CountZero(db.log, id, {EventReapedRetry});
    CountZero(db.log, id, BURIALS);
    var i :| 0 <= i < |db.log| && db.log[i].jobId == id && db.log[i].kind in BURIALS;
    BuriedThenTerminal(db.log, id, i);
    LogReplaysRows(clock, run);
  }

  lemma BuriedThenTerminal(log: seq<Event>, id: nat, i: nat)
    requires OriginsOk(log) && i < |log| && log[i].jobId == id && log[i].kind in BURIALS
    requires forall m :: 0 <= m < |log| && log[m].jobId == id ==> !IsRequeue(log[m].kind)
    ensures Replay(log, id).Some? && Terminal(Replay(log, id).value.status)
  {
    assert OriginOk(log, i);
    assert log[..i + 1][..i] == log[..i] && log[..|log|] == log;
    TerminalUntilRequeued(log, id, i + 1, |log|);
  }
}
