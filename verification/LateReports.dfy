/** What reports after the lease can do. The execution bound is reached for every max_attempts,
    and one late report is enough to revive a failed job, to pass max_attempts, and to leave
    a row behind that makes every later reap abort. */
module LateReports {
  import opened Jobs
  import opened Statements
  import opened Runs
  import opened EventLog
  import opened Invariants
  import opened Fencing
  import opened History
  import opened EveryRunResults
  import opened Reports

  const LEASE: nat := 30

  // ----- steps of a world with one job -----

  ghost predicate Single(w: World, status: Status, attempts: nat, maxAttempts: int) {
    && w.db.jobs.Keys == {0}
    && w.db.jobs[0].status == status
    && w.db.jobs[0].attempts == attempts
    && w.db.jobs[0].maxAttempts == maxAttempts >= 1
    && (status == StatusQueued ==> w.db.jobs[0].runAfter <= w.clock)
  }

  ghost predicate HasTicket(w: World, attempts: nat, maxAttempts: int) {
    exists t :: t in w.tickets && t.jobId == 0 && t.attempts == attempts && t.maxAttempts == maxAttempts
  }

  function ClaimIt(w: World): Action {
    Claim("worker", w.clock, LEASE, 1, {}, [0])
  }

  lemma DoClaim(w: World, attempts: nat, maxAttempts: int)
    requires Single(w, StatusQueued, attempts, maxAttempts)
    ensures Enabled(w, ClaimIt(w))
    ensures var w' := Next(w, ClaimIt(w));
            && Single(w', StatusRunning, attempts + 1, maxAttempts)
            && w'.db.jobs[0].leaseExpiresAt == Some(w.clock + LEASE) && w'.clock == w.clock
            && w'.tickets == w.tickets + {Ticket(0, attempts + 1, maxAttempts, w.clock + LEASE)}
            && w'.db.dead == w.db.dead && w'.db.jobs[0].runAfter == w.db.jobs[0].runAfter
  {
    var e := ClaimOne(0, "worker", w.clock, LEASE);
    OneEffect(w, e);
    EnabledEffectsOk(w, ClaimIt(w));
    assert ClaimEffects("worker", w.clock, LEASE, []) == [];
    assert [0][1..] == [];
    assert Effects(w, ClaimIt(w)) == [e];
  }

  lemma DoReap(w: World, attempts: nat, maxAttempts: int)
    requires Single(w, StatusRunning, attempts, maxAttempts) && attempts < maxAttempts
    requires Expired(w.db.jobs[0], w.clock) && w.db.jobs[0].runAfter <= w.clock
    ensures Enabled(w, Reap([0]))
    ensures var w' := Next(w, Reap([0]));
            && Single(w', StatusQueued, attempts, maxAttempts)
            && w'.clock == w.clock && w'.tickets == w.tickets && w'.db.dead == w.db.dead
  {
    OneEffect(w, ReapOne(0));
    EnabledEffectsOk(w, Reap([0]));
    assert [0][1..] == [];
    assert ReapEffects([0]) == [ReapOne(0)];
    assert !ReapBlocked(w.db, w.clock);
  }

  lemma DoRetry(w: World, t: Ticket, status: Status, attempts: nat, maxAttempts: int)
    requires Single(w, status, attempts, maxAttempts)
    requires t in w.tickets && t.jobId == 0 && t.attempts < t.maxAttempts
    ensures var a := Report(t, Error("boom", w.clock));
            && Enabled(w, a)
            && Single(Next(w, a), StatusQueued, attempts, maxAttempts)
            && Next(w, a).clock == w.clock && Next(w, a).tickets == w.tickets - {t} && Next(w, a).db.dead == w.db.dead
  {
    OneEffect(w, RetryOne(t, w.clock, "boom"));
  }

  // ----- the bound is tight -----

  /** One crash-and-recover round: claim, let the lease run out, reap; the worker's ticket is still out. */
  lemma ReapRound(w: World, k: nat, maxAttempts: int) returns (run: seq<Action>)
    requires Single(w, StatusQueued, k, maxAttempts) && k + 1 < maxAttempts
    requires forall i :: 1 <= i <= k ==> HasTicket(w, i, maxAttempts)
    ensures IsRun(w, run) && forall a :: a in run ==> !a.Report?
    ensures Single(After(w, run), StatusQueued, k + 1, maxAttempts)
    ensures After(w, run).db.dead == w.db.dead
    ensures forall i :: 1 <= i <= k + 1 ==> HasTicket(After(w, run), i, maxAttempts)
  {
    DoClaim(w, k, maxAttempts);
    var w1 := Next(w, ClaimIt(w));
    TickOnly(w1, LEASE + 1);
    var w2 := Next(w1, Tick(LEASE + 1));
    assert w2.db == w1.db;
    DoReap(w2, k + 1, maxAttempts);
    var w3 := Next(w2, Reap([0]));
    OneStep(w, ClaimIt(w));
    OneStep(w1, Tick(LEASE + 1));
    OneStep(w2, Reap([0]));
    RunConcat(w, [ClaimIt(w)], [Tick(LEASE + 1)]);
    RunConcat(w, [ClaimIt(w)] + [Tick(LEASE + 1)], [Reap([0])]);
    run := [ClaimIt(w)] + [Tick(LEASE + 1)] + [Reap([0])];
    assert w3.tickets == w.tickets + {Ticket(0, k + 1, maxAttempts, w.clock + LEASE)};
    forall i | 1 <= i <= k + 1 ensures HasTicket(w3, i, maxAttempts) {
      if i <= k {
        assert HasTicket(w, i, maxAttempts);
        var t :| t in w.tickets && t.jobId == 0 && t.attempts == i && t.maxAttempts == maxAttempts;
        assert t in w3.tickets;
      } else {
        assert Ticket(0, k + 1, maxAttempts, w.clock + LEASE) in w3.tickets;
      }
    }
  }

  lemma {:induction false} ReapRounds(w: World, k: nat, maxAttempts: int) returns (run: seq<Action>)
    requires Single(w, StatusQueued, k, maxAttempts) && k < maxAttempts
    requires forall i :: 1 <= i <= k ==> HasTicket(w, i, maxAttempts)
    ensures IsRun(w, run) && forall a :: a in run ==> !a.Report?
    ensures Single(After(w, run), StatusQueued, maxAttempts - 1, maxAttempts)
    ensures After(w, run).db.dead == w.db.dead
    ensures forall i :: 1 <= i < maxAttempts ==> HasTicket(After(w, run), i, maxAttempts)
    decreases maxAttempts - k
  {
    if k + 1 == maxAttempts {
      run := [];
    } else {
      var first := ReapRound(w, k, maxAttempts);
      var rest := ReapRounds(After(w, first), k + 1, maxAttempts);
      RunConcat(w, first, rest);
      run := first + rest;
    }
  }

  /** One late report: attempt `i`'s worker asks for a retry although the job has moved on. */
  lemma LateRound(w: World, i: nat, maxAttempts: int) returns (run: seq<Action>)
    requires 1 <= i < maxAttempts && Single(w, StatusRunning, maxAttempts + i - 1, maxAttempts)
    requires forall k :: i <= k < maxAttempts ==> HasTicket(w, k, maxAttempts)
    ensures IsRun(w, run)
    ensures Single(After(w, run), StatusRunning, maxAttempts + i, maxAttempts)
    ensures forall k :: i + 1 <= k < maxAttempts ==> HasTicket(After(w, run), k, maxAttempts)
  {
    assert HasTicket(w, i, maxAttempts);
    var t :| t in w.tickets && t.jobId == 0 && t.attempts == i && t.maxAttempts == maxAttempts;
    var a := Report(t, Error("boom", w.clock));
    DoRetry(w, t, StatusRunning, maxAttempts + i - 1, maxAttempts);
    var w1 := Next(w, a);
    DoClaim(w1, maxAttempts + i - 1, maxAttempts);
    var w2 := Next(w1, ClaimIt(w1));
    OneStep(w, a);
    OneStep(w1, ClaimIt(w1));
    RunConcat(w, [a], [ClaimIt(w1)]);
    run := [a] + [ClaimIt(w1)];
    forall k | i + 1 <= k < maxAttempts ensures HasTicket(w2, k, maxAttempts) {
      assert HasTicket(w, k, maxAttempts);
      var u :| u in w.tickets && u.jobId == 0 && u.attempts == k && u.maxAttempts == maxAttempts;
      assert u in w2.tickets;
    }
  }

  lemma {:induction false} LateRounds(w: World, i: nat, maxAttempts: int) returns (run: seq<Action>)
    requires 1 <= i <= maxAttempts && Single(w, StatusRunning, maxAttempts + i - 1, maxAttempts)
    requires forall k :: i <= k < maxAttempts ==> HasTicket(w, k, maxAttempts)
    ensures IsRun(w, run)
    ensures Single(After(w, run), StatusRunning, 2 * maxAttempts - 1, maxAttempts)
    decreases maxAttempts - i
  {
    if i == maxAttempts {
      run := [];
    } else {
      var first := LateRound(w, i, maxAttempts);
      var rest := LateRounds(After(w, first), i + 1, maxAttempts);
      RunConcat(w, first, rest);
      run := first + rest;
    }
  }

  function EnqueueIt(maxAttempts: int): Action {
    Enqueue(0, "demo_job", "{}", "", DEFAULT_PRIORITY, maxAttempts)
  }

  lemma DoEnqueue(clock: int, maxAttempts: int)
    requires maxAttempts >= 1
    ensures Enabled(Init(clock), EnqueueIt(maxAttempts))
    ensures var w := Next(Init(clock), EnqueueIt(maxAttempts));
            Single(w, StatusQueued, 0, maxAttempts) && w.tickets == {} && w.clock == clock && w.db.dead == []
  {
    OneEffect(Init(clock), Insert(0, NewRow(clock, "demo_job", "{}", "", DEFAULT_PRIORITY, maxAttempts)));
  }

  /** For every max_attempts some run claims one job 2 * max_attempts - 1 times. */
  lemma ExecutionBoundTight(clock: int, maxAttempts: int) returns (run: seq<Action>)
    requires maxAttempts >= 1
    ensures IsRun(Init(clock), run)
    ensures var db := After(Init(clock), run).db;
            && 0 in db.jobs && db.jobs[0].maxAttempts == maxAttempts
            && Count(db.log, 0, {EventClaimed}) == 2 * maxAttempts - 1
  {
    DoEnqueue(clock, maxAttempts);
    var w0 := Next(Init(clock), EnqueueIt(maxAttempts));
    OneStep(Init(clock), EnqueueIt(maxAttempts));
    var reaps := ReapRounds(w0, 0, maxAttempts);
    var w1 := After(w0, reaps);
    DoClaim(w1, maxAttempts - 1, maxAttempts);
    OneStep(w1, ClaimIt(w1));
    var w2 := Next(w1, ClaimIt(w1));
    forall k | 1 <= k < maxAttempts ensures HasTicket(w2, k, maxAttempts) {
      assert HasTicket(w1, k, maxAttempts);
      var u :| u in w1.tickets && u.jobId == 0 && u.attempts == k && u.maxAttempts == maxAttempts;
      assert u in w2.tickets;
    }
    var lates := LateRounds(w2, 1, maxAttempts);
    RunConcat(w1, [ClaimIt(w1)], lates);
    RunConcat(w0, reaps, [ClaimIt(w1)] + lates);
    RunConcat(Init(clock), [EnqueueIt(maxAttempts)], reaps + ([ClaimIt(w1)] + lates));
    run := [EnqueueIt(maxAttempts)] + (reaps + ([ClaimIt(w1)] + lates));
    LogReplaysRows(clock, run);
  }

  // ----- a late report revives a dead job and blocks the reaper -----

  lemma DoFail(w: World, t: Ticket, status: Status, attempts: nat, maxAttempts: int)
    requires Single(w, status, attempts, maxAttempts)
    requires t in w.tickets && t.jobId == 0 && t.attempts >= t.maxAttempts && !HasDeadLetter(w.db.dead, 0)
    ensures var a := Report(t, Error("boom", w.clock));
            && Enabled(w, a)
            && Single(Next(w, a), StatusFailed, attempts, maxAttempts)
            && HasDeadLetter(Next(w, a).db.dead, 0)
            && Next(w, a).clock == w.clock && Next(w, a).tickets == w.tickets - {t}
  {
    var e := FailOne(t, "boom");
    OneEffect(w, e);
    var dead' := Apply(w, e).db.dead;
    assert dead'[|w.db.dead|].jobId == 0;
  }

  lemma {:induction false} CrashAll(w: World) returns (run: seq<Action>)
    ensures IsRun(w, run) && After(w, run) == w.(tickets := {}) && forall a :: a in run ==> a.Crash?
    decreases |w.tickets|
  {
    if w.tickets == {} {
      run := [];
    } else {
      var t :| t in w.tickets;
      var w1 := w.(tickets := w.tickets - {t});
      OneEffect(w, Drop(t));
      OneStep(w, Crash(t));
      assert After(w, [Crash(t)]) == w1;
      var rest := CrashAll(w1);
      RunConcat(w, [Crash(t)], rest);
      run := [Crash(t)] + rest;
    }
  }

  /** The row of job `id` is a lost, exhausted claim of a job that already has its dead letter. */
  ghost predicate Wedged(w: World, id: nat) {
    Stuck(w, id) && Exhausted(w.db.jobs[id]) && HasDeadLetter(w.db.dead, id)
  }

  /** A claim whose worker is gone and whose lease has run out: only the reaper can free it. */
  ghost predicate Stuck(w: World, id: nat) {
    && id in w.db.jobs && Expired(w.db.jobs[id], w.clock)
    && forall t :: t in w.tickets ==> t.jobId != id
  }

  /** The run begins with a retry by the first attempt's worker, and nobody reports after it. */
  ghost predicate OneLateRetry(run: seq<Action>) {
    && run != [] && run[0].Report? && run[0].result.Error? && run[0].t.attempts == 1
    && forall i :: 1 <= i < |run| ==> !run[i].Report?
  }

  /** From a claim of the last attempt on, with the first attempt's worker still out: the job fails,
      and is then claimed again. */
  lemma FailThenRevive(w: World, maxAttempts: int) returns (past: seq<Action>, future: seq<Action>)
    requires maxAttempts >= 2 && Single(w, StatusQueued, maxAttempts - 1, maxAttempts)
    requires HasTicket(w, 1, maxAttempts) && !HasDeadLetter(w.db.dead, 0)
    ensures IsRun(w, past) && Single(After(w, past), StatusFailed, maxAttempts, maxAttempts)
    ensures ReportsMeet(Timely, w, past)
    ensures IsRun(After(w, past), future) && OneLateRetry(future)
    ensures var end := After(After(w, past), future);
            && Single(end, StatusRunning, maxAttempts + 1, maxAttempts)
            && Expired(end.db.jobs[0], end.clock) && HasDeadLetter(end.db.dead, 0)
  {
    var late :| late in w.tickets && late.jobId == 0 && late.attempts == 1 && late.maxAttempts == maxAttempts;
    DoClaim(w, maxAttempts - 1, maxAttempts);
    var w1 := Next(w, ClaimIt(w));
    var t := Ticket(0, maxAttempts, maxAttempts, w.clock + LEASE);
    DoFail(w1, t, StatusRunning, maxAttempts, maxAttempts);
    var fail := Report(t, Error("boom", w1.clock));
    var w2 := Next(w1, fail);
    OneStep(w, ClaimIt(w));
    OneStep(w1, fail);
    RunConcat(w, [ClaimIt(w)], [fail]);
    past := [ClaimIt(w)] + [fail];
    assert past[1..] == [fail] && [fail][1..] == [];
    assert ReportsMeet(Timely, w1, [fail]);

    DoRetry(w2, late, StatusFailed, maxAttempts, maxAttempts);
    var retry := Report(late, Error("boom", w2.clock));
    var w3 := Next(w2, retry);
    DoClaim(w3, maxAttempts, maxAttempts);
    var w4 := Next(w3, ClaimIt(w3));
    TickOnly(w4, LEASE + 1);
    OneStep(w2, retry);
    OneStep(w3, ClaimIt(w3));
    OneStep(w4, Tick(LEASE + 1));
    RunConcat(w2, [retry], [ClaimIt(w3)]);
    RunConcat(w2, [retry] + [ClaimIt(w3)], [Tick(LEASE + 1)]);
    future := [retry] + [ClaimIt(w3)] + [Tick(LEASE + 1)];
  }

  /** For every max_attempts >= 2 one late retry is enough: after a run whose reports all come within their lease,
      it brings a failed job back to life, and with no further report attempts pass max_attempts, a dead
      letter belongs to a job that is not failed, and the reaper is blocked by a row nobody can release. */
  lemma LateReportsBreakTheQueue(clock: int, maxAttempts: int) returns (past: seq<Action>, future: seq<Action>)
    requires maxAttempts >= 2
    ensures IsRun(Init(clock), past) && IsRun(After(Init(clock), past), future)
    ensures var w := After(Init(clock), past);
            0 in w.db.jobs && w.db.jobs[0].status == StatusFailed && w.db.jobs[0].maxAttempts == maxAttempts
    ensures ReportsMeet(Timely, Init(clock), past) && OneLateRetry(future)
    ensures var w := After(After(Init(clock), past), future);
            && 0 in w.db.jobs && w.db.jobs[0].status == StatusRunning
            && w.db.jobs[0].attempts > w.db.jobs[0].maxAttempts == maxAttempts
            && Wedged(w, 0) && ReapBlocked(w.db, w.clock)
  {
    DoEnqueue(clock, maxAttempts);
    var w0 := Next(Init(clock), EnqueueIt(maxAttempts));
    OneStep(Init(clock), EnqueueIt(maxAttempts));
    var reaps := ReapRounds(w0, 0, maxAttempts);
    var w1 := After(w0, reaps);
    RunConcat(Init(clock), [EnqueueIt(maxAttempts)], reaps);
    assert HasTicket(w1, 1, maxAttempts);
    var fails, revives := FailThenRevive(w1, maxAttempts);
    RunConcat(Init(clock), [EnqueueIt(maxAttempts)] + reaps, fails);
    past := [EnqueueIt(maxAttempts)] + reaps + fails;
    NoReportsMeet(Timely, Init(clock), [EnqueueIt(maxAttempts)] + reaps);
    MeetConcat(Timely, Init(clock), [EnqueueIt(maxAttempts)] + reaps, fails);
    var w2 := After(After(w1, fails), revives);
    var crashes := CrashAll(w2);
    RunConcat(After(w1, fails), revives, crashes);
    future := revives + crashes;
    forall i | 1 <= i < |future| ensures !future[i].Report? {
      if i >= |revives| { assert future[i] in crashes; }
    }
  }

  // ----- and the reaper never recovers -----

  lemma StuckEffect(w: World, e: Effect, id: nat)
    requires RowsOk(w) && EffectOk(w, e) && Stuck(w, id) && !e.ReapOne?
    ensures Stuck(Apply(w, e), id) && Apply(w, e).db.jobs[id] == w.db.jobs[id]
    ensures HasDeadLetter(w.db.dead, id) ==> HasDeadLetter(Apply(w, e).db.dead, id)
  {
    var w' := Apply(w, e);
    if HasDeadLetter(w.db.dead, id) && e.FailOne? {
      DeadLetterOther(w.db.dead, w'.db.dead[|w.db.dead|], id);
    }
  }

  lemma {:induction false} StuckEffects(w: World, es: seq<Effect>, id: nat)
    requires Inv(w) && EffectsOk(w, es) && Stuck(w, id)
    requires forall e :: e in es ==> !e.ReapOne?
    ensures Stuck(ApplyAll(w, es), id) && ApplyAll(w, es).db.jobs[id] == w.db.jobs[id]
    ensures HasDeadLetter(w.db.dead, id) ==> HasDeadLetter(ApplyAll(w, es).db.dead, id)
    decreases |es|
  {
    if es != [] {
      assert es[0] in es;
      StuckEffect(w, es[0], id);
      InvEffect(w, es[0]);
      StuckEffects(Apply(w, es[0]), es[1..], id);
    }
  }

  /** Once one row is wedged, every later reap aborts, in every continuation; so every other
      claim that only the reaper could free stays running for ever too. */
  lemma {:induction false} ReaperWedgedForever(w: World, run: seq<Action>, wedge: nat, id: nat)
    requires Inv(w) && IsRun(w, run) && Wedged(w, wedge) && Stuck(w, id)
    ensures var end := After(w, run);
            && Wedged(end, wedge) && ReapBlocked(end.db, end.clock)
            && Stuck(end, id) && end.db.jobs[id] == w.db.jobs[id]
    decreases |run|
  {
    assert ReapBlocked(w.db, w.clock);
    if run != [] {
      var a := run[0];
      EnabledEffectsOk(w, a);
      NoReapEffects(w, a);
      StuckEffects(w, Effects(w, a), wedge);
      StuckEffects(w, Effects(w, a), id);
      InvNext(w, a);
      ReaperWedgedForever(Next(w, a), run[1..], wedge, id);
    }
  }

  // ----- what the reports make of it -----

  /** A job cannot leave a terminal state without an event that hits it there. */
  lemma {:induction false} RevivalIsHit(log: seq<Event>, id: nat, i: nat, k: nat)
    requires i <= k <= |log|
    requires Replay(log[..i], id).Some? && Terminal(Replay(log[..i], id).value.status)
    requires Replay(log[..k], id).Some? && !Terminal(Replay(log[..k], id).value.status)
    ensures TerminalHits(log[..k]) > 0
    decreases k - i
  {
    var before := Replay(log[..k - 1], id);
    assert log[..k][..k - 1] == log[..k - 1];
    if before.Some? && !Terminal(before.value.status) {
      RevivalIsHit(log, id, i, k - 1);
    } else if before.None? {
      StillLogged(log, id, i, k - 1);
    }
  }

  lemma {:induction false} StillLogged(log: seq<Event>, id: nat, i: nat, k: nat)
    requires i <= k <= |log| && Replay(log[..i], id).Some?
    ensures Replay(log[..k], id).Some?
    decreases k - i
  {
    if i < k {
      StillLogged(log, id, i, k - 1);
      assert log[..k][..k - 1] == log[..k - 1];
    }
  }

  /** Some run makes arrivals minus departures, and with them the backlog report, fall short of the live
      count for good: the same late retry does it. */
  lemma LateReportsSkewTheBacklog(clock: int, maxAttempts: int) returns (run: seq<Action>)
    requires maxAttempts >= 2
    ensures IsRun(Init(clock), run)
    ensures var db := After(Init(clock), run).db;
            TerminalHits(db.log) > 0 && NetLog(db.log) < |LiveJobs(db)|
  {
    var past, future := LateReportsBreakTheQueue(clock, maxAttempts);
    RunConcat(Init(clock), past, future);
    run := past + future;
    LogReplaysRows(clock, past);
    LogReplaysRows(clock, run);
    var early, late := After(Init(clock), past).db.log, After(Init(clock), run).db.log;
    LogExtends(After(Init(clock), past), future);
    assert late[..|early|] == early && late[..|late|] == late;
    RevivalIsHit(late, 0, |early|, |late|);
    NetAgainstLive(clock, run);
  }

  /** An outcome event carries the row's attempts, which are those of the reporting worker's claim exactly
      when the job has not been claimed again since. */
  lemma ReportAttribution(clock: int, run: seq<Action>, t: Ticket, result: HandlerResult)
    requires IsRun(Init(clock), run) && t in After(Init(clock), run).tickets
    requires Logs(After(Init(clock), run), ReportEffect(After(Init(clock), run), t, result))
    ensures var w := After(Init(clock), run);
            var log' := Next(w, Report(t, result)).db.log;
            && |log'| == |w.db.log| + 1 && log'[|w.db.log|].jobId == t.jobId
            && (log'[|w.db.log|].attempts == t.attempts <==> Claims(w.db.log, t.jobId) == t.attempts)
  {
    var w := After(Init(clock), run);
    TicketClaims(clock, run, t);
    OneEffect(w, ReportEffect(w, t, result));
    ReportLogsRow(w, ReportEffect(w, t, result));
  }

  lemma TicketClaims(clock: int, run: seq<Action>, t: Ticket)
    requires IsRun(Init(clock), run) && t in After(Init(clock), run).tickets
    ensures var w := After(Init(clock), run);
            t.jobId in w.db.jobs && Claims(w.db.log, t.jobId) == w.db.jobs[t.jobId].attempts
  {
    EveryRun(clock, run);
    assert TicketOk(After(Init(clock), run), t);
    assert BoundOk(After(Init(clock), run), t.jobId);
  }

  lemma ReportLogsRow(w: World, e: Effect)
    requires EffectOk(w, e) && IsReportEffect(e)
    ensures var log' := Apply(w, e).db.log;
            && |log'| == |w.db.log| + 1
            && log'[|w.db.log|].jobId == e.t.jobId && log'[|w.db.log|].attempts == w.db.jobs[e.t.jobId].attempts
  {
  }

  /** A completion that comes late is logged under the attempt that replaced it. */
  lemma LateCompletionIsMisattributed(clock: int, maxAttempts: int) returns (run: seq<Action>, t: Ticket)
    requires maxAttempts >= 2
    ensures IsRun(Init(clock), run) && t in After(Init(clock), run).tickets && t.attempts == 1
    ensures var w := After(Init(clock), run);
            var log' := Next(w, Report(t, Success)).db.log;
            && |log'| == |w.db.log| + 1
            && log'[|w.db.log|].kind == EventCompleted && log'[|w.db.log|].attempts == 2
  {
    DoEnqueue(clock, maxAttempts);
    var w0 := Next(Init(clock), EnqueueIt(maxAttempts));
    OneStep(Init(clock), EnqueueIt(maxAttempts));
    var first := ReapRound(w0, 0, maxAttempts);
    var w1 := After(w0, first);
    assert HasTicket(w1, 1, maxAttempts);
    t :| t in w1.tickets && t.jobId == 0 && t.attempts == 1 && t.maxAttempts == maxAttempts;
    DoClaim(w1, 1, maxAttempts);
    OneStep(w1, ClaimIt(w1));
    RunConcat(w0, first, [ClaimIt(w1)]);
    RunConcat(Init(clock), [EnqueueIt(maxAttempts)], first + [ClaimIt(w1)]);
    run := [EnqueueIt(maxAttempts)] + (first + [ClaimIt(w1)]);
    OneEffect(After(Init(clock), run), CompleteOne(t));
  }

  lemma NoReapEffects(w: World, a: Action)
    requires ReapBlocked(w.db, w.clock)
    ensures forall e :: e in Effects(w, a) ==> !e.ReapOne?
  {
    match a
    case Claim(worker, at, lease, _, _, chosen) => ClaimEffectsAreClaims(worker, at, lease, chosen);
    case _ =>
  }
}
