/** What can still happen after a run, exactly. A terminal row is final, a terminal job comes back to the queue,
    and a blocked reaper recovers, each if and only if the tickets still out allow it. */
module Recovery {
  import opened Jobs
  import opened Statements
  import opened Runs
  import opened Invariants
  import opened LateReports

  /** A worker that claimed job `id` has not reported yet. */
  ghost predicate Outstanding(w: World, id: nat) {
    exists t :: t in w.tickets && t.jobId == id
  }

  /** One that was not on the job's last attempt: it may ask for a retry. */
  ghost predicate MayRetry(w: World, id: nat) {
    exists t :: t in w.tickets && t.jobId == id && t.attempts < t.maxAttempts
  }

  // ----- when a terminal row is final -----

  ghost predicate Settled(w: World, id: nat, row: Row) {
    id in w.db.jobs && w.db.jobs[id] == row && Terminal(row.status) && !Outstanding(w, id)
  }

  lemma SettledEffect(w: World, e: Effect, id: nat, row: Row)
    requires RowsOk(w) && EffectOk(w, e) && Settled(w, id, row)
    ensures Settled(Apply(w, e), id, row)
  {
  }

  lemma {:induction false} SettledEffects(w: World, es: seq<Effect>, id: nat, row: Row)
    requires RowsOk(w) && EffectsOk(w, es) && Settled(w, id, row)
    ensures Settled(ApplyAll(w, es), id, row)
    decreases |es|
  {
    if es != [] {
      SettledEffect(w, es[0], id, row);
      KeepsRows(w, es[0]);
      SettledEffects(Apply(w, es[0]), es[1..], id, row);
    }
  }

  lemma {:induction false} SettledForever(w: World, run: seq<Action>, id: nat, row: Row)
    requires Inv(w) && IsRun(w, run) && Settled(w, id, row)
    ensures Settled(After(w, run), id, row)
    decreases |run|
  {
    if run != [] {
      EnabledEffectsOk(w, run[0]);
      SettledEffects(w, Effects(w, run[0]), id, row);
      InvNext(w, run[0]);
      SettledForever(Next(w, run[0]), run[1..], id, row);
    }
  }

  /** A late `Complete` rewrites any row: the status of a failed one, the completion time of a completed one. */
  lemma LateCompleteRewrites(w: World, t: Ticket) returns (future: seq<Action>)
    requires t in w.tickets && t.jobId in w.db.jobs
    ensures IsRun(w, future) && t.jobId in After(w, future).db.jobs
    ensures After(w, future).db.jobs[t.jobId] != w.db.jobs[t.jobId]
  {
    var dt := if w.db.jobs[t.jobId].completedAt == Some(w.clock) then 1 else 0;
    TickOnly(w, dt);
    var w1 := Next(w, Tick(dt));
    OneEffect(w1, CompleteOne(t));
    TwoSteps(w, Tick(dt), Report(t, Success));
    future := [Tick(dt), Report(t, Success)];
  }

  ghost predicate Keeps(w: World, future: seq<Action>, id: nat) {
    IsRun(w, future) && id in w.db.jobs ==>
      id in After(w, future).db.jobs && After(w, future).db.jobs[id] == w.db.jobs[id]
  }

  /** After every run: a terminal row stays as it is in every continuation if and only if no worker still holds a
      ticket of that job. */
  lemma AbsorptionExact(clock: int, past: seq<Action>, id: nat)
    requires IsRun(Init(clock), past)
    requires id in After(Init(clock), past).db.jobs && Terminal(After(Init(clock), past).db.jobs[id].status)
    ensures var w := After(Init(clock), past);
            (forall future :: Keeps(w, future, id)) <==> !Outstanding(w, id)
  {
    var w := After(Init(clock), past);
    InvInit(clock);
    InvRun(Init(clock), past);
    if Outstanding(w, id) {
      var t :| t in w.tickets && t.jobId == id;
      var future := LateCompleteRewrites(w, t);
      assert !Keeps(w, future, id);
    } else {
      forall future ensures Keeps(w, future, id) {
        if IsRun(w, future) { SettledForever(w, future, id, w.db.jobs[id]); }
      }
    }
  }

  // ----- when a terminal job can come back -----

  ghost predicate Done(w: World, id: nat) {
    id in w.db.jobs && Terminal(w.db.jobs[id].status) && !MayRetry(w, id)
  }

  lemma DoneEffect(w: World, e: Effect, id: nat)
    requires RowsOk(w) && EffectOk(w, e) && Done(w, id)
    ensures Done(Apply(w, e), id)
  {
  }

  lemma {:induction false} DoneEffects(w: World, es: seq<Effect>, id: nat)
    requires RowsOk(w) && EffectsOk(w, es) && Done(w, id)
    ensures Done(ApplyAll(w, es), id)
    decreases |es|
  {
    if es != [] {
      DoneEffect(w, es[0], id);
      KeepsRows(w, es[0]);
      DoneEffects(Apply(w, es[0]), es[1..], id);
    }
  }

  lemma {:induction false} DoneForever(w: World, run: seq<Action>, id: nat)
    requires Inv(w) && IsRun(w, run) && Done(w, id)
    ensures Done(After(w, run), id)
    decreases |run|
  {
    if run != [] {
      EnabledEffectsOk(w, run[0]);
      DoneEffects(w, Effects(w, run[0]), id);
      InvNext(w, run[0]);
      DoneForever(Next(w, run[0]), run[1..], id);
    }
  }

  ghost predicate Revives(w: World, future: seq<Action>, id: nat) {
    IsRun(w, future) && id in After(w, future).db.jobs && !Terminal(After(w, future).db.jobs[id].status)
  }

  /** After every run: a completed or failed job can come back to life if and only if some worker that was not
      on its last attempt still holds a ticket of it. */
  lemma RevivalExact(clock: int, past: seq<Action>, id: nat)
    requires IsRun(Init(clock), past)
    requires id in After(Init(clock), past).db.jobs && Terminal(After(Init(clock), past).db.jobs[id].status)
    ensures var w := After(Init(clock), past);
            (exists future :: Revives(w, future, id)) <==> MayRetry(w, id)
  {
    var w := After(Init(clock), past);
    InvInit(clock);
    InvRun(Init(clock), past);
    if MayRetry(w, id) {
      var t :| t in w.tickets && t.jobId == id && t.attempts < t.maxAttempts;
      var a := Report(t, Error("boom", w.clock));
      OneEffect(w, RetryOne(t, w.clock, "boom"));
      OneStep(w, a);
      assert Revives(w, [a], id);
    } else {
      forall future ensures !Revives(w, future, id) {
        if IsRun(w, future) { DoneForever(w, future, id); }
      }
    }
  }

  // ----- a failed job completed, for every max_attempts -----

  lemma DoBury(w: World, attempts: nat, maxAttempts: int)
    requires Single(w, StatusRunning, attempts, maxAttempts) && attempts >= maxAttempts
    requires Expired(w.db.jobs[0], w.clock) && w.db.dead == []
    ensures Enabled(w, Reap([0]))
    ensures var w' := Next(w, Reap([0]));
            && Single(w', StatusFailed, attempts, maxAttempts)
            && w'.clock == w.clock && w'.tickets == w.tickets && HasDeadLetter(w'.db.dead, 0)
  {
    OneEffect(w, ReapOne(0));
    EnabledEffectsOk(w, Reap([0]));
    assert [0][1..] == [];
    assert ReapEffects([0]) == [ReapOne(0)];
    assert !ReapBlocked(w.db, w.clock);
    assert Apply(w, ReapOne(0)).db.dead[0].jobId == 0;
  }

  /** From the last attempt on: claimed, reaped as failed, its worker still out. */
  lemma BuryRound(w: World, maxAttempts: int) returns (run: seq<Action>, t: Ticket)
    requires maxAttempts >= 1 && Single(w, StatusQueued, maxAttempts - 1, maxAttempts) && w.db.dead == []
    ensures IsRun(w, run)
    ensures Single(After(w, run), StatusFailed, maxAttempts, maxAttempts)
    ensures t in After(w, run).tickets && t.jobId == 0 && HasDeadLetter(After(w, run).db.dead, 0)
  {
    t := Ticket(0, maxAttempts, maxAttempts, w.clock + LEASE);
    DoClaim(w, maxAttempts - 1, maxAttempts);
    var w1 := Next(w, ClaimIt(w));
    TickOnly(w1, LEASE + 1);
    var w2 := Next(w1, Tick(LEASE + 1));
    DoBury(w2, maxAttempts, maxAttempts);
    OneStep(w, ClaimIt(w));
    TwoSteps(w1, Tick(LEASE + 1), Reap([0]));
    RunConcat(w, [ClaimIt(w)], [Tick(LEASE + 1), Reap([0])]);
    run := [ClaimIt(w)] + [Tick(LEASE + 1), Reap([0])];
  }

  /** For every max_attempts, one included, some run completes a job that had failed: its dead letter stays. */
  lemma LateCompleteOverridesFailure(clock: int, maxAttempts: int) returns (past: seq<Action>, t: Ticket)
    requires maxAttempts >= 1
    ensures IsRun(Init(clock), past) && t in After(Init(clock), past).tickets && t.jobId == 0
    ensures var w := After(Init(clock), past);
            && 0 in w.db.jobs && w.db.jobs[0].status == StatusFailed && w.db.jobs[0].maxAttempts == maxAttempts
            && HasDeadLetter(w.db.dead, 0)
            && var w' := Next(w, Report(t, Success));
               && 0 in w'.db.jobs && w'.db.jobs[0].status == StatusCompleted && HasDeadLetter(w'.db.dead, 0)
  {
    DoEnqueue(clock, maxAttempts);
    var w0 := Next(Init(clock), EnqueueIt(maxAttempts));
    OneStep(Init(clock), EnqueueIt(maxAttempts));
    var reaps := ReapRounds(w0, 0, maxAttempts);
    var w1 := After(w0, reaps);
    var buries, ticket := BuryRound(w1, maxAttempts);
    t := ticket;
    RunConcat(w0, reaps, buries);
    RunConcat(Init(clock), [EnqueueIt(maxAttempts)], reaps + buries);
    past := [EnqueueIt(maxAttempts)] + (reaps + buries);
    OneEffect(After(Init(clock), past), CompleteOne(t));
  }

  // ----- when a blocked reaper recovers -----

  ghost function Blocking(w: World): set<nat> {
    set id | id in w.db.jobs && Expired(w.db.jobs[id], w.clock) && Exhausted(w.db.jobs[id]) &&
             HasDeadLetter(w.db.dead, id)
  }

  /** A worker of every blocking row reports success: each report takes one row out of the reaper's way. */
  lemma {:induction false} Unblock(w: World) returns (run: seq<Action>)
    requires forall id :: id in Blocking(w) ==> Outstanding(w, id)
    ensures IsRun(w, run) && !ReapBlocked(After(w, run).db, After(w, run).clock)
    decreases |Blocking(w)|
  {
    if !ReapBlocked(w.db, w.clock) {
      run := [];
    } else {
      var id :| id in w.db.jobs && Expired(w.db.jobs[id], w.clock) && Exhausted(w.db.jobs[id]) &&
                HasDeadLetter(w.db.dead, id);
      assert id in Blocking(w);
      assert Outstanding(w, id);
      var t :| t in w.tickets && t.jobId == id;
      OneEffect(w, CompleteOne(t));
      OneStep(w, Report(t, Success));
      var w1 := Next(w, Report(t, Success));
      assert Blocking(w1) == Blocking(w) - {id};
      forall k | k in Blocking(w1) ensures Outstanding(w1, k) {
        assert Outstanding(w, k);
        var u :| u in w.tickets && u.jobId == k;
        assert u in w1.tickets;
      }
      var rest := Unblock(w1);
      RunConcat(w, [Report(t, Success)], rest);
      run := [Report(t, Success)] + rest;
    }
  }

  ghost predicate SomeWedged(w: World) {
    exists id :: Wedged(w, id)
  }

  lemma UnblockUnwedged(w: World) returns (run: seq<Action>)
    requires !SomeWedged(w)
    ensures IsRun(w, run) && !ReapBlocked(After(w, run).db, After(w, run).clock)
  {
    forall id | id in Blocking(w) ensures Outstanding(w, id) {
      assert !Wedged(w, id);
    }
    run := Unblock(w);
  }

  ghost predicate StillBlocked(w: World, future: seq<Action>) {
    IsRun(w, future) ==> ReapBlocked(After(w, future).db, After(w, future).clock)
  }

  /** After every run: the reaper aborts in every continuation if and only if some row is wedged, that is, blocks
      it and has no worker left that could still report. */
  lemma WedgeExact(clock: int, past: seq<Action>)
    requires IsRun(Init(clock), past)
    ensures var w := After(Init(clock), past);
            (forall future :: StillBlocked(w, future)) <==> SomeWedged(w)
  {
    var w := After(Init(clock), past);
    InvInit(clock);
    InvRun(Init(clock), past);
    if SomeWedged(w) {
      var wedge :| Wedged(w, wedge);
      forall future ensures StillBlocked(w, future) {
        if IsRun(w, future) { ReaperWedgedForever(w, future, wedge, wedge); }
      }
    } else {
      var future := UnblockUnwedged(w);
      assert !StillBlocked(w, future);
    }
  }
}
