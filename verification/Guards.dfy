/** What each missing guard costs. The outcome statements match a row by id alone, so what a property of the
    tables needs is a condition on the reports. For each of four properties that disciplined runs have, the
    weakest such condition: the property holds in all states of a run if and only if every report meets it. */
module Guards {
  import opened Jobs
  import opened Statements
  import opened Runs
  import opened EventLog
  import opened Invariants
  import opened Fencing

  /** Every state of the run has the property. */
  ghost predicate Always(P: World -> bool, w: World, run: seq<Action>)
    requires IsRun(w, run)
    decreases |run|
  {
    P(w) && (run == [] || Always(P, Next(w, run[0]), run[1..]))
  }

  /** Every report of the run that touches a row does so under the guard. */
  ghost predicate Guarded(G: (World, Effect) -> bool, w: World, run: seq<Action>)
    requires IsRun(w, run)
    decreases |run|
  {
    run == [] || (GuardedStep(G, w, run[0]) && Guarded(G, Next(w, run[0]), run[1..]))
  }

  ghost predicate GuardedStep(G: (World, Effect) -> bool, w: World, a: Action) {
    a.Report? ==> GuardedEffect(G, w, ReportEffect(w, a.t, a.result))
  }

  ghost predicate GuardedEffect(G: (World, Effect) -> bool, w: World, e: Effect) {
    IsReportEffect(e) ==> G(w, e)
  }

  /** Effect by effect, the guard is what keeps the property. */
  ghost predicate Decides(G: (World, Effect) -> bool, P: World -> bool) {
    forall w, e :: Inv(w) && P(w) && EffectOk(w, e) ==> (P(Apply(w, e)) <==> GuardedEffect(G, w, e))
  }

  lemma {:induction false} UnreportedKeep(G: (World, Effect) -> bool, P: World -> bool, w: World, es: seq<Effect>)
    requires Decides(G, P) && Inv(w) && P(w) && EffectsOk(w, es) && forall e :: e in es ==> !IsReportEffect(e)
    ensures P(ApplyAll(w, es))
    decreases |es|
  {
    if es != [] {
      assert !IsReportEffect(es[0]);
      assert GuardedEffect(G, w, es[0]);
      InvEffect(w, es[0]);
      UnreportedKeep(G, P, Apply(w, es[0]), es[1..]);
    }
  }

  lemma StepDecides(G: (World, Effect) -> bool, P: World -> bool, w: World, a: Action)
    requires Decides(G, P) && Inv(w) && P(w) && Enabled(w, a)
    ensures P(Next(w, a)) <==> GuardedStep(G, w, a)
  {
    EnabledEffectsOk(w, a);
    if a.Report? {
      var e := ReportEffect(w, a.t, a.result);
      OneEffect(w, e);
      assert P(Apply(w, e)) <==> GuardedEffect(G, w, e);
    } else {
      OnlyReportsReport(w, a);
      UnreportedKeep(G, P, w, Effects(w, a));
    }
  }

  lemma {:induction false} RunDecides(G: (World, Effect) -> bool, P: World -> bool, w: World, run: seq<Action>)
    requires Decides(G, P) && Inv(w) && P(w) && IsRun(w, run)
    ensures Always(P, w, run) <==> Guarded(G, w, run)
    decreases |run|
  {
    if run != [] {
      StepDecides(G, P, w, run[0]);
      if P(Next(w, run[0])) {
        InvNext(w, run[0]);
        RunDecides(G, P, Next(w, run[0]), run[1..]);
      }
    }
  }

  // ----- attempts within max_attempts -----

  ghost predicate WithinAttempts(w: World) {
    forall id :: id in w.db.jobs ==>
      && w.db.jobs[id].attempts <= w.db.jobs[id].maxAttempts
      && (w.db.jobs[id].status == StatusQueued ==> w.db.jobs[id].attempts < w.db.jobs[id].maxAttempts)
  }

  /** A retry finds attempts left on the row, not only on its ticket. */
  ghost predicate RetryFindsAttemptsLeft(w: World, e: Effect) {
    e.RetryOne? && e.t.jobId in w.db.jobs ==> !Exhausted(w.db.jobs[e.t.jobId])
  }

  lemma WithinEffect(w: World, e: Effect)
    requires Inv(w) && WithinAttempts(w) && EffectOk(w, e)
    ensures WithinAttempts(Apply(w, e)) <==> GuardedEffect(RetryFindsAttemptsLeft, w, e)
  {
    var w' := Apply(w, e);
    if e.RetryOne? { assert w'.db.jobs[e.t.jobId].status == StatusQueued; }
  }

  ghost predicate WithinAndFull(w: World) {
    WithinAttempts(w) && LettersFull(w)
  }

  lemma WithinAndFullEffect(w: World, e: Effect)
    requires Inv(w) && WithinAndFull(w) && EffectOk(w, e)
    ensures WithinAndFull(Apply(w, e)) <==> GuardedEffect(RetryFindsAttemptsLeft, w, e)
  {
    WithinEffect(w, e);
    if e.FailOne? { assert TicketOk(w, e.t); }
    KeepsLetters(w, e);
  }

  /** In every run: attempts stay within max_attempts, and below it in the queue, in all states if and only if no
      retry sends back a row that is out of attempts. Every dead letter then counts max_attempts attempts. */
  lemma AttemptsWithinExact(clock: int, run: seq<Action>)
    requires IsRun(Init(clock), run)
    ensures Always(WithinAttempts, Init(clock), run) <==> Guarded(RetryFindsAttemptsLeft, Init(clock), run)
    ensures Guarded(RetryFindsAttemptsLeft, Init(clock), run) ==> LettersFull(After(Init(clock), run))
  {
    InvInit(clock);
    forall w, e | Inv(w) && WithinAttempts(w) && EffectOk(w, e)
      ensures WithinAttempts(Apply(w, e)) <==> GuardedEffect(RetryFindsAttemptsLeft, w, e)
    {
      WithinEffect(w, e);
    }
    RunDecides(RetryFindsAttemptsLeft, WithinAttempts, Init(clock), run);
    if Guarded(RetryFindsAttemptsLeft, Init(clock), run) { LettersFullAtEnd(clock, run); }
  }

  lemma LettersFullAtEnd(clock: int, run: seq<Action>)
    requires IsRun(Init(clock), run) && Guarded(RetryFindsAttemptsLeft, Init(clock), run)
    ensures LettersFull(After(Init(clock), run))
  {
    InvInit(clock);
    forall w, e | Inv(w) && WithinAndFull(w) && EffectOk(w, e)
      ensures WithinAndFull(Apply(w, e)) <==> GuardedEffect(RetryFindsAttemptsLeft, w, e)
    {
      WithinAndFullEffect(w, e);
    }
    RunDecides(RetryFindsAttemptsLeft, WithinAndFull, Init(clock), run);
    AlwaysAtEnd(WithinAndFull, Init(clock), run);
  }

  // ----- dead letters exactly for failed jobs -----

  ghost predicate LettersMatch(w: World) {
    && (forall i :: 0 <= i < |w.db.dead| ==>
          w.db.dead[i].jobId in w.db.jobs && w.db.jobs[w.db.dead[i].jobId].status == StatusFailed)
    && (forall id :: id in w.db.jobs && w.db.jobs[id].status == StatusFailed ==> HasDeadLetter(w.db.dead, id))
  }

  /** A complete or a retry finds no dead letter. */
  ghost predicate FindsNoLetter(w: World, e: Effect) {
    e.CompleteOne? || e.RetryOne? ==> !HasDeadLetter(w.db.dead, e.t.jobId)
  }

  lemma LettersEffect(w: World, e: Effect)
    requires Inv(w) && LettersMatch(w) && EffectOk(w, e)
    ensures LettersMatch(Apply(w, e)) <==> GuardedEffect(FindsNoLetter, w, e)
  {
    var w' := Apply(w, e);
    DeadGrows(w, e);
    if BuriesRow(w, e) {
      forall id: nat ensures HasDeadLetter(w'.db.dead, id) <==>
                             HasDeadLetter(w.db.dead, id) || w'.db.dead[|w.db.dead|].jobId == id {
        DeadLetterOther(w.db.dead, w'.db.dead[|w.db.dead|], id);
      }
    }
  }

  /** In every run: the dead letters are those of the failed jobs in all states if and only if no complete or retry
      hits a job that has one. No reap is then ever blocked. */
  lemma LettersMatchExact(clock: int, run: seq<Action>)
    requires IsRun(Init(clock), run)
    ensures Always(LettersMatch, Init(clock), run) <==> Guarded(FindsNoLetter, Init(clock), run)
    ensures Guarded(FindsNoLetter, Init(clock), run) ==>
              !ReapBlocked(After(Init(clock), run).db, After(Init(clock), run).clock)
  {
    InvInit(clock);
    forall w, e | Inv(w) && LettersMatch(w) && EffectOk(w, e)
      ensures LettersMatch(Apply(w, e)) <==> GuardedEffect(FindsNoLetter, w, e)
    {
      LettersEffect(w, e);
    }
    RunDecides(FindsNoLetter, LettersMatch, Init(clock), run);
    if Guarded(FindsNoLetter, Init(clock), run) { AlwaysAtEnd(LettersMatch, Init(clock), run); }
  }

  lemma {:induction false} AlwaysAtEnd(P: World -> bool, w: World, run: seq<Action>)
    requires IsRun(w, run) && Always(P, w, run)
    ensures P(After(w, run))
    decreases |run|
  {
    if run != [] { AlwaysAtEnd(P, Next(w, run[0]), run[1..]); }
  }

  // ----- a claim the reaper has not taken is the running row -----

  ghost predicate HoldersHold(w: World) {
    forall t :: t in w.tickets && Meets(Unreaped, w, t) ==> Holds(w, t)
  }

  /** No other worker's claim of that job is still standing. */
  ghost predicate FindsNoOtherHolder(w: World, e: Effect) {
    IsReportEffect(e) ==>
      forall u :: u in w.tickets && u.jobId == e.t.jobId && u != e.t ==> !Meets(Unreaped, w, u)
  }

  lemma HolderKept(w: World, e: Effect, t: Ticket)
    requires Inv(w) && HoldersHold(w) && EffectOk(w, e) && FindsNoOtherHolder(w, e)
    requires t in Apply(w, e).tickets && Meets(Unreaped, Apply(w, e), t)
    ensures Holds(Apply(w, e), t)
  {
    var w' := Apply(w, e);
    LogGrows(w, e);
    if Logs(w, e) {
      ReapedAtSnoc(w.db.log, w'.db.log[|w.db.log|], t.jobId, t.attempts);
    }
    if t in w.tickets { assert Holds(w, t); }
  }

  lemma HolderLost(w: World, e: Effect, u: Ticket)
    requires EffectOk(w, e) && IsReportEffect(e)
    requires u in w.tickets && u.jobId == e.t.jobId && u != e.t && Meets(Unreaped, w, u)
    ensures u in Apply(w, e).tickets && Meets(Unreaped, Apply(w, e), u) && !Holds(Apply(w, e), u)
  {
    var w' := Apply(w, e);
    LogGrows(w, e);
    ReapedAtSnoc(w.db.log, w'.db.log[|w.db.log|], u.jobId, u.attempts);
  }

  lemma HoldersEffect(w: World, e: Effect)
    requires Inv(w) && HoldersHold(w) && EffectOk(w, e)
    ensures HoldersHold(Apply(w, e)) <==> GuardedEffect(FindsNoOtherHolder, w, e)
  {
    if FindsNoOtherHolder(w, e) {
      forall t | t in Apply(w, e).tickets && Meets(Unreaped, Apply(w, e), t) ensures Holds(Apply(w, e), t) {
        HolderKept(w, e, t);
      }
    } else {
      var u :| u in w.tickets && u.jobId == e.t.jobId && u != e.t && Meets(Unreaped, w, u);
      HolderLost(w, e, u);
    }
  }

  /** In every run: a claim that the reaper has not taken back is its job's running row, hence the only one, in all
      states if and only if no report hits a job while another worker's claim of it stands. */
  lemma HoldersExact(clock: int, run: seq<Action>)
    requires IsRun(Init(clock), run)
    ensures Always(HoldersHold, Init(clock), run) <==> Guarded(FindsNoOtherHolder, Init(clock), run)
  {
    InvInit(clock);
    forall w, e | Inv(w) && HoldersHold(w) && EffectOk(w, e)
      ensures HoldersHold(Apply(w, e)) <==> GuardedEffect(FindsNoOtherHolder, w, e)
    {
      HoldersEffect(w, e);
    }
    RunDecides(FindsNoOtherHolder, HoldersHold, Init(clock), run);
  }

  // ----- the shape of histories -----

  ghost predicate ShapesOk(w: World) {
    forall id :: id in w.db.jobs ==> TraceOk(w, id)
  }

  /** The job is running, whoever claimed it, and a retry finds attempts left. */
  ghost predicate FindsItRunning(w: World, e: Effect) {
    IsReportEffect(e) && e.t.jobId in w.db.jobs ==>
      && w.db.jobs[e.t.jobId].status == StatusRunning
      && (e.RetryOne? ==> !Exhausted(w.db.jobs[e.t.jobId]))
  }

  lemma ShapeKept(w: World, e: Effect, id: nat)
    requires Inv(w) && ShapesOk(w) && EffectOk(w, e) && FindsItRunning(w, e)
    requires id in Apply(w, e).db.jobs
    ensures TraceOk(Apply(w, e), id)
  {
    var w' := Apply(w, e);
    LogGrows(w, e);
    if !Logs(w, e) {
      assert TraceOk(w, id);
    } else if w'.db.log[|w.db.log|].jobId != id {
      assert TraceOk(w, id);
      assert EventsOf(w'.db.log, id) == EventsOf(w.db.log, id);
    } else if e.Insert? {
      NewTrace(w, e);
    } else {
      if IsReportEffect(e) { assert TicketOk(w, e.t); }
      RunningEffectMoves(w, e);
      assert TraceOk(w, id);
      MovesTrace(w, w', id);
    }
  }

  lemma ShapeLost(w: World, e: Effect)
    requires ShapesOk(w) && EffectOk(w, e) && !FindsItRunning(w, e)
    ensures e.t.jobId in Apply(w, e).db.jobs && !TraceOk(Apply(w, e), e.t.jobId)
  {
    var w', id := Apply(w, e), e.t.jobId;
    LogGrows(w, e);
    var es, ev := EventsOf(w.db.log, id), w'.db.log[|w.db.log|];
    assert TraceOk(w, id);
    assert EventsOf(w'.db.log, id) == es + [ev];
    var all := es + [ev];
    assert all[|es|] == ev && IsOutcome(ev.kind);
    assert w.db.jobs[id].status != StatusRunning ==> |es| % 2 == 1;
  }

  lemma ShapesEffect(w: World, e: Effect)
    requires Inv(w) && ShapesOk(w) && EffectOk(w, e)
    ensures ShapesOk(Apply(w, e)) <==> GuardedEffect(FindsItRunning, w, e)
  {
    if FindsItRunning(w, e) {
      forall id | id in Apply(w, e).db.jobs ensures TraceOk(Apply(w, e), id) { ShapeKept(w, e, id); }
    } else {
      ShapeLost(w, e);
    }
  }

  /** In every run: all histories have the fixed shape in all states if and only if every report finds its job
      running, if only under a later claim, and every retry finds attempts left. */
  lemma ShapesExact(clock: int, run: seq<Action>)
    requires IsRun(Init(clock), run)
    ensures Always(ShapesOk, Init(clock), run) <==> Guarded(FindsItRunning, Init(clock), run)
  {
    InvInit(clock);
    forall w, e | Inv(w) && ShapesOk(w) && EffectOk(w, e)
      ensures ShapesOk(Apply(w, e)) <==> GuardedEffect(FindsItRunning, w, e)
    {
      ShapesEffect(w, e);
    }
    RunDecides(FindsItRunning, ShapesOk, Init(clock), run);
  }

  // ----- discipline implies all four -----

  lemma {:induction false} SafeAlways(P: World -> bool, w: World, run: seq<Action>)
    requires SafeInv(w) && IsRun(w, run) && ReportsMeet(Unreaped, w, run) && forall v :: SafeInv(v) ==> P(v)
    ensures Always(P, w, run)
    decreases |run|
  {
    if run != [] {
      SafeInvNext(w, run[0]);
      SafeAlways(P, Next(w, run[0]), run[1..]);
    }
  }

  lemma SafeIsWithin(w: World)
    requires SafeInv(w)
    ensures WithinAttempts(w)
  {
    forall id | id in w.db.jobs
      ensures w.db.jobs[id].attempts <= w.db.jobs[id].maxAttempts
      ensures w.db.jobs[id].status == StatusQueued ==> w.db.jobs[id].attempts < w.db.jobs[id].maxAttempts
    {
      assert TraceOk(w, id);
      ShapeBounds(EventsOf(w.db.log, id), w.db.jobs[id].maxAttempts);
    }
  }

  lemma SafeMatchesLetters(w: World)
    requires SafeInv(w)
    ensures LettersMatch(w)
  {
    forall i | 0 <= i < |w.db.dead|
      ensures w.db.dead[i].jobId in w.db.jobs && w.db.jobs[w.db.dead[i].jobId].status == StatusFailed
    {
      assert HasDeadLetter(w.db.dead, w.db.dead[i].jobId) && DeadOk(w, w.db.dead[i].jobId);
    }
    forall id | id in w.db.jobs && w.db.jobs[id].status == StatusFailed ensures HasDeadLetter(w.db.dead, id) {
      assert DeadOk(w, id);
    }
  }

  /** A disciplined run meets all four guards. */
  lemma DisciplineMeetsGuards(d: Discipline, clock: int, run: seq<Action>)
    requires IsRun(Init(clock), run) && ReportsMeet(d, Init(clock), run)
    ensures Guarded(RetryFindsAttemptsLeft, Init(clock), run) && Guarded(FindsNoLetter, Init(clock), run)
    ensures Guarded(FindsNoOtherHolder, Init(clock), run) && Guarded(FindsItRunning, Init(clock), run)
  {
    SafeInvInit(clock);
    DisciplineIsUnreaped(d, Init(clock), run);
    forall w | SafeInv(w) ensures WithinAttempts(w) && LettersMatch(w) && HoldersHold(w) && ShapesOk(w) {
      SafeIsWithin(w);
      SafeMatchesLetters(w);
    }
    SafeAlways(WithinAttempts, Init(clock), run);
    SafeAlways(LettersMatch, Init(clock), run);
    SafeAlways(HoldersHold, Init(clock), run);
    SafeAlways(ShapesOk, Init(clock), run);
    AttemptsWithinExact(clock, run);
    LettersMatchExact(clock, run);
    HoldersExact(clock, run);
    ShapesExact(clock, run);
  }
}
