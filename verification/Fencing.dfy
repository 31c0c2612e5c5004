/** Runs in which every worker reports before the reaper takes its claim away. The outcome
    statements match a row by id only, so nothing in them stops a late worker; what does is
    the lease: a report no later than `lease_expires_at` cannot have been reaped. In such runs
    a report always finds its own claim, terminal rows stay as they are, and
    each job's history has one fixed shape. */
module Fencing {
  import opened Jobs
  import opened Statements
  import opened Runs
  import opened EventLog
  import opened Invariants

  /** What a report may be required to meet when it happens. */
  datatype Discipline =
    | Timely    // no later than the lease of its claim
    | Unreaped  // the reaper has not taken the claim away
    | Fenced    // the row is still running, at the attempt and under the lease that was claimed

  ghost predicate Meets(d: Discipline, w: World, t: Ticket) {
    match d
    case Timely => w.clock <= t.expiry
    case Unreaped => !ReapedAt(w.db.log, t.jobId, t.attempts)
    case Fenced => Holds(w, t) && w.db.jobs[t.jobId].leaseExpiresAt == Some(t.expiry)
  }

  /** Every report of the run meets `d`. */
  ghost predicate ReportsMeet(d: Discipline, w: World, run: seq<Action>)
    requires IsRun(w, run)
    decreases |run|
  {
    run == [] ||
    ((run[0].Report? ==> Meets(d, w, run[0].t)) && ReportsMeet(d, Next(w, run[0]), run[1..]))
  }

  lemma {:induction false} NoReportsMeet(d: Discipline, w: World, run: seq<Action>)
    requires IsRun(w, run) && forall a :: a in run ==> !a.Report?
    ensures ReportsMeet(d, w, run)
    decreases |run|
  {
    if run != [] {
      assert run[0] in run;
      NoReportsMeet(d, Next(w, run[0]), run[1..]);
    }
  }

  lemma {:induction false} MeetConcat(d: Discipline, w: World, first: seq<Action>, second: seq<Action>)
    requires IsRun(w, first) && IsRun(After(w, first), second) && IsRun(w, first + second)
    requires ReportsMeet(d, w, first) && ReportsMeet(d, After(w, first), second)
    ensures ReportsMeet(d, w, first + second)
    decreases |first|
  {
    if first == [] {
      assert first + second == second;
    } else {
      assert (first + second)[1..] == first[1..] + second;
      MeetConcat(d, Next(w, first[0]), first[1..], second);
    }
  }

  // ----- the shape of one job's history -----

  ghost predicate IsOutcome(kind: EventKind) {
    IsRequeue(kind) || IsDeparture(kind)
  }

  /** enqueued, then rounds of claimed and outcome; only the last outcome may end the job. The
      i-th round is attempt i, in both of its events. */
  ghost predicate TraceShape(es: seq<Event>, maxAttempts: int) {
    && 1 <= |es| <= 2 * maxAttempts + 1
    && es[0].kind == EventEnqueued
    && (forall i :: 0 <= i < |es| ==> es[i].attempts == (i + 1) / 2)
    && (forall i :: 1 <= i < |es| && i % 2 == 1 ==> es[i].kind == EventClaimed)
    && (forall i :: 1 <= i < |es| && i % 2 == 0 ==> IsOutcome(es[i].kind))
    && (forall i :: 1 <= i < |es| - 1 && i % 2 == 0 ==> IsRequeue(es[i].kind))
    && (forall i :: 1 <= i < |es| && IsRequeue(es[i].kind) ==> es[i].attempts < maxAttempts)
    && (forall i :: 1 <= i < |es| && es[i].kind in {EventFailed, EventReapedFailed} ==> es[i].attempts == maxAttempts)
  }

  /** The status a history of that shape leaves the row in. */
  ghost function StatusOf(es: seq<Event>): Status
    requires |es| >= 1
  {
    if |es| % 2 == 0 then StatusRunning
    else
      var last := es[|es| - 1].kind;
      if last == EventCompleted then StatusCompleted
      else if last == EventFailed || last == EventReapedFailed then StatusFailed
      else StatusQueued
  }

  ghost predicate TraceOk(w: World, id: nat)
    requires id in w.db.jobs
  {
    var es := EventsOf(w.db.log, id);
    var r := w.db.jobs[id];
    TraceShape(es, r.maxAttempts) && r.status == StatusOf(es) && r.attempts == |es| / 2
  }

  ghost predicate DeadOk(w: World, id: nat)
    requires id in w.db.jobs
  {
    HasDeadLetter(w.db.dead, id) <==> w.db.jobs[id].status == StatusFailed
  }

  ghost predicate LettersFull(w: World) {
    forall i :: 0 <= i < |w.db.dead| ==>
      w.db.dead[i].jobId in w.db.jobs && w.db.dead[i].attempts == w.db.jobs[w.db.dead[i].jobId].maxAttempts
  }

  ghost predicate SafeInv(w: World) {
    && Inv(w)
    && (forall t :: t in w.tickets && Meets(Unreaped, w, t) ==> Holds(w, t))
    && (forall id :: id in w.db.jobs ==> TraceOk(w, id))
    && (forall id :: id in w.db.jobs ==> DeadOk(w, id))
    && LettersFull(w)
  }

  // ----- effects of disciplined reports keep it -----

  ghost predicate IsReportEffect(e: Effect) {
    e.CompleteOne? || e.RetryOne? || e.FailOne?
  }

  ghost predicate SafeEffect(w: World, e: Effect) {
    IsReportEffect(e) ==> Meets(Unreaped, w, e.t)
  }

  lemma ReportsOwnRow(w: World, e: Effect)
    requires SafeInv(w) && EffectOk(w, e) && SafeEffect(w, e)
    requires IsReportEffect(e)
    ensures Meets(Fenced, w, e.t)
    ensures e.t.maxAttempts == w.db.jobs[e.t.jobId].maxAttempts
  {
    assert TicketOk(w, e.t);
  }

  lemma KeepsFenced(w: World, e: Effect, t: Ticket)
    requires SafeInv(w) && EffectOk(w, e) && SafeEffect(w, e)
    requires t in Apply(w, e).tickets && Meets(Unreaped, Apply(w, e), t)
    ensures Holds(Apply(w, e), t)
  {
    var w' := Apply(w, e);
    LogGrows(w, e);
    if Logs(w, e) {
      ReapedAtSnoc(w.db.log, w'.db.log[|w.db.log|], t.jobId, t.attempts);
    }
    if t in w.tickets {
      assert Holds(w, t);
      if IsReportEffect(e) {
        ReportsOwnRow(w, e);
      }
    }
  }

  /** A disciplined effect claims a queued row or ends the attempt of a running one. */
  ghost predicate Moves(before: Row, after: Row, ev: Event) {
    && after.maxAttempts == before.maxAttempts && after.attempts == ev.attempts
    && if ev.kind == EventClaimed
       then && before.status == StatusQueued && after.status == StatusRunning
            && after.attempts == before.attempts + 1
       else && before.status == StatusRunning && after.attempts == before.attempts && IsOutcome(ev.kind)
            && (IsRequeue(ev.kind) ==> after.status == StatusQueued && after.attempts < after.maxAttempts)
            && (ev.kind == EventCompleted ==> after.status == StatusCompleted)
            && (ev.kind in {EventFailed, EventReapedFailed} ==>
                  after.status == StatusFailed && after.attempts >= after.maxAttempts)
  }

  lemma EffectMoves(w: World, e: Effect)
    requires SafeInv(w) && EffectOk(w, e) && SafeEffect(w, e) && Logs(w, e) && !e.Insert?
    ensures var ev := Apply(w, e).db.log[|w.db.log|];
            ev.jobId in w.db.jobs && Moves(w.db.jobs[ev.jobId], Apply(w, e).db.jobs[ev.jobId], ev)
  {
    if IsReportEffect(e) {
      ReportsOwnRow(w, e);
    }
    RunningEffectMoves(w, e);
  }

  lemma RunningEffectMoves(w: World, e: Effect)
    requires EffectOk(w, e) && Logs(w, e) && !e.Insert?
    requires IsReportEffect(e) ==>
               && w.db.jobs[e.t.jobId].status == StatusRunning
               && (e.RetryOne? ==> !Exhausted(w.db.jobs[e.t.jobId]))
               && (e.FailOne? ==> Exhausted(w.db.jobs[e.t.jobId]))
    ensures var ev := Apply(w, e).db.log[|w.db.log|];
            ev.jobId in w.db.jobs && Moves(w.db.jobs[ev.jobId], Apply(w, e).db.jobs[ev.jobId], ev)
  {
    var log' := Apply(w, e).db.log;
    assert log' == w.db.log + [log'[|w.db.log|]];
  }

  lemma KeepsTrace(w: World, e: Effect, id: nat)
    requires SafeInv(w) && EffectOk(w, e) && SafeEffect(w, e)
    requires id in Apply(w, e).db.jobs
    ensures TraceOk(Apply(w, e), id)
  {
    var w' := Apply(w, e);
    LogGrows(w, e);
    if !Logs(w, e) {
      assert TraceOk(w, id);
    } else if w'.db.log[|w.db.log|].jobId != id {
      assert TraceOk(w, id);
      assert EventsOf(w'.db.log, id) == EventsOf(w.db.log, id);
    } else if e.Insert? {
      NewTrace(w, e);
    } else {
      EffectMoves(w, e);
      MovesTrace(w, w', id);
    }
  }

  lemma NewTrace(w: World, e: Effect)
    requires Inv(w) && EffectOk(w, e) && e.Insert?
    ensures TraceOk(Apply(w, e), e.id)
  {
    var log' := Apply(w, e).db.log;
    NoEvents(w, e.id);
    assert log'[..|w.db.log|] == w.db.log;
    assert EventsOf(log', e.id) == [log'[|w.db.log|]];
  }

  lemma MovesTrace(w: World, w': World, id: nat)
    requires id in w.db.jobs && id in w'.db.jobs && TraceOk(w, id) && w.db.jobs[id].maxAttempts >= 1
    requires |w'.db.log| == |w.db.log| + 1 && w'.db.log[..|w.db.log|] == w.db.log
    requires w'.db.log[|w.db.log|].jobId == id && Moves(w.db.jobs[id], w'.db.jobs[id], w'.db.log[|w.db.log|])
    ensures TraceOk(w', id)
  {
    var es := EventsOf(w.db.log, id);
    var ev := w'.db.log[|w.db.log|];
    assert EventsOf(w'.db.log, id) == es + [ev];
    ExtendTrace(es, ev, w.db.jobs[id].maxAttempts);
  }

  lemma {:induction false} NoEventsIn(log: seq<Event>, id: nat)
    requires Replay(log, id) == None
    requires forall i :: 0 <= i < |log| ==> Replay(log[..i + 1], log[i].jobId).Some?
    ensures EventsOf(log, id) == []
    decreases |log|
  {
    if log != [] {
      var n := |log| - 1;
      assert log[..n + 1] == log;
      assert log[n].jobId != id;
      forall i | 0 <= i < n ensures Replay(log[..n][..i + 1], log[..n][i].jobId).Some? {
        assert log[..n][..i + 1] == log[..i + 1];
      }
      NoEventsIn(log[..n], id);
    }
  }

  lemma NoEvents(w: World, id: nat)
    requires Inv(w) && id !in w.db.jobs
    ensures EventsOf(w.db.log, id) == []
  {
    forall i | 0 <= i < |w.db.log| ensures Replay(w.db.log[..i + 1], w.db.log[i].jobId).Some? {
      assert EventOk(w, i);
    }
    NoEventsIn(w.db.log, id);
  }

  lemma ExtendTrace(es: seq<Event>, ev: Event, maxAttempts: int)
    requires TraceShape(es, maxAttempts) && maxAttempts >= 1
    requires StatusOf(es) == StatusRunning ==>
      && ev.attempts == |es| / 2
      && IsOutcome(ev.kind)
      && (IsRequeue(ev.kind) ==> ev.attempts < maxAttempts)
      && (ev.kind in {EventFailed, EventReapedFailed} ==> ev.attempts == maxAttempts)
    requires StatusOf(es) == StatusRunning
      || (StatusOf(es) == StatusQueued && ev.kind == EventClaimed && ev.attempts == |es| / 2 + 1)
    ensures TraceShape(es + [ev], maxAttempts)
    ensures ev.kind == EventClaimed ==> StatusOf(es + [ev]) == StatusRunning
    ensures IsRequeue(ev.kind) ==> StatusOf(es + [ev]) == StatusQueued
    ensures ev.kind == EventCompleted ==> StatusOf(es + [ev]) == StatusCompleted
    ensures ev.kind in {EventFailed, EventReapedFailed} ==> StatusOf(es + [ev]) == StatusFailed
  {
    var n := |es|;
    var all := es + [ev];
    assert forall i :: 0 <= i < n ==> all[i] == es[i];
    assert all[n] == ev;
    if StatusOf(es) == StatusQueued && n > 1 {
      assert IsOutcome(es[n - 1].kind) && IsRequeue(es[n - 1].kind);
      assert es[n - 1].attempts == n / 2 < maxAttempts;
    }
  }

  lemma TerminalUntouched(w: World, e: Effect, id: nat)
    requires SafeInv(w) && EffectOk(w, e) && SafeEffect(w, e)
    requires id in w.db.jobs && Terminal(w.db.jobs[id].status)
    ensures id in Apply(w, e).db.jobs && Apply(w, e).db.jobs[id] == w.db.jobs[id]
  {
    if IsReportEffect(e) { ReportsOwnRow(w, e); }
  }

  lemma KeepsDead(w: World, e: Effect, id: nat)
    requires SafeInv(w) && EffectOk(w, e) && SafeEffect(w, e)
    requires id in Apply(w, e).db.jobs
    ensures DeadOk(Apply(w, e), id)
  {
    var w' := Apply(w, e);
    DeadGrows(w, e);
    if id in w.db.jobs {
      assert DeadOk(w, id);
      if Terminal(w.db.jobs[id].status) { TerminalUntouched(w, e, id); }
    } else {
      assert !HasDeadLetter(w.db.dead, id);
    }
    if BuriesRow(w, e) {
      DeadLetterOther(w.db.dead, w'.db.dead[|w.db.dead|], id);
    }
  }

  lemma BuriedIsFull(w: World, e: Effect)
    requires SafeInv(w) && EffectOk(w, e) && SafeEffect(w, e) && BuriesRow(w, e)
    ensures var id := if e.FailOne? then e.t.jobId else e.id;
            w.db.jobs[id].attempts == w.db.jobs[id].maxAttempts
  {
    var id := if e.FailOne? then e.t.jobId else e.id;
    assert TraceOk(w, id);
    if e.FailOne? { ReportsOwnRow(w, e); }
  }

  lemma KeepsLetters(w: World, e: Effect)
    requires RowsOk(w) && LettersFull(w) && EffectOk(w, e)
    requires BuriesRow(w, e) ==>
               var id := if e.FailOne? then e.t.jobId else e.id;
               w.db.jobs[id].attempts == w.db.jobs[id].maxAttempts
    ensures LettersFull(Apply(w, e))
  {
    DeadGrows(w, e);
    LogGrows(w, e);
  }

  lemma SafeInvEffect(w: World, e: Effect)
    requires SafeInv(w) && EffectOk(w, e) && SafeEffect(w, e)
    ensures SafeInv(Apply(w, e))
  {
    var w' := Apply(w, e);
    InvEffect(w, e);
    forall t | t in w'.tickets && Meets(Unreaped, w', t) ensures Holds(w', t) {
      KeepsFenced(w, e, t);
    }
    forall id | id in w'.db.jobs ensures TraceOk(w', id) {
      KeepsTrace(w, e, id);
    }
    forall id | id in w'.db.jobs ensures DeadOk(w', id) {
      KeepsDead(w, e, id);
    }
    if BuriesRow(w, e) { BuriedIsFull(w, e); }
    KeepsLetters(w, e);
  }

  // ----- lifting to statements and runs -----

  lemma {:induction false} SafeInvEffects(w: World, es: seq<Effect>)
    requires SafeInv(w) && EffectsOk(w, es)
    requires forall e :: e in es ==> !IsReportEffect(e)
    ensures SafeInv(ApplyAll(w, es))
    decreases |es|
  {
    if es != [] {
      assert !IsReportEffect(es[0]);
      SafeInvEffect(w, es[0]);
      SafeInvEffects(Apply(w, es[0]), es[1..]);
    }
  }

  lemma ClaimEffectsAreClaims(worker: string, at: int, lease: int, chosen: seq<nat>)
    ensures forall e :: e in ClaimEffects(worker, at, lease, chosen) ==> e.ClaimOne?
    decreases |chosen|
  {
    if chosen != [] { ClaimEffectsAreClaims(worker, at, lease, chosen[1..]); }
  }

  lemma ReapEffectsAreReaps(order: seq<nat>)
    ensures forall e :: e in ReapEffects(order) ==> e.ReapOne?
    decreases |order|
  {
    if order != [] { ReapEffectsAreReaps(order[1..]); }
  }

  lemma OnlyReportsReport(w: World, a: Action)
    requires !a.Report?
    ensures forall e :: e in Effects(w, a) ==> !IsReportEffect(e)
  {
    match a
    case Claim(worker, at, lease, _, _, chosen) => ClaimEffectsAreClaims(worker, at, lease, chosen);
    case Reap(order) => ReapEffectsAreReaps(order);
    case _ =>
  }

  lemma SafeInvNext(w: World, a: Action)
    requires SafeInv(w) && Enabled(w, a)
    requires a.Report? ==> Meets(Unreaped, w, a.t)
    ensures SafeInv(Next(w, a))
  {
    EnabledEffectsOk(w, a);
    if a.Report? {
      var e := ReportEffect(w, a.t, a.result);
      OneEffect(w, e);
      SafeInvEffect(w, e);
    } else {
      OnlyReportsReport(w, a);
      SafeInvEffects(w, Effects(w, a));
    }
  }

  lemma {:induction false} SafeInvRun(w: World, run: seq<Action>)
    requires SafeInv(w) && IsRun(w, run) && ReportsMeet(Unreaped, w, run)
    ensures SafeInv(After(w, run))
    decreases |run|
  {
    if run != [] {
      SafeInvNext(w, run[0]);
      SafeInvRun(Next(w, run[0]), run[1..]);
    }
  }

  // ----- main results -----

  /** In every state of every run: a report within its lease has not been reaped, and a report
      that finds its claim intact has not been reaped either. */
  lemma MeetsUnreaped(d: Discipline, w: World, t: Ticket)
    requires Inv(w) && t in w.tickets && Meets(d, w, t)
    ensures Meets(Unreaped, w, t)
  {
    assert TicketOk(w, t);
  }

  lemma {:induction false} DisciplineIsUnreaped(d: Discipline, w: World, run: seq<Action>)
    requires Inv(w) && IsRun(w, run) && ReportsMeet(d, w, run)
    ensures ReportsMeet(Unreaped, w, run)
    decreases |run|
  {
    if run != [] {
      if run[0].Report? { MeetsUnreaped(d, w, run[0].t); }
      InvNext(w, run[0]);
      DisciplineIsUnreaped(d, Next(w, run[0]), run[1..]);
    }
  }

  lemma {:induction false} UnreapedIsFenced(w: World, run: seq<Action>)
    requires SafeInv(w) && IsRun(w, run) && ReportsMeet(Unreaped, w, run)
    ensures ReportsMeet(Fenced, w, run)
    decreases |run|
  {
    if run != [] {
      if run[0].Report? { assert TicketOk(w, run[0].t); }
      SafeInvNext(w, run[0]);
      UnreapedIsFenced(Next(w, run[0]), run[1..]);
    }
  }

  lemma SafeInvInit(clock: int)
    ensures SafeInv(Init(clock))
  {
  }

  /** Fencing, exactly: every report of a run finds the row still running at the attempt and
      under the lease its worker claimed if and only if no report comes after the reaper
      took its claim; and reporting within the lease is enough for that. */
  lemma FencingExact(clock: int, run: seq<Action>)
    requires IsRun(Init(clock), run)
    ensures ReportsMeet(Fenced, Init(clock), run) <==> ReportsMeet(Unreaped, Init(clock), run)
    ensures ReportsMeet(Timely, Init(clock), run) ==> ReportsMeet(Fenced, Init(clock), run)
  {
    SafeInvInit(clock);
    if ReportsMeet(Fenced, Init(clock), run) { DisciplineIsUnreaped(Fenced, Init(clock), run); }
    if ReportsMeet(Timely, Init(clock), run) { DisciplineIsUnreaped(Timely, Init(clock), run); }
    if ReportsMeet(Unreaped, Init(clock), run) { UnreapedIsFenced(Init(clock), run); }
  }

  lemma DisciplinedRunIsSafe(d: Discipline, clock: int, run: seq<Action>)
    requires IsRun(Init(clock), run) && ReportsMeet(d, Init(clock), run)
    ensures SafeInv(After(Init(clock), run))
  {
    SafeInvInit(clock);
    DisciplineIsUnreaped(d, Init(clock), run);
    SafeInvRun(Init(clock), run);
  }

  lemma ShapeBounds(es: seq<Event>, maxAttempts: int)
    requires TraceShape(es, maxAttempts) && maxAttempts >= 1
    ensures |es| / 2 <= maxAttempts
    ensures StatusOf(es) == StatusQueued ==> |es| / 2 < maxAttempts
  {
    if StatusOf(es) == StatusQueued && |es| > 1 {
      assert IsOutcome(es[|es| - 1].kind) && IsRequeue(es[|es| - 1].kind);
    }
  }

  lemma OneHolder(w: World)
    requires SafeInv(w)
    ensures forall t, u ::
              && t in w.tickets && u in w.tickets && t.jobId == u.jobId
              && Meets(Unreaped, w, t) && Meets(Unreaped, w, u)
              ==> t == u
  {
  }

  /** At most one worker holds a job the reaper has not taken back, and attempts never pass max_attempts. */
  lemma OneHolderAndBoundedAttempts(d: Discipline, clock: int, run: seq<Action>)
    requires IsRun(Init(clock), run) && ReportsMeet(d, Init(clock), run)
    ensures var w := After(Init(clock), run);
            && (forall t, u ::
                  && t in w.tickets && u in w.tickets && t.jobId == u.jobId
                  && Meets(Unreaped, w, t) && Meets(Unreaped, w, u)
                  ==> t == u)
            && (forall id :: id in w.db.jobs ==> w.db.jobs[id].attempts <= w.db.jobs[id].maxAttempts)
            && (forall id :: id in w.db.jobs && w.db.jobs[id].status == StatusQueued ==>
                               w.db.jobs[id].attempts < w.db.jobs[id].maxAttempts)
  {
    DisciplinedRunIsSafe(d, clock, run);
    var w := After(Init(clock), run);
    forall id | id in w.db.jobs
      ensures w.db.jobs[id].attempts <= w.db.jobs[id].maxAttempts
      ensures w.db.jobs[id].status == StatusQueued ==> w.db.jobs[id].attempts < w.db.jobs[id].maxAttempts
    {
      assert TraceOk(w, id);
      ShapeBounds(EventsOf(w.db.log, id), w.db.jobs[id].maxAttempts);
    }
    OneHolder(w);
  }

  /** A terminal row is never touched again, in any continuation. */
  lemma {:induction false} TerminalForever(w: World, future: seq<Action>, id: nat)
    requires SafeInv(w) && IsRun(w, future) && ReportsMeet(Unreaped, w, future)
    requires id in w.db.jobs && Terminal(w.db.jobs[id].status)
    ensures id in After(w, future).db.jobs && After(w, future).db.jobs[id] == w.db.jobs[id]
    decreases |future|
  {
    if future != [] {
      TerminalNext(w, future[0], id);
      SafeInvNext(w, future[0]);
      TerminalForever(Next(w, future[0]), future[1..], id);
    }
  }

  lemma TerminalNext(w: World, a: Action, id: nat)
    requires SafeInv(w) && Enabled(w, a) && (a.Report? ==> Meets(Unreaped, w, a.t))
    requires id in w.db.jobs && Terminal(w.db.jobs[id].status)
    ensures id in Next(w, a).db.jobs && Next(w, a).db.jobs[id] == w.db.jobs[id]
  {
    EnabledEffectsOk(w, a);
    if a.Report? {
      var e := ReportEffect(w, a.t, a.result);
      OneEffect(w, e);
      TerminalUntouched(w, e, id);
    } else {
      OnlyReportsReport(w, a);
      TerminalThroughEffects(w, Effects(w, a), id);
    }
  }

  lemma {:induction false} TerminalThroughEffects(w: World, es: seq<Effect>, id: nat)
    requires SafeInv(w) && EffectsOk(w, es)
    requires forall e :: e in es ==> !IsReportEffect(e)
    requires id in w.db.jobs && Terminal(w.db.jobs[id].status)
    ensures id in ApplyAll(w, es).db.jobs && ApplyAll(w, es).db.jobs[id] == w.db.jobs[id]
    decreases |es|
  {
    if es != [] {
      assert !IsReportEffect(es[0]);
      TerminalUntouched(w, es[0], id);
      SafeInvEffect(w, es[0]);
      TerminalThroughEffects(Apply(w, es[0]), es[1..], id);
    }
  }

  /** Completed and failed are absorbing, along every disciplined run and every disciplined
      continuation of it. */
  lemma TerminalIsAbsorbing(d: Discipline, clock: int, past: seq<Action>, future: seq<Action>, id: nat)
    requires IsRun(Init(clock), past) && ReportsMeet(d, Init(clock), past)
    requires IsRun(After(Init(clock), past), future) && ReportsMeet(d, After(Init(clock), past), future)
    requires id in After(Init(clock), past).db.jobs && Terminal(After(Init(clock), past).db.jobs[id].status)
    ensures var w := After(Init(clock), past);
            id in After(w, future).db.jobs && After(w, future).db.jobs[id] == w.db.jobs[id]
  {
    DisciplinedRunIsSafe(d, clock, past);
    DisciplineIsUnreaped(d, After(Init(clock), past), future);
    TerminalForever(After(Init(clock), past), future, id);
  }

  /** The language of histories, and the row each one leaves behind. */
  lemma TraceLanguage(d: Discipline, clock: int, run: seq<Action>, id: nat)
    requires IsRun(Init(clock), run) && ReportsMeet(d, Init(clock), run)
    requires id in After(Init(clock), run).db.jobs
    ensures var w := After(Init(clock), run);
            var es := EventsOf(w.db.log, id);
            && TraceShape(es, w.db.jobs[id].maxAttempts)
            && w.db.jobs[id].status == StatusOf(es)
            && w.db.jobs[id].attempts == |es| / 2
  {
    DisciplinedRunIsSafe(d, clock, run);
    assert TraceOk(After(Init(clock), run), id);
  }

  /** A dead letter exists exactly for the failed jobs, always after max_attempts attempts, so
      neither the reaper nor a failing worker ever runs into the UNIQUE constraint. */
  lemma DeadLettersMatchFailures(d: Discipline, clock: int, run: seq<Action>)
    requires IsRun(Init(clock), run) && ReportsMeet(d, Init(clock), run)
    ensures var w := After(Init(clock), run);
            && (forall id :: id in w.db.jobs ==>
                  (HasDeadLetter(w.db.dead, id) <==> w.db.jobs[id].status == StatusFailed))
            && LettersFull(w)
            && !ReapBlocked(w.db, w.clock)
            && (forall t :: t in w.tickets && Meets(d, w, t) ==> !HasDeadLetter(w.db.dead, t.jobId))
  {
    DisciplinedRunIsSafe(d, clock, run);
    var w := After(Init(clock), run);
    forall id | id in w.db.jobs
      ensures HasDeadLetter(w.db.dead, id) <==> w.db.jobs[id].status == StatusFailed
    {
      assert DeadOk(w, id);
    }
    forall t | t in w.tickets && Meets(d, w, t) ensures !HasDeadLetter(w.db.dead, t.jobId) {
      MeetsUnreaped(d, w, t);
      assert DeadOk(w, t.jobId);
    }
  }
}
