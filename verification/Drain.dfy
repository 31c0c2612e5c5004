/** Whether the queue can always be emptied. Letting time pass, claiming one job at a time and reaping
    brings every job to a terminal state exactly when no unfinished job already has a dead letter;
    after a disciplined run that is always so: no job is lost and none gets stuck. */
module Drain {
  import opened Jobs
  import opened Statements
  import opened Runs
  import opened EventLog
  import opened Invariants
  import opened Fencing

  // ----- the claim query always has an answer -----

  lemma {:induction false} BestExists(jobs: map<nat, Row>, candidates: set<nat>) returns (best: nat)
    requires candidates != {} && candidates <= jobs.Keys
    ensures best in candidates
    ensures forall u :: u in candidates ==> !Precedes(jobs[u], jobs[best])
    decreases |candidates|
  {
    var c :| c in candidates;
    if candidates == {c} {
      best := c;
    } else {
      assert |candidates - {c}| < |candidates|;
      var other := BestExists(jobs, candidates - {c});
      best := if Precedes(jobs[c], jobs[other]) then c else other;
    }
  }

  lemma SelectOne(jobs: map<nat, Row>, at: int, id: nat) returns (chosen: nat)
    requires id in jobs && Eligible(jobs[id], at)
    ensures ValidSelection(jobs, at, {}, 1, [chosen])
  {
    var candidates := set u | u in jobs && Eligible(jobs[u], at);
    assert id in candidates;
    chosen := BestExists(jobs, candidates);
  }

  lemma {:induction false} ListSet(ids: set<nat>) returns (order: seq<nat>)
    ensures Distinct(order) && forall id :: id in order <==> id in ids
    decreases |ids|
  {
    if ids == {} {
      order := [];
    } else {
      var id :| id in ids;
      var rest := ListSet(ids - {id});
      order := [id] + rest;
    }
  }

  // ----- the condition -----

  /** No unfinished job has a dead letter. */
  ghost predicate Clean(w: World) {
    forall id :: id in w.db.jobs && HasDeadLetter(w.db.dead, id) ==> Terminal(w.db.jobs[id].status)
  }

  ghost predicate AllTerminal(w: World) {
    forall id :: id in w.db.jobs ==> Terminal(w.db.jobs[id].status)
  }

  /** Time passes, a worker polls for one job, or the reaper runs; nobody reports anything. */
  ghost predicate Passive(a: Action) {
    a.Tick? || (a.Claim? && a.limit == 1 && a.skipped == {}) || a.Reap?
  }

  ghost predicate PassiveEffect(e: Effect) {
    e.Advance? || e.ClaimOne? || e.ReapOne?
  }

  lemma PassiveEffects(w: World, a: Action)
    requires Passive(a)
    ensures forall e :: e in Effects(w, a) ==> PassiveEffect(e)
    ensures !a.Tick? ==> forall e :: e in Effects(w, a) ==> !e.Advance?
  {
    match a
    case Claim(worker, at, lease, _, _, chosen) => ClaimEffectsAreClaims(worker, at, lease, chosen);
    case Reap(order) => ReapEffectsAreReaps(order);
    case _ =>
  }

  lemma CleanEffect(w: World, e: Effect)
    requires RowsOk(w) && Clean(w) && EffectOk(w, e) && PassiveEffect(e)
    ensures RowsOk(Apply(w, e)) && Clean(Apply(w, e))
  {
    var w' := Apply(w, e);
    DeadGrows(w, e);
    forall id | id in w'.db.jobs && HasDeadLetter(w'.db.dead, id) ensures Terminal(w'.db.jobs[id].status) {
      if BuriesRow(w, e) { DeadLetterOther(w.db.dead, w'.db.dead[|w.db.dead|], id); }
    }
  }

  // ----- the measure -----

  /** How many more claims and reaps a job can take: two for each attempt left, and at least one of each
      while it is unfinished. */
  function Remaining(r: Row): nat {
    if Terminal(r.status) then 0
    else if r.status == StatusQueued then 2 * (if Exhausted(r) then 1 else r.maxAttempts - r.attempts)
    else 2 * (if Exhausted(r) then 0 else r.maxAttempts - r.attempts) + 1
  }

  function Total(jobs: map<nat, Row>, n: nat): nat {
    if n == 0 then 0
    else Total(jobs, n - 1) + if n - 1 in jobs then Remaining(jobs[n - 1]) else 0
  }

  lemma {:induction false} TotalUpdate(jobs: map<nat, Row>, id: nat, r: Row, n: nat)
    requires id in jobs
    ensures Total(jobs[id := r], n) ==
            Total(jobs, n) + if id < n then Remaining(r) - Remaining(jobs[id]) else 0
    decreases n
  {
    if n > 0 { TotalUpdate(jobs, id, r, n - 1); }
  }

  lemma EffectDecreases(w: World, e: Effect)
    requires RowsOk(w) && EffectOk(w, e) && (e.ClaimOne? || e.ReapOne?)
    ensures Total(Apply(w, e).db.jobs, w.db.nextId) < Total(w.db.jobs, w.db.nextId)
    ensures Apply(w, e).db.nextId == w.db.nextId && Apply(w, e).db.jobs.Keys == w.db.jobs.Keys
  {
    var w' := Apply(w, e);
    assert w'.db.jobs == w.db.jobs[e.id := w'.db.jobs[e.id]];
    TotalUpdate(w.db.jobs, e.id, w'.db.jobs[e.id], w.db.nextId);
  }

  lemma {:induction false} EffectsDecrease(w: World, es: seq<Effect>)
    requires RowsOk(w) && Clean(w) && EffectsOk(w, es)
    requires forall e :: e in es ==> e.ClaimOne? || e.ReapOne?
    ensures var w' := ApplyAll(w, es);
            && RowsOk(w') && Clean(w') && w'.db.nextId == w.db.nextId && w'.db.jobs.Keys == w.db.jobs.Keys
            && Total(w'.db.jobs, w.db.nextId) <= Total(w.db.jobs, w.db.nextId)
            && (es != [] ==> Total(w'.db.jobs, w.db.nextId) < Total(w.db.jobs, w.db.nextId))
    decreases |es|
  {
    if es != [] {
      assert es[0] in es;
      EffectDecreases(w, es[0]);
      CleanEffect(w, es[0]);
      EffectsDecrease(Apply(w, es[0]), es[1..]);
    }
  }

  // ----- one round -----

  lemma ClaimRound(w: World, id: nat) returns (dt: nat, a: Action)
    requires id in w.db.jobs && w.db.jobs[id].status == StatusQueued
    ensures var w1 := w.(clock := w.clock + dt);
            Passive(a) && a.Claim? && Enabled(w1, a) && Effects(w1, a) != []
  {
    dt := if w.db.jobs[id].runAfter > w.clock then w.db.jobs[id].runAfter - w.clock else 0;
    var w1 := w.(clock := w.clock + dt);
    var chosen := SelectOne(w1.db.jobs, w1.clock, id);
    a := Claim("worker", w1.clock, 1, 1, {}, [chosen]);
  }

  lemma ReapRound(w: World, id: nat) returns (dt: nat, a: Action)
    requires RowsOk(w) && Clean(w) && id in w.db.jobs && w.db.jobs[id].status == StatusRunning
    ensures var w1 := w.(clock := w.clock + dt);
            Passive(a) && a.Reap? && Enabled(w1, a) && Effects(w1, a) != []
  {
    var lease := w.db.jobs[id].leaseExpiresAt.value;
    dt := if lease >= w.clock then lease + 1 - w.clock else 0;
    var w1 := w.(clock := w.clock + dt);
    var expired := set i | i in w1.db.jobs && Expired(w1.db.jobs[i], w1.clock);
    assert id in expired;
    var order := ListSet(expired);
    assert id in order;
    a := Reap(order);
    assert !ReapBlocked(w1.db, w1.clock);
  }

  lemma Round(w: World, id: nat) returns (run: seq<Action>)
    requires RowsOk(w) && Clean(w) && id in w.db.jobs && !Terminal(w.db.jobs[id].status)
    ensures IsRun(w, run) && forall a :: a in run ==> Passive(a)
    ensures var w' := After(w, run);
            && RowsOk(w') && Clean(w') && w'.db.nextId == w.db.nextId && w'.db.jobs.Keys == w.db.jobs.Keys
            && Total(w'.db.jobs, w.db.nextId) < Total(w.db.jobs, w.db.nextId)
  {
    var dt: nat;
    var a: Action;
    if w.db.jobs[id].status == StatusQueued {
      dt, a := ClaimRound(w, id);
    } else {
      dt, a := ReapRound(w, id);
    }
    TickOnly(w, dt);
    var w1 := w.(clock := w.clock + dt);
    EnabledEffectsOk(w1, a);
    PassiveEffects(w1, a);
    EffectsDecrease(w1, Effects(w1, a));
    TwoSteps(w, Tick(dt), a);
    run := [Tick(dt), a];
  }

  lemma {:induction false} DrainFrom(w: World) returns (run: seq<Action>)
    requires RowsOk(w) && Clean(w)
    ensures IsRun(w, run) && forall a :: a in run ==> Passive(a)
    ensures After(w, run).db.jobs.Keys == w.db.jobs.Keys && AllTerminal(After(w, run))
    decreases Total(w.db.jobs, w.db.nextId)
  {
    if AllTerminal(w) {
      run := [];
    } else {
      var id :| id in w.db.jobs && !Terminal(w.db.jobs[id].status);
      var first := Round(w, id);
      var rest := DrainFrom(After(w, first));
      RunConcat(w, first, rest);
      run := first + rest;
    }
  }

  // ----- a job that has been buried and dug up again cannot be finished by waiting -----

  ghost predicate Haunted(w: World, id: nat) {
    id in w.db.jobs && !Terminal(w.db.jobs[id].status) && HasDeadLetter(w.db.dead, id)
  }

  lemma HauntedEffect(w: World, e: Effect, id: nat)
    requires Haunted(w, id) && EffectOk(w, e) && PassiveEffect(e)
    ensures Haunted(Apply(w, e), id)
  {
    DeadGrows(w, e);
    if BuriesRow(w, e) { DeadLetterOther(w.db.dead, Apply(w, e).db.dead[|w.db.dead|], id); }
  }

  lemma {:induction false} HauntedEffects(w: World, es: seq<Effect>, id: nat)
    requires Haunted(w, id) && EffectsOk(w, es) && forall e :: e in es ==> PassiveEffect(e)
    ensures Haunted(ApplyAll(w, es), id)
    decreases |es|
  {
    if es != [] {
      assert PassiveEffect(es[0]);
      HauntedEffect(w, es[0], id);
      HauntedEffects(Apply(w, es[0]), es[1..], id);
    }
  }

  lemma {:induction false} HauntedForever(w: World, run: seq<Action>, id: nat)
    requires Haunted(w, id) && IsRun(w, run) && forall a :: a in run ==> Passive(a)
    ensures Haunted(After(w, run), id)
    decreases |run|
  {
    if run != [] {
      assert Passive(run[0]);
      EnabledEffectsOk(w, run[0]);
      PassiveEffects(w, run[0]);
      HauntedEffects(w, Effects(w, run[0]), id);
      HauntedForever(Next(w, run[0]), run[1..], id);
    }
  }

  // ----- main results -----

  ghost predicate Drains(w: World, future: seq<Action>) {
    IsRun(w, future) && (forall a :: a in future ==> Passive(a)) &&
    After(w, future).db.jobs.Keys == w.db.jobs.Keys && AllTerminal(After(w, future))
  }

  /** After every run, late reports and all: the queue can be drained by clock advances, single claims and
      reaps alone if and only if no unfinished job has a dead letter. */
  lemma DrainExact(clock: int, past: seq<Action>)
    requires IsRun(Init(clock), past)
    ensures var w := After(Init(clock), past);
            (exists future :: Drains(w, future)) <==> Clean(w)
  {
    var w := After(Init(clock), past);
    InvInit(clock);
    InvRun(Init(clock), past);
    if Clean(w) {
      var future := DrainFrom(w);
      assert Drains(w, future);
    } else {
      var id :| id in w.db.jobs && HasDeadLetter(w.db.dead, id) && !Terminal(w.db.jobs[id].status);
      forall future ensures !Drains(w, future) {
        if IsRun(w, future) && (forall a :: a in future ==> Passive(a)) { HauntedForever(w, future, id); }
      }
    }
  }

  /** Disciplined runs never lose a job: each can be continued until every job is completed or failed. */
  lemma EveryJobDrains(d: Discipline, clock: int, past: seq<Action>)
    requires IsRun(Init(clock), past) && ReportsMeet(d, Init(clock), past)
    ensures exists future :: Drains(After(Init(clock), past), future)
  {
    DeadLettersMatchFailures(d, clock, past);
    DrainExact(clock, past);
  }

  /** In a disciplined run a job logs at most 2 * max_attempts events after it is enqueued, and the
      measure is what is left of them. */
  lemma BoundedChanges(d: Discipline, clock: int, run: seq<Action>, id: nat)
    requires IsRun(Init(clock), run) && ReportsMeet(d, Init(clock), run)
    requires id in After(Init(clock), run).db.jobs
    ensures var w := After(Init(clock), run);
            var changes := |EventsOf(w.db.log, id)| - 1;
            && changes + Remaining(w.db.jobs[id]) <= 2 * w.db.jobs[id].maxAttempts
            && (!Terminal(w.db.jobs[id].status) ==>
                  changes + Remaining(w.db.jobs[id]) == 2 * w.db.jobs[id].maxAttempts)
  {
    TraceLanguage(d, clock, run, id);
    OneHolderAndBoundedAttempts(d, clock, run);
  }
}
