/** Fairness of the claim order, in every run. While no job outranks it, a job that has become eligible is
    passed over only by jobs of its own priority whose run_after is no later than its own. Nobody
    joins that set afterwards, and each of its members can use up only its remaining attempts. */
module Bypass {
  import opened Jobs
  import opened Statements
  import opened Runs
  import opened Invariants

  /** Job `k` may be served before job `id`, whose run_after is `due` and whose priority is `p`. */
  ghost predicate Ahead(jobs: map<nat, Row>, id: nat, due: int, p: int, k: nat) {
    k in jobs && k != id && jobs[k].priority == p && jobs[k].runAfter <= due
  }

  /** How often a job can still be claimed without leaving the set ahead. */
  function Budget(r: Row): nat {
    var left := if r.attempts < r.maxAttempts then r.maxAttempts - r.attempts else 0;
    if r.status == StatusQueued then (if left == 0 then 1 else left)
    else if r.status == StatusRunning then left
    else 0
  }

  ghost function Share(jobs: map<nat, Row>, id: nat, due: int, p: int, k: nat): nat {
    if Ahead(jobs, id, due, p, k) then Budget(jobs[k]) else 0
  }

  /** The budget of all jobs ahead of `id` whose own id is below `n`. */
  ghost function AheadBudget(jobs: map<nat, Row>, id: nat, due: int, p: int, n: nat): nat {
    if n == 0 then 0 else AheadBudget(jobs, id, due, p, n - 1) + Share(jobs, id, due, p, n - 1)
  }

  lemma {:induction false} BudgetUpdate(jobs: map<nat, Row>, id: nat, due: int, p: int, k: nat, r: Row, n: nat)
    ensures var jobs' := jobs[k := r];
            AheadBudget(jobs', id, due, p, n) ==
            AheadBudget(jobs, id, due, p, n) +
            if k < n then Share(jobs', id, due, p, k) - Share(jobs, id, due, p, k) else 0
    decreases n
  {
    if n > 0 { BudgetUpdate(jobs, id, due, p, k, r, n - 1); }
  }

  lemma {:induction false} BudgetExtend(jobs: map<nat, Row>, id: nat, due: int, p: int, n: nat, m: nat)
    requires n <= m && forall k :: k in jobs ==> k < n
    ensures AheadBudget(jobs, id, due, p, m) == AheadBudget(jobs, id, due, p, n)
    decreases m
  {
    if n < m { BudgetExtend(jobs, id, due, p, n, m - 1); }
  }

  ghost function BudgetOf(w: World, id: nat, due: int, p: int): nat {
    AheadBudget(w.db.jobs, id, due, p, w.db.nextId)
  }

  ghost predicate PunctualEffect(w: World, e: Effect) {
    e.RetryOne? ==> e.runAfter >= w.clock
  }

  /** No effect lets a job join the set, and a claim of a member spends budget. */
  lemma BudgetEffect(w: World, e: Effect, id: nat, due: int, p: int)
    requires RowsOk(w) && EffectOk(w, e) && PunctualEffect(w, e) && due < w.clock
    ensures BudgetOf(Apply(w, e), id, due, p) + (if e.ClaimOne? && Ahead(w.db.jobs, id, due, p, e.id) then 1 else 0)
            <= BudgetOf(w, id, due, p)
    ensures forall k :: Ahead(Apply(w, e).db.jobs, id, due, p, k) ==> Ahead(w.db.jobs, id, due, p, k)
  {
    var w' := Apply(w, e);
    if e.Insert? {
      BudgetUpdate(w.db.jobs, id, due, p, e.id, e.row, e.id + 1);
      BudgetExtend(w.db.jobs, id, due, p, w.db.nextId, e.id + 1);
    } else if !e.Advance? && !e.Drop? {
      var k := if e.ClaimOne? || e.ReapOne? then e.id else e.t.jobId;
      assert w'.db.jobs == w.db.jobs[k := w'.db.jobs[k]];
      BudgetUpdate(w.db.jobs, id, due, p, k, w'.db.jobs[k], w.db.nextId);
    }
  }

  lemma {:induction false} BudgetEffects(w: World, es: seq<Effect>, id: nat, due: int, p: int)
    requires Inv(w) && EffectsOk(w, es) && due < w.clock
    requires forall e :: e in es ==> !e.RetryOne?
    ensures BudgetOf(ApplyAll(w, es), id, due, p) <= BudgetOf(w, id, due, p)
    ensures forall k :: Ahead(ApplyAll(w, es).db.jobs, id, due, p, k) ==> Ahead(w.db.jobs, id, due, p, k)
    ensures ApplyAll(w, es).clock >= w.clock
    decreases |es|
  {
    if es != [] {
      assert es[0] in es;
      BudgetEffect(w, es[0], id, due, p);
      InvEffect(w, es[0]);
      BudgetEffects(Apply(w, es[0]), es[1..], id, due, p);
    }
  }

  lemma {:induction false} ClaimsSpend(
    w: World, worker: string, at: int, lease: int, chosen: seq<nat>, id: nat, due: int, p: int)
    requires Inv(w) && EffectsOk(w, ClaimEffects(worker, at, lease, chosen)) && due < w.clock
    requires forall c :: c in chosen ==> Ahead(w.db.jobs, id, due, p, c)
    ensures BudgetOf(ApplyAll(w, ClaimEffects(worker, at, lease, chosen)), id, due, p) + |chosen|
            <= BudgetOf(w, id, due, p)
    decreases |chosen|
  {
    if chosen != [] {
      var e := ClaimOne(chosen[0], worker, at, lease);
      assert ClaimEffects(worker, at, lease, chosen)[1..] == ClaimEffects(worker, at, lease, chosen[1..]);
      BudgetEffect(w, e, id, due, p);
      InvEffect(w, e);
      forall c | c in chosen[1..] ensures Ahead(Apply(w, e).db.jobs, id, due, p, c) {
        assert c in chosen && Ahead(w.db.jobs, id, due, p, c);
      }
      ClaimsSpend(Apply(w, e), worker, at, lease, chosen[1..], id, due, p);
    }
  }

  // ----- runs in which one job waits -----

  ghost predicate Waits(w: World, id: nat, due: int, p: int) {
    && id in w.db.jobs && w.db.jobs[id].status == StatusQueued
    && w.db.jobs[id].runAfter == due && w.db.jobs[id].priority == p
  }

  /** Job `id` stays queued throughout; a retry never asks for a time already past; no job outranks `id`. */
  ghost predicate WaitingRun(w: World, run: seq<Action>, id: nat, due: int, p: int)
    requires IsRun(w, run)
    decreases |run|
  {
    && Waits(w, id, due, p)
    && (forall k :: k in w.db.jobs ==> w.db.jobs[k].priority <= p)
    && (run != [] ==>
          && (run[0].Report? && run[0].result.Error? ==> run[0].result.runAfter >= w.clock)
          && WaitingRun(Next(w, run[0]), run[1..], id, due, p))
  }

  /** A claim that could have taken job `id` and took others. */
  ghost predicate PassesOver(w: World, a: Action, id: nat, due: int) {
    a.Claim? && a.limit >= 1 && id !in a.skipped && due <= a.at && id !in a.chosen
  }

  ghost function PassOvers(w: World, run: seq<Action>, id: nat, due: int): nat
    requires IsRun(w, run)
    decreases |run|
  {
    if run == [] then 0
    else (if PassesOver(w, run[0], id, due) then 1 else 0) + PassOvers(Next(w, run[0]), run[1..], id, due)
  }

  lemma PassOverSpends(w: World, a: Action, id: nat, due: int, p: int)
    requires Inv(w) && Enabled(w, a) && due < w.clock && Waits(w, id, due, p) && PassesOver(w, a, id, due)
    requires forall k :: k in w.db.jobs ==> w.db.jobs[k].priority <= p
    ensures BudgetOf(Next(w, a), id, due, p) + 1 <= BudgetOf(w, id, due, p)
  {
    EnabledEffectsOk(w, a);
    forall c | c in a.chosen ensures Ahead(w.db.jobs, id, due, p, c) {
      assert !Precedes(w.db.jobs[id], w.db.jobs[c]);
    }
    ClaimsSpend(w, a.worker, a.at, a.lease, a.chosen, id, due, p);
  }

  lemma StepKeepsBudget(w: World, a: Action, id: nat, due: int, p: int)
    requires Inv(w) && Enabled(w, a) && due < w.clock
    requires a.Report? && a.result.Error? ==> a.result.runAfter >= w.clock
    ensures BudgetOf(Next(w, a), id, due, p) <= BudgetOf(w, id, due, p)
    ensures forall k :: Ahead(Next(w, a).db.jobs, id, due, p, k) ==> Ahead(w.db.jobs, id, due, p, k)
    ensures Next(w, a).clock >= w.clock
  {
    EnabledEffectsOk(w, a);
    if a.Report? {
      var e := ReportEffect(w, a.t, a.result);
      OneEffect(w, e);
      BudgetEffect(w, e, id, due, p);
    } else {
      NoRetryEffects(w, a);
      BudgetEffects(w, Effects(w, a), id, due, p);
    }
  }

  lemma NoRetryEffects(w: World, a: Action)
    requires !a.Report?
    ensures forall e :: e in Effects(w, a) ==> !e.RetryOne?
  {
    match a
    case Claim(worker, at, lease, _, _, chosen) => NoRetryInClaims(worker, at, lease, chosen);
    case Reap(order) => NoRetryInReaps(order);
    case _ =>
  }

  lemma NoRetryInClaims(worker: string, at: int, lease: int, chosen: seq<nat>)
    ensures forall e :: e in ClaimEffects(worker, at, lease, chosen) ==> !e.RetryOne?
    decreases |chosen|
  {
    if chosen != [] { NoRetryInClaims(worker, at, lease, chosen[1..]); }
  }

  lemma NoRetryInReaps(order: seq<nat>)
    ensures forall e :: e in ReapEffects(order) ==> !e.RetryOne?
    decreases |order|
  {
    if order != [] { NoRetryInReaps(order[1..]); }
  }

  /** Bounded bypass: while a due job waits, the set ahead of it never grows, and the claims
      that pass it over number at most the remaining budget of that set. */
  lemma BoundedBypass(clock: int, past: seq<Action>, run: seq<Action>, id: nat, due: int, p: int)
    requires IsRun(Init(clock), past) && IsRun(After(Init(clock), past), run)
    requires due < After(Init(clock), past).clock && WaitingRun(After(Init(clock), past), run, id, due, p)
    ensures var w := After(Init(clock), past);
            && PassOvers(w, run, id, due) + BudgetOf(After(w, run), id, due, p) <= BudgetOf(w, id, due, p)
            && forall k :: Ahead(After(w, run).db.jobs, id, due, p, k) ==> Ahead(w.db.jobs, id, due, p, k)
  {
    InvInit(clock);
    InvRun(Init(clock), past);
    BypassFrom(After(Init(clock), past), run, id, due, p);
  }

  lemma {:induction false} BypassFrom(w: World, run: seq<Action>, id: nat, due: int, p: int)
    requires Inv(w) && IsRun(w, run) && due < w.clock && WaitingRun(w, run, id, due, p)
    ensures PassOvers(w, run, id, due) + BudgetOf(After(w, run), id, due, p) <= BudgetOf(w, id, due, p)
    ensures forall k :: Ahead(After(w, run).db.jobs, id, due, p, k) ==> Ahead(w.db.jobs, id, due, p, k)
    decreases |run|
  {
    if run != [] {
      var a := run[0];
      StepKeepsBudget(w, a, id, due, p);
      if PassesOver(w, a, id, due) { PassOverSpends(w, a, id, due, p); }
      InvNext(w, a);
      BypassFrom(Next(w, a), run[1..], id, due, p);
    }
  }
}
