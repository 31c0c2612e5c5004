/** How often a job can still be executed, from any point of any run: a number read off its row and the tickets
    still out that no step increases, and that some continuation reaches. */
module Executions {
  import opened Jobs
  import opened Statements
  import opened Runs
  import opened Invariants
  import opened History
  import opened Reaper
  import opened Drain

  /** The attempts a row can come to when `n` tickets of it may still ask for a retry. An attempt below max_attempts
      can be sent back twice, by the reaper and by its own late worker; one at or above it cannot. */
  function Reach(r: Row, n: nat): int {
    if Terminal(r.status) && n == 0 then r.attempts
    else if Terminal(r.status) then (if Exhausted(r) then r.attempts else 2 * r.maxAttempts - 2 - r.attempts) + n
    else if !Exhausted(r) then 2 * r.maxAttempts - 1 - r.attempts + n
    else if r.status == StatusQueued then r.attempts + 1 + n
    else r.attempts + n
  }

  ghost function ReachOf(w: World, id: nat): int
    requires id in w.db.jobs
  {
    Reach(w.db.jobs[id], |Retriable(w.tickets, id)|)
  }

  // ----- no step increases it -----

  lemma ReachShrinks(r: Row, r': Row, kind: EventKind, n: nat, n': nat)
    requires Tells(kind, r, r') && n' <= n + TicketShift(kind, r')
    ensures Reach(r', n') <= Reach(r, n)
  {
  }

  lemma ReachEffect(w: World, e: Effect, id: nat)
    requires RowsOk(w) && EffectOk(w, e) && id in w.db.jobs
    ensures id in Apply(w, e).db.jobs && ReachOf(Apply(w, e), id) <= ReachOf(w, id)
  {
    var w' := Apply(w, e);
    LogGrows(w, e);
    RetriableMoves(w, e, id);
    if Logs(w, e) && w'.db.log[|w.db.log|].jobId == id {
      EventTells(w, e);
      ReachShrinks(w.db.jobs[id], w'.db.jobs[id], w'.db.log[|w.db.log|].kind,
                   |Retriable(w.tickets, id)|, |Retriable(w'.tickets, id)|);
    }
  }

  lemma {:induction false} ReachEffects(w: World, es: seq<Effect>, id: nat)
    requires RowsOk(w) && EffectsOk(w, es) && id in w.db.jobs
    ensures id in ApplyAll(w, es).db.jobs && ReachOf(ApplyAll(w, es), id) <= ReachOf(w, id)
    decreases |es|
  {
    if es != [] {
      ReachEffect(w, es[0], id);
      KeepsRows(w, es[0]);
      ReachEffects(Apply(w, es[0]), es[1..], id);
    }
  }

  lemma {:induction false} ReachRun(w: World, run: seq<Action>, id: nat)
    requires Inv(w) && IsRun(w, run) && id in w.db.jobs
    ensures id in After(w, run).db.jobs && ReachOf(After(w, run), id) <= ReachOf(w, id)
    decreases |run|
  {
    if run != [] {
      EnabledEffectsOk(w, run[0]);
      ReachEffects(w, Effects(w, run[0]), id);
      InvNext(w, run[0]);
      ReachRun(Next(w, run[0]), run[1..], id);
    }
  }

  /** After every run and in every continuation of it, attempts stay within what the row and the tickets allowed. */
  lemma ReachBoundsAttempts(clock: int, past: seq<Action>, future: seq<Action>, id: nat)
    requires IsRun(Init(clock), past) && IsRun(After(Init(clock), past), future)
    requires id in After(Init(clock), past).db.jobs
    ensures var w := After(Init(clock), past);
            var end := After(w, future);
            && id in end.db.jobs && end.db.jobs[id].attempts <= ReachOf(end, id) <= ReachOf(w, id)
  {
    InvInit(clock);
    InvRun(Init(clock), past);
    ReachRun(After(Init(clock), past), future, id);
  }

  // ----- a dead letter is written only when all attempts are used up -----

  ghost predicate LettersLate(w: World) {
    forall i :: 0 <= i < |w.db.dead| ==>
      w.db.dead[i].jobId in w.db.jobs && Exhausted(w.db.jobs[w.db.dead[i].jobId])
  }

  lemma LettersLateEffect(w: World, e: Effect)
    requires Inv(w) && LettersLate(w) && EffectOk(w, e)
    ensures LettersLate(Apply(w, e))
  {
    LogGrows(w, e);
    DeadGrows(w, e);
    if e.FailOne? { assert TicketOk(w, e.t); }
  }

  lemma {:induction false} LettersLateEffects(w: World, es: seq<Effect>)
    requires Inv(w) && LettersLate(w) && EffectsOk(w, es)
    ensures LettersLate(ApplyAll(w, es))
    decreases |es|
  {
    if es != [] {
      LettersLateEffect(w, es[0]);
      InvEffect(w, es[0]);
      LettersLateEffects(Apply(w, es[0]), es[1..]);
    }
  }

  lemma {:induction false} LettersLateRun(w: World, run: seq<Action>)
    requires Inv(w) && LettersLate(w) && IsRun(w, run)
    ensures LettersLate(After(w, run))
    decreases |run|
  {
    if run != [] {
      EnabledEffectsOk(w, run[0]);
      LettersLateEffects(w, Effects(w, run[0]));
      InvNext(w, run[0]);
      LettersLateRun(Next(w, run[0]), run[1..]);
    }
  }

  // ----- steps of one job among others -----

  /** Job `id` is in this state, with `n` tickets out that may ask for a retry. */
  ghost predicate At(w: World, id: nat, status: Status, attempts: nat, maxAttempts: int, n: nat) {
    && Inv(w) && id in w.db.jobs
    && w.db.jobs[id].status == status && w.db.jobs[id].attempts == attempts
    && w.db.jobs[id].maxAttempts == maxAttempts && |Retriable(w.tickets, id)| == n
  }

  lemma FreshTicket(w: World, id: nat, t: Ticket)
    requires Inv(w) && id in w.db.jobs && t.jobId == id && t.attempts == w.db.jobs[id].attempts + 1
    ensures |Retriable(w.tickets + {t}, id)| ==
            |Retriable(w.tickets, id)| + if t.attempts < t.maxAttempts then 1 else 0
  {
    assert t !in w.tickets;
    assert Retriable(w.tickets + {t}, id) == Retriable(w.tickets, id) + if MayRetry(t, id) then {t} else {};
  }

  /** A claim of job `id` once it is due, while other sessions hold all other rows. */
  lemma ClaimJob(w: World, id: nat, a: nat, m: int, n: nat) returns (run: seq<Action>)
    requires At(w, id, StatusQueued, a, m, n)
    ensures IsRun(w, run)
    ensures At(After(w, run), id, StatusRunning, a + 1, m, n + if a + 1 < m then 1 else 0)
    ensures Clean(w) ==> Clean(After(w, run))
  {
    var dt := if w.db.jobs[id].runAfter > w.clock then w.db.jobs[id].runAfter - w.clock else 0;
    TickOnly(w, dt);
    var w1 := Next(w, Tick(dt));
    var e := ClaimOne(id, "worker", w1.clock, 1);
    var claim := Claim("worker", w1.clock, 1, 1, w.db.jobs.Keys - {id}, [id]);
    assert [id][1..] == [] && ClaimEffects("worker", w1.clock, 1, []) == [];
    assert Enabled(w1, claim) && Effects(w1, claim) == [e];
    OneEffect(w1, e);
    TwoSteps(w, Tick(dt), claim);
    run := [Tick(dt), claim];
    InvNext(w, Tick(dt));
    FreshTicket(w1, id, TicketFor(w1.db, id, w1.clock, 1));
    InvNext(w1, claim);
    if Clean(w) { CleanEffect(w1, e); }
  }

  lemma ReapJob(w: World, id: nat, a: nat, m: int, n: nat) returns (run: seq<Action>)
    requires At(w, id, StatusRunning, a, m, n) && a < m && Clean(w)
    ensures IsRun(w, run)
    ensures At(After(w, run), id, StatusQueued, a, m, n) && Clean(After(w, run))
  {
    var lease := w.db.jobs[id].leaseExpiresAt.value;
    var dt := if lease >= w.clock then lease + 1 - w.clock else 0;
    TickOnly(w, dt);
    var w1 := Next(w, Tick(dt));
    var order := ListSet(set i | i in w1.db.jobs && Expired(w1.db.jobs[i], w1.clock));
    TwoSteps(w, Tick(dt), Reap(order));
    run := [Tick(dt), Reap(order)];
    InvNext(w, Tick(dt));
    InvNext(w1, Reap(order));
    assert !ReapBlocked(w1.db, w1.clock);
    ReapAllOrNothing(w1, order);
    EnabledEffectsOk(w1, Reap(order));
    PassiveEffects(w1, Reap(order));
    EffectsDecrease(w1, Effects(w1, Reap(order)));
  }

  /** A late worker sends the job back, whatever became of it. */
  lemma RetryJob(w: World, id: nat, status: Status, a: nat, m: int, n: nat) returns (run: seq<Action>)
    requires At(w, id, status, a, m, n) && n > 0
    ensures IsRun(w, run) && At(After(w, run), id, StatusQueued, a, m, n - 1)
    ensures Clean(w) && !HasDeadLetter(w.db.dead, id) ==> Clean(After(w, run))
  {
    assert Retriable(w.tickets, id) != {};
    var t :| t in Retriable(w.tickets, id);
    var retry := Report(t, Error("boom", w.clock));
    OneEffect(w, RetryOne(t, w.clock, "boom"));
    OneStep(w, retry);
    run := [retry];
    RetriableRemove(w.tickets, t, id);
    InvNext(w, retry);
  }

  // ----- the longest way -----

  /** Every ticket still out asks for a retry, and each time the job is claimed once more. */
  lemma {:induction false} LateClaims(w: World, id: nat, a: nat, m: int, n: nat) returns (run: seq<Action>)
    requires At(w, id, StatusRunning, a, m, n) && a >= m
    ensures IsRun(w, run) && At(After(w, run), id, StatusRunning, a + n, m, 0)
    decreases n
  {
    if n == 0 {
      run := [];
    } else {
      var retry := RetryJob(w, id, StatusRunning, a, m, n);
      var w1 := After(w, retry);
      var claim := ClaimJob(w1, id, a, m, n - 1);
      var rest := LateClaims(After(w1, claim), id, a + 1, m, n - 1);
      RunConcat(w1, claim, rest);
      RunConcat(w, retry, claim + rest);
      run := retry + (claim + rest);
    }
  }

  /** The reaper takes each attempt below max_attempts back and leaves its worker's ticket out. */
  lemma {:induction false} EarlyClaims(w: World, id: nat, a: nat, m: int, n: nat) returns (run: seq<Action>)
    requires At(w, id, StatusQueued, a, m, n) && a < m && Clean(w)
    ensures IsRun(w, run) && At(After(w, run), id, StatusRunning, m, m, n + (m - 1 - a))
    decreases m - a
  {
    var claim := ClaimJob(w, id, a, m, n);
    if a + 1 == m {
      run := claim;
    } else {
      var w1 := After(w, claim);
      var reap := ReapJob(w1, id, a + 1, m, n + 1);
      var rest := EarlyClaims(After(w1, reap), id, a + 1, m, n + 1);
      RunConcat(w1, reap, rest);
      RunConcat(w, claim, reap + rest);
      run := claim + (reap + rest);
    }
  }

  lemma FromQueued(w: World, id: nat, a: nat, m: int, n: nat) returns (run: seq<Action>)
    requires At(w, id, StatusQueued, a, m, n) && (a >= m || Clean(w))
    ensures IsRun(w, run) && id in After(w, run).db.jobs
    ensures After(w, run).db.jobs[id].attempts == if a < m then 2 * m - 1 - a + n else a + 1 + n
  {
    if a < m {
      var early := EarlyClaims(w, id, a, m, n);
      var late := LateClaims(After(w, early), id, m, m, n + (m - 1 - a));
      RunConcat(w, early, late);
      run := early + late;
    } else {
      var claim := ClaimJob(w, id, a, m, n);
      var late := LateClaims(After(w, claim), id, a + 1, m, n);
      RunConcat(w, claim, late);
      run := claim + late;
    }
  }

  lemma FromTerminal(w: World, id: nat, status: Status, a: nat, m: int, n: nat) returns (run: seq<Action>)
    requires At(w, id, status, a, m, n) && Terminal(status) && LettersLate(w) && (a >= m || Clean(w))
    ensures IsRun(w, run) && id in After(w, run).db.jobs
    ensures After(w, run).db.jobs[id].attempts == Reach(w.db.jobs[id], n)
  {
    if n == 0 {
      run := [];
    } else {
      var retry := RetryJob(w, id, status, a, m, n);
      var rest := FromQueued(After(w, retry), id, a, m, n - 1);
      RunConcat(w, retry, rest);
      run := retry + rest;
    }
  }

  lemma FromRunning(w: World, id: nat, a: nat, m: int, n: nat) returns (run: seq<Action>)
    requires At(w, id, StatusRunning, a, m, n) && (a >= m || Clean(w))
    ensures IsRun(w, run) && id in After(w, run).db.jobs
    ensures After(w, run).db.jobs[id].attempts == Reach(w.db.jobs[id], n)
  {
    if a >= m {
      run := LateClaims(w, id, a, m, n);
    } else {
      var reap := ReapJob(w, id, a, m, n);
      var rest := FromQueued(After(w, reap), id, a, m, n);
      RunConcat(w, reap, rest);
      run := reap + rest;
    }
  }

  /** And some continuation gets that far: always for a row that is out of attempts, and for any row unless an
      unfinished job with a dead letter stands in the reaper's way. */
  lemma ReachIsReached(clock: int, past: seq<Action>, id: nat) returns (future: seq<Action>)
    requires IsRun(Init(clock), past) && id in After(Init(clock), past).db.jobs
    requires Exhausted(After(Init(clock), past).db.jobs[id]) || Clean(After(Init(clock), past))
    ensures var w := After(Init(clock), past);
            && IsRun(w, future) && id in After(w, future).db.jobs
            && After(w, future).db.jobs[id].attempts == ReachOf(w, id)
  {
    var w := After(Init(clock), past);
    InvInit(clock);
    InvRun(Init(clock), past);
    LettersLateRun(Init(clock), past);
    var r, n := w.db.jobs[id], |Retriable(w.tickets, id)|;
    if r.status == StatusQueued {
      future := FromQueued(w, id, r.attempts, r.maxAttempts, n);
    } else if r.status == StatusRunning {
      future := FromRunning(w, id, r.attempts, r.maxAttempts, n);
    } else {
      future := FromTerminal(w, id, r.status, r.attempts, r.maxAttempts, n);
    }
  }
}
