/** Claims of many sessions, each in two steps: select and lock rows with SKIP LOCKED, then
    update them and release the locks. Other statements run in between; one that would
    change a locked row waits. Every such interleaving is a run of atomic claims. */
module ConcurrentClaim {
  import opened Jobs
  import opened Statements
  import opened Runs
  import opened EventLog
  import opened Invariants
  import opened EveryRunResults

  /** A claim that has locked its rows and not yet committed, with what it saw when it chose them. */
  datatype Pending = Pending(
    worker: string, at: int, lease: int, limit: nat, chosen: seq<nat>,
    seen: map<nat, Row>, lockedByOthers: set<nat>)

  datatype Concurrent = Concurrent(world: World, sessions: map<nat, Pending>)

  datatype Step =
    | Select(session: nat, worker: string, lease: int, limit: nat, chosen: seq<nat>)
    | Commit(session: nat)
    | Rollback(session: nat)
    | Other(a: Action)

  ghost function Locked(sessions: map<nat, Pending>): set<nat> {
    set s, i | s in sessions && 0 <= i < |sessions[s].chosen| :: sessions[s].chosen[i]
  }

  ghost predicate StepEnabled(c: Concurrent, s: Step) {
    match s
    case Select(session, _, _, limit, chosen) =>
      session !in c.sessions &&
      ValidSelection(c.world.db.jobs, c.world.clock, Locked(c.sessions), limit, chosen)
    case Commit(session) =>
      session in c.sessions && forall id :: id in c.sessions[session].chosen ==> id in c.world.db.jobs
    case Rollback(session) => session in c.sessions
    case Other(a) => !a.Claim? && Enabled(c.world, a) && (a.Report? ==> a.t.jobId !in Locked(c.sessions))
  }

  /** The UPDATE of a two-step claim: it writes the rows it has locked and hands out their tickets, without
      looking at any other row again. */
  ghost function UpdateLocked(w: World, p: Pending): World
    requires forall id :: id in p.chosen ==> id in w.db.jobs
  {
    World(ClaimRows(w.db, p.at, p.worker, p.lease, p.chosen), w.clock,
          w.tickets + set id | id in p.chosen :: TicketFor(w.db, id, p.at, p.lease))
  }

  ghost function StepNext(c: Concurrent, s: Step): Concurrent
    requires StepEnabled(c, s)
  {
    match s
    case Select(session, worker, lease, limit, chosen) =>
      c.(sessions := c.sessions[session :=
           Pending(worker, c.world.clock, lease, limit, chosen, c.world.db.jobs, Locked(c.sessions))])
    case Commit(session) => Concurrent(UpdateLocked(c.world, c.sessions[session]), c.sessions - {session})
    case Rollback(session) => c.(sessions := c.sessions - {session})
    case Other(a) => c.(world := Next(c.world, a))
  }

  // ----- locks are exclusive, and a locked row keeps what made it eligible -----

  ghost predicate PendingOk(w: World, p: Pending) {
    && Distinct(p.chosen) && p.at <= w.clock
    && ValidSelection(p.seen, p.at, p.lockedByOthers, p.limit, p.chosen)
    && (forall id :: id in p.chosen ==> id in w.db.jobs && id in p.seen && w.db.jobs[id] == p.seen[id])
  }

  ghost predicate LocksOk(c: Concurrent) {
    && Inv(c.world)
    && (forall s :: s in c.sessions ==> PendingOk(c.world, c.sessions[s]))
    && (forall s, t, id :: s in c.sessions && t in c.sessions && s != t && id in c.sessions[s].chosen ==>
          id !in c.sessions[t].chosen)
  }

  /** The rows a committing claim passes over: those locked by another session when it chose, and those that
      changed while it was in flight. */
  ghost function Skipped(w: World, p: Pending): set<nat> {
    set u | u in w.db.jobs && u !in p.chosen && (u in p.lockedByOthers || u !in p.seen || w.db.jobs[u] != p.seen[u])
  }

  function Atomic(p: Pending, skipped: set<nat>): Action {
    Claim(p.worker, p.at, p.lease, p.limit, skipped, p.chosen)
  }

  lemma CommitEnabled(w: World, p: Pending)
    requires PendingOk(w, p)
    ensures Enabled(w, Atomic(p, Skipped(w, p)))
  {
    var skipped := Skipped(w, p);
    forall u | u in w.db.jobs && Eligible(w.db.jobs[u], p.at) && u !in skipped && u !in p.chosen
      ensures |p.chosen| == p.limit && forall c :: c in p.chosen ==> !Precedes(w.db.jobs[u], w.db.jobs[c])
    {
      assert u in p.seen && Eligible(p.seen[u], p.at) && u !in p.lockedByOthers;
    }
  }

  /** At its commit, the update of the locked rows is an atomic claim of the current table that skips only
      those rows. */
  lemma CommitIsClaim(w: World, p: Pending)
    requires PendingOk(w, p)
    ensures var a := Atomic(p, Skipped(w, p));
            Enabled(w, a) && Next(w, a) == UpdateLocked(w, p)
  {
    CommitEnabled(w, p);
    NextIsUpdate(w, p, Skipped(w, p));
  }

  lemma NextIsUpdate(w: World, p: Pending, skipped: set<nat>)
    requires Enabled(w, Atomic(p, skipped))
    ensures Next(w, Atomic(p, skipped)) == UpdateLocked(w, p)
  {
    var a := Atomic(p, skipped);
    EnabledEffectsOk(w, a);
    NextRunsStatement(w, a);
    ClaimHandsOutTickets(w, p.worker, p.at, p.lease, p.chosen);
  }

  // ----- a statement leaves rows it does not name alone -----

  ghost predicate Leaves(e: Effect, id: nat) {
    match e
    case Insert(k, _) => k != id
    case ClaimOne(k, _, _, _) => k != id
    case ReapOne(k) => k != id
    case CompleteOne(t) => t.jobId != id
    case RetryOne(t, _, _) => t.jobId != id
    case FailOne(t, _) => t.jobId != id
    case _ => true
  }

  lemma {:induction false} EffectsLeave(w: World, es: seq<Effect>, id: nat)
    requires EffectsOk(w, es) && id in w.db.jobs && forall e :: e in es ==> Leaves(e, id)
    ensures var w' := ApplyAll(w, es);
            id in w'.db.jobs && w'.db.jobs[id] == w.db.jobs[id] && w'.clock >= w.clock
    decreases |es|
  {
    if es != [] {
      assert Leaves(es[0], id);
      EffectsLeave(Apply(w, es[0]), es[1..], id);
    }
  }

  lemma ClaimsLeave(worker: string, at: int, lease: int, chosen: seq<nat>, id: nat)
    requires id !in chosen
    ensures forall e :: e in ClaimEffects(worker, at, lease, chosen) ==> Leaves(e, id)
    decreases |chosen|
  {
    if chosen != [] { ClaimsLeave(worker, at, lease, chosen[1..], id); }
  }

  lemma ReapsLeave(order: seq<nat>, id: nat)
    requires id !in order
    ensures forall e :: e in ReapEffects(order) ==> Leaves(e, id)
    decreases |order|
  {
    if order != [] { ReapsLeave(order[1..], id); }
  }

  ghost predicate Names(w: World, a: Action, id: nat) {
    match a
    case Claim(_, _, _, _, _, chosen) => id in chosen
    case Report(t, _) => t.jobId == id
    case Reap(order) => id in order
    case _ => false
  }

  lemma NextLeaves(w: World, a: Action, id: nat)
    requires Inv(w) && Enabled(w, a) && id in w.db.jobs && !Names(w, a, id)
    ensures var w' := Next(w, a); id in w'.db.jobs && w'.db.jobs[id] == w.db.jobs[id] && w'.clock >= w.clock
  {
    EnabledEffectsOk(w, a);
    match a {
      case Claim(worker, at, lease, _, _, chosen) => ClaimsLeave(worker, at, lease, chosen, id);
      case Reap(order) => ReapsLeave(order, id);
      case _ =>
    }
    EffectsLeave(w, Effects(w, a), id);
  }

  lemma {:induction false} ClockAdvances(w: World, es: seq<Effect>)
    requires EffectsOk(w, es)
    ensures ApplyAll(w, es).clock >= w.clock
    decreases |es|
  {
    if es != [] { ClockAdvances(Apply(w, es[0]), es[1..]); }
  }

  lemma PendingSurvives(w: World, a: Action, p: Pending)
    requires Inv(w) && Enabled(w, a) && PendingOk(w, p) && forall id :: id in p.chosen ==> !Names(w, a, id)
    ensures PendingOk(Next(w, a), p)
  {
    EnabledEffectsOk(w, a);
    ClockAdvances(w, Effects(w, a));
    forall id | id in p.chosen
      ensures id in Next(w, a).db.jobs && Next(w, a).db.jobs[id] == p.seen[id]
    {
      NextLeaves(w, a, id);
    }
  }

  lemma InLocked(sessions: map<nat, Pending>, s: nat, id: nat)
    requires s in sessions && id in sessions[s].chosen
    ensures id in Locked(sessions)
  {
    var i :| 0 <= i < |sessions[s].chosen| && sessions[s].chosen[i] == id;
  }

  lemma LocksKept(c: Concurrent, s: Step)
    requires LocksOk(c) && StepEnabled(c, s)
    ensures LocksOk(StepNext(c, s))
  {
    match s
    case Select(session, _, _, _, chosen) =>
      forall t, id | t in c.sessions && id in c.sessions[t].chosen ensures id !in chosen {
        InLocked(c.sessions, t, id);
      }
    case Commit(session) =>
      var p := c.sessions[session];
      CommitIsClaim(c.world, p);
      var a := Atomic(p, Skipped(c.world, p));
      InvNext(c.world, a);
      forall t | t in c.sessions && t != session ensures PendingOk(Next(c.world, a), c.sessions[t]) {
        PendingSurvives(c.world, a, c.sessions[t]);
      }
    case Rollback(_) =>
    case Other(a) =>
      InvNext(c.world, a);
      forall t | t in c.sessions ensures PendingOk(Next(c.world, a), c.sessions[t]) {
        OtherNamesNoLock(c, a, t);
        PendingSurvives(c.world, a, c.sessions[t]);
      }
  }

  lemma OtherNamesNoLock(c: Concurrent, a: Action, t: nat)
    requires LocksOk(c) && StepEnabled(c, Other(a)) && t in c.sessions
    ensures forall id :: id in c.sessions[t].chosen ==> !Names(c.world, a, id)
  {
    var p := c.sessions[t];
    assert PendingOk(c.world, p);
    forall id | id in p.chosen ensures !Names(c.world, a, id) {
      InLocked(c.sessions, t, id);
      assert Eligible(p.seen[id], p.at);
    }
  }

  // ----- whole interleavings -----

  ghost predicate Interleaving(c: Concurrent, steps: seq<Step>)
    decreases |steps|
  {
    steps == [] || (StepEnabled(c, steps[0]) && Interleaving(StepNext(c, steps[0]), steps[1..]))
  }

  ghost function End(c: Concurrent, steps: seq<Step>): Concurrent
    requires Interleaving(c, steps)
    decreases |steps|
  {
    if steps == [] then c else End(StepNext(c, steps[0]), steps[1..])
  }

  /** The atomic actions an interleaving amounts to: one claim for each commit, at its commit. */
  ghost function Linear(c: Concurrent, steps: seq<Step>): seq<Action>
    requires Interleaving(c, steps)
    decreases |steps|
  {
    if steps == [] then []
    else
      var rest := Linear(StepNext(c, steps[0]), steps[1..]);
      match steps[0]
      case Commit(session) => [Atomic(c.sessions[session], Skipped(c.world, c.sessions[session]))] + rest
      case Other(a) => [a] + rest
      case _ => rest
  }

  lemma {:induction false} LinearIsRun(c: Concurrent, steps: seq<Step>)
    requires LocksOk(c) && Interleaving(c, steps)
    ensures IsRun(c.world, Linear(c, steps)) && After(c.world, Linear(c, steps)) == End(c, steps).world
    ensures LocksOk(End(c, steps))
    decreases |steps|
  {
    if steps != [] {
      var s := steps[0];
      LocksKept(c, s);
      var c' := StepNext(c, s);
      LinearIsRun(c', steps[1..]);
      var rest := Linear(c', steps[1..]);
      match s
      case Commit(session) =>
        CommitIsClaim(c.world, c.sessions[session]);
        Prepend(c.world, Atomic(c.sessions[session], Skipped(c.world, c.sessions[session])), rest);
      case Other(a) => Prepend(c.world, a, rest);
      case _ =>
    }
  }

  ghost function Start(clock: int): (c: Concurrent)
    ensures LocksOk(c)
  {
    InvInit(clock);
    Concurrent(Init(clock), map[])
  }

  /** Every interleaving of two-step claims with everything else ends in the state of a run of atomic
      claims; at its end no row is locked twice, and no two claims of a job lack a requeue between them. */
  lemma ConcurrentClaimsRefineAtomic(clock: int, steps: seq<Step>)
    requires Interleaving(Start(clock), steps)
    ensures var c, run := End(Start(clock), steps), Linear(Start(clock), steps);
            && IsRun(Init(clock), run) && After(Init(clock), run) == c.world
            && (forall s, t, id :: s in c.sessions && t in c.sessions && s != t && id in c.sessions[s].chosen ==>
                  id !in c.sessions[t].chosen)
            && (forall i, k ::
                  && 0 <= i < k < |c.world.db.log| && c.world.db.log[i].jobId == c.world.db.log[k].jobId
                  && c.world.db.log[i].kind == EventClaimed && c.world.db.log[k].kind == EventClaimed
                  ==> exists m :: i < m < k && c.world.db.log[m].jobId == c.world.db.log[i].jobId
                                  && IsRequeue(c.world.db.log[m].kind))
  {
    LinearIsRun(Start(clock), steps);
    var c, run := End(Start(clock), steps), Linear(Start(clock), steps);
    forall i, k |
      && 0 <= i < k < |c.world.db.log| && c.world.db.log[i].jobId == c.world.db.log[k].jobId
      && c.world.db.log[i].kind == EventClaimed && c.world.db.log[k].kind == EventClaimed
      ensures exists m :: i < m < k && c.world.db.log[m].jobId == c.world.db.log[i].jobId
                          && IsRequeue(c.world.db.log[m].kind)
    {
      NoDoubleClaim(clock, run, i, k);
    }
  }

  /** No step touches a row, and none ends the claim of `session`; time may pass, other sessions may select. */
  ghost predicate Undisturbed(c: Concurrent, steps: seq<Step>, session: nat)
    requires Interleaving(c, steps)
    decreases |steps|
  {
    steps == [] ||
    (&& steps[0] != Commit(session) && steps[0] != Rollback(session)
     && StepNext(c, steps[0]).world.db.jobs == c.world.db.jobs
     && Undisturbed(StepNext(c, steps[0]), steps[1..], session))
  }

  lemma {:induction false} PendingWaits(c: Concurrent, steps: seq<Step>, session: nat)
    requires LocksOk(c) && Interleaving(c, steps) && session in c.sessions && Undisturbed(c, steps, session)
    ensures var end := End(c, steps);
            && LocksOk(end) && end.world.db.jobs == c.world.db.jobs
            && session in end.sessions && end.sessions[session] == c.sessions[session]
    decreases |steps|
  {
    if steps != [] {
      LocksKept(c, steps[0]);
      PendingWaits(StepNext(c, steps[0]), steps[1..], session);
    }
  }

  /** A claim that found no row locked and is left alone until it commits is an atomic claim, at that later
      time, that skips nothing. */
  lemma UndisturbedClaimSkipsNothing(c: Concurrent, s: Step, steps: seq<Step>)
    requires LocksOk(c) && s.Select? && StepEnabled(c, s) && Locked(c.sessions) == {}
    requires Interleaving(StepNext(c, s), steps) && Undisturbed(StepNext(c, s), steps, s.session)
    ensures var end := End(StepNext(c, s), steps);
            && s.session in end.sessions && StepEnabled(end, Commit(s.session))
            && var a := Atomic(end.sessions[s.session], {});
               Enabled(end.world, a) && Next(end.world, a) == StepNext(end, Commit(s.session)).world
  {
    LocksKept(c, s);
    PendingWaits(StepNext(c, s), steps, s.session);
    var end := End(StepNext(c, s), steps);
    var p := end.sessions[s.session];
    CommitIsClaim(end.world, p);
    assert Skipped(end.world, p) == {};
  }
}
