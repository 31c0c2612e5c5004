/** The lifecycle protocol as a state machine: any number of workers, crashes, late reports and
    the reaper act on one database. Each `Action` is one statement of one process, executed
    atomically at the clock's current time. A claim carries the time `at` its transaction began.

    Assumptions: one monotone clock; statements are atomic; every row has max_attempts >= 1
    (the schema default is 5); rows are created only by `Enqueue` and never deleted. */
module Runs {
  import opened Jobs
  import opened Statements
  import opened Paths

  /** `tickets` are the claims some worker still holds: claimed and not yet reported. */
  datatype World = World(db: Db, clock: int, tickets: set<Ticket>)

  function Init(clock: int): World {
    World(EMPTY, clock, {})
  }

  // ----- effects: what a statement does to one row -----

  datatype Effect =
    | Advance(dt: nat)
    | Insert(id: nat, row: Row)
    | ClaimOne(id: nat, worker: string, at: int, lease: int)
    | CompleteOne(t: Ticket)
    | RetryOne(t: Ticket, runAfter: int, message: string)
    | FailOne(t: Ticket, message: string)
    | Drop(t: Ticket)
    | ReapOne(id: nat)

  ghost predicate EffectOk(w: World, e: Effect) {
    match e
    case Advance(_) => true
    case Insert(id, row) =>
      && id >= w.db.nextId && row.maxAttempts >= 1
      && row == NewRow(w.clock, row.jobType, row.payload, row.traceContext, row.priority, row.maxAttempts)
    case ClaimOne(id, _, at, _) => at <= w.clock && id in w.db.jobs && Eligible(w.db.jobs[id], at)
    case CompleteOne(t) => t in w.tickets && t.jobId in w.db.jobs
    case RetryOne(t, _, _) => t in w.tickets && t.jobId in w.db.jobs && t.attempts < t.maxAttempts
    case FailOne(t, _) =>
      t in w.tickets && t.jobId in w.db.jobs && t.attempts >= t.maxAttempts && !HasDeadLetter(w.db.dead, t.jobId)
    case Drop(t) => t in w.tickets
    case ReapOne(id) =>
      && id in w.db.jobs && Expired(w.db.jobs[id], w.clock)
      && !(Exhausted(w.db.jobs[id]) && HasDeadLetter(w.db.dead, id))
  }

  function TicketFor(db: Db, id: nat, at: int, lease: int): Ticket
    requires id in db.jobs
  {
    Ticket(id, db.jobs[id].attempts + 1, db.jobs[id].maxAttempts, at + lease)
  }

  ghost function Apply(w: World, e: Effect): World
    requires EffectOk(w, e)
  {
    match e
    case Advance(dt) => w.(clock := w.clock + dt)
    case Insert(id, row) => w.(db := InsertJob(w.db, w.clock, id, row))
    case ClaimOne(id, worker, at, lease) =>
      World(ClaimRow(w.db, at, id, worker, lease), w.clock, w.tickets + {TicketFor(w.db, id, at, lease)})
    case CompleteOne(t) => World(CompleteRow(w.db, w.clock, t.jobId), w.clock, w.tickets - {t})
    case RetryOne(t, runAfter, message) =>
      World(RetryRow(w.db, w.clock, t.jobId, runAfter, message), w.clock, w.tickets - {t})
    case FailOne(t, message) => World(FailRow(w.db, w.clock, t.jobId, message), w.clock, w.tickets - {t})
    case Drop(t) => w.(tickets := w.tickets - {t})
    case ReapOne(id) => w.(db := ReapRow(w.db, w.clock, id))
  }

  ghost predicate EffectsOk(w: World, es: seq<Effect>)
    decreases |es|
  {
    es == [] || (EffectOk(w, es[0]) && EffectsOk(Apply(w, es[0]), es[1..]))
  }

  ghost function ApplyAll(w: World, es: seq<Effect>): World
    requires EffectsOk(w, es)
    decreases |es|
  {
    if es == [] then w else ApplyAll(Apply(w, es[0]), es[1..])
  }

  // ----- actions: one statement each -----

  datatype Action =
    | Tick(dt: nat)
    | Enqueue(id: nat, jobType: string, payload: string, trace: string, priority: int, maxAttempts: int)
    | Claim(worker: string, at: int, lease: int, limit: nat, skipped: set<nat>, chosen: seq<nat>)
    | Report(t: Ticket, result: HandlerResult)
    | Crash(t: Ticket)
    | Reap(order: seq<nat>)

  ghost predicate Enabled(w: World, a: Action) {
    match a
    case Tick(_) => true
    case Enqueue(id, _, _, _, _, maxAttempts) => id >= w.db.nextId && maxAttempts >= 1
    case Claim(_, at, _, limit, skipped, chosen) =>
      at <= w.clock && ValidSelection(w.db.jobs, at, skipped, limit, chosen)
    case Report(t, _) => t in w.tickets
    case Crash(t) => t in w.tickets
    case Reap(order) => ListsExpired(w.db.jobs, w.clock, order)
  }

  function ClaimEffects(worker: string, at: int, lease: int, chosen: seq<nat>): seq<Effect>
    decreases |chosen|
  {
    if chosen == [] then []
    else [ClaimOne(chosen[0], worker, at, lease)] + ClaimEffects(worker, at, lease, chosen[1..])
  }

  function ReapEffects(order: seq<nat>): seq<Effect>
    decreases |order|
  {
    if order == [] then [] else [ReapOne(order[0])] + ReapEffects(order[1..])
  }

  /** A worker's report: the choice between complete, fail and retry reads only the ticket.
      Nobody re-sends an aborted `Fail`, so it uses the ticket up. */
  ghost function ReportEffect(w: World, t: Ticket, result: HandlerResult): Effect {
    if t.jobId !in w.db.jobs then Drop(t)
    else match result
      case Success => CompleteOne(t)
      case Error(message, runAfter) =>
        if t.attempts < t.maxAttempts then RetryOne(t, runAfter, message)
        else if HasDeadLetter(w.db.dead, t.jobId) then Drop(t)
        else FailOne(t, message)
  }

  ghost function Effects(w: World, a: Action): seq<Effect> {
    match a
    case Tick(dt) => [Advance(dt)]
    case Enqueue(id, jobType, payload, trace, priority, maxAttempts) =>
      [Insert(id, NewRow(w.clock, jobType, payload, trace, priority, maxAttempts))]
    case Claim(worker, at, lease, _, _, chosen) => ClaimEffects(worker, at, lease, chosen)
    case Report(t, result) => [ReportEffect(w, t, result)]
    case Crash(t) => [Drop(t)]
    case Reap(order) => if ReapBlocked(w.db, w.clock) then [] else ReapEffects(order)
  }

  lemma ClaimEffectsOk(w: World, worker: string, at: int, lease: int, chosen: seq<nat>)
    requires at <= w.clock && Distinct(chosen)
    requires forall c :: c in chosen ==> c in w.db.jobs && Eligible(w.db.jobs[c], at)
    ensures EffectsOk(w, ClaimEffects(worker, at, lease, chosen))
    ensures ApplyAll(w, ClaimEffects(worker, at, lease, chosen)).db == ClaimRows(w.db, at, worker, lease, chosen)
    decreases |chosen|
  {
    if chosen != [] {
      var e := ClaimOne(chosen[0], worker, at, lease);
      var w' := Apply(w, e);
      forall c | c in chosen[1..] ensures c in w'.db.jobs && Eligible(w'.db.jobs[c], at) {
        assert c != chosen[0];
      }
      ClaimEffectsOk(w', worker, at, lease, chosen[1..]);
      assert ClaimEffects(worker, at, lease, chosen)[1..] == ClaimEffects(worker, at, lease, chosen[1..]);
    }
  }

  lemma DeadLetterOther(dead: seq<DeadLetter>, d: DeadLetter, id: nat)
    ensures HasDeadLetter(dead + [d], id) <==> HasDeadLetter(dead, id) || d.jobId == id
  {
    var all := dead + [d];
    if HasDeadLetter(dead, id) {
      var i :| 0 <= i < |dead| && dead[i].jobId == id;
      assert all[i].jobId == id;
    }
    assert all[|dead|] == d;
  }

  lemma ReapEffectsOk(w: World, order: seq<nat>)
    requires Distinct(order)
    requires forall c :: c in order ==> c in w.db.jobs && Expired(w.db.jobs[c], w.clock)
    requires forall c :: c in order ==> !(Exhausted(w.db.jobs[c]) && HasDeadLetter(w.db.dead, c))
    ensures EffectsOk(w, ReapEffects(order))
    ensures ApplyAll(w, ReapEffects(order)).db == ReapRows(w.db, w.clock, order)
    decreases |order|
  {
    if order != [] {
      var w' := Apply(w, ReapOne(order[0]));
      forall c | c in order[1..]
        ensures c in w'.db.jobs && Expired(w'.db.jobs[c], w'.clock)
        ensures !(Exhausted(w'.db.jobs[c]) && HasDeadLetter(w'.db.dead, c))
      {
        assert c != order[0];
        if w'.db.dead != w.db.dead {
          DeadLetterOther(w.db.dead, w'.db.dead[|w.db.dead|], c);
        }
      }
      ReapEffectsOk(w', order[1..]);
      assert ReapEffects(order)[1..] == ReapEffects(order[1..]);
    }
  }

  lemma EnabledEffectsOk(w: World, a: Action)
    requires Enabled(w, a)
    ensures EffectsOk(w, Effects(w, a))
  {
    match a
    case Claim(worker, at, lease, _, _, chosen) => ClaimEffectsOk(w, worker, at, lease, chosen);
    case Reap(order) => if !ReapBlocked(w.db, w.clock) { ReapEffectsOk(w, order); }
    case _ =>
      var es := Effects(w, a);
      assert EffectOk(w, es[0]) && es[1..] == [];
  }

  ghost function Next(w: World, a: Action): World
    requires Enabled(w, a)
  {
    EnabledEffectsOk(w, a);
    ApplyAll(w, Effects(w, a))
  }

  /** Every step changes the database exactly as the store's statement does. */
  lemma NextRunsStatement(w: World, a: Action)
    requires Enabled(w, a)
    ensures var db' := Next(w, a).db;
            match a
            case Tick(_) => db' == w.db
            case Crash(_) => db' == w.db
            case Enqueue(id, jobType, payload, trace, priority, maxAttempts) =>
              db' == InsertJob(w.db, w.clock, id, NewRow(w.clock, jobType, payload, trace, priority, maxAttempts))
            case Claim(worker, at, lease, _, _, chosen) => db' == ClaimRows(w.db, at, worker, lease, chosen)
            case Report(t, Success) => db' == Complete(w.db, w.clock, t.jobId)
            case Report(t, Error(message, runAfter)) =>
              if t.attempts >= t.maxAttempts
              then db' == match Fail(w.db, w.clock, t.jobId, message) case Ok(d) => d case Err(_) => w.db
              else db' == Retry(w.db, w.clock, t.jobId, runAfter, message)
            case Reap(order) => db' == if ReapBlocked(w.db, w.clock) then w.db else ReapRows(w.db, w.clock, order)
  {
    EnabledEffectsOk(w, a);
    match a
    case Claim(worker, at, lease, _, _, chosen) => ClaimEffectsOk(w, worker, at, lease, chosen);
    case Reap(order) => if !ReapBlocked(w.db, w.clock) { ReapEffectsOk(w, order); }
    case _ => OneEffect(w, Effects(w, a)[0]);
  }

  /** A claim hands out one ticket for each row it takes, with the row's next attempt and its lease. */
  lemma {:induction false} ClaimHandsOutTickets(w: World, worker: string, at: int, lease: int, chosen: seq<nat>)
    requires at <= w.clock && Distinct(chosen)
    requires forall c :: c in chosen ==> c in w.db.jobs && Eligible(w.db.jobs[c], at)
    requires EffectsOk(w, ClaimEffects(worker, at, lease, chosen))
    ensures ApplyAll(w, ClaimEffects(worker, at, lease, chosen)).tickets ==
            w.tickets + set id | id in chosen :: TicketFor(w.db, id, at, lease)
    ensures ApplyAll(w, ClaimEffects(worker, at, lease, chosen)).clock == w.clock
    decreases |chosen|
  {
    if chosen != [] {
      var w' := Apply(w, ClaimOne(chosen[0], worker, at, lease));
      assert ClaimEffects(worker, at, lease, chosen)[1..] == ClaimEffects(worker, at, lease, chosen[1..]);
      forall c | c in chosen[1..]
        ensures c in w'.db.jobs && Eligible(w'.db.jobs[c], at)
        ensures TicketFor(w'.db, c, at, lease) == TicketFor(w.db, c, at, lease)
      {
        assert c != chosen[0];
      }
      ClaimHandsOutTickets(w', worker, at, lease, chosen[1..]);
      TicketSets(w.db, w'.db, at, lease, chosen);
    }
  }

  lemma TicketSets(db: Db, db': Db, at: int, lease: int, chosen: seq<nat>)
    requires chosen != [] && forall c :: c in chosen ==> c in db.jobs
    requires forall c :: c in chosen[1..] ==>
               c in db'.jobs && TicketFor(db', c, at, lease) == TicketFor(db, c, at, lease)
    ensures (set id | id in chosen :: TicketFor(db, id, at, lease)) ==
            {TicketFor(db, chosen[0], at, lease)} + set id | id in chosen[1..] :: TicketFor(db', id, at, lease)
  {
    assert chosen == [chosen[0]] + chosen[1..];
  }

  lemma OneEffect(w: World, e: Effect)
    requires EffectOk(w, e)
    ensures EffectsOk(w, [e]) && ApplyAll(w, [e]) == Apply(w, e)
  {
    assert [e][1..] == [];
    assert EffectsOk(Apply(w, e), []);
  }

  // ----- runs -----

  ghost predicate IsRun(w: World, run: seq<Action>)
    decreases |run|
  {
    run == [] || (Enabled(w, run[0]) && IsRun(Next(w, run[0]), run[1..]))
  }

  ghost function After(w: World, run: seq<Action>): World
    requires IsRun(w, run)
    decreases |run|
  {
    if run == [] then w else After(Next(w, run[0]), run[1..])
  }

  lemma Prepend(w: World, a: Action, rest: seq<Action>)
    requires Enabled(w, a) && IsRun(Next(w, a), rest)
    ensures IsRun(w, [a] + rest) && After(w, [a] + rest) == After(Next(w, a), rest)
  {
    assert ([a] + rest)[0] == a && ([a] + rest)[1..] == rest;
  }

  ghost predicate CanStep(w: World, a: Action) {
    Enabled(w, a)
  }

  ghost function StepOrStay(w: World, a: Action): World {
    if Enabled(w, a) then Next(w, a) else w
  }

  /** A run is a path of the state machine. */
  lemma {:induction false} RunIsPath(w: World, run: seq<Action>)
    ensures IsRun(w, run) <==> IsPath(CanStep, StepOrStay, w, run)
    ensures IsRun(w, run) ==> After(w, run) == Follow(StepOrStay, w, run)
    decreases |run|
  {
    if run != [] && Enabled(w, run[0]) { RunIsPath(Next(w, run[0]), run[1..]); }
  }

  lemma RunConcat(w: World, first: seq<Action>, second: seq<Action>)
    requires IsRun(w, first) && IsRun(After(w, first), second)
    ensures IsRun(w, first + second) && After(w, first + second) == After(After(w, first), second)
  {
    RunIsPath(w, first);
    RunIsPath(After(w, first), second);
    PathConcat(CanStep, StepOrStay, w, first, second);
    RunIsPath(w, first + second);
  }

  lemma OneStep(w: World, a: Action)
    requires Enabled(w, a)
    ensures IsRun(w, [a]) && After(w, [a]) == Next(w, a)
  {
    assert [a][1..] == [];
    assert IsRun(Next(w, a), []);
  }

  lemma TickOnly(w: World, dt: nat)
    ensures Enabled(w, Tick(dt)) && Next(w, Tick(dt)) == w.(clock := w.clock + dt)
  {
    OneEffect(w, Advance(dt));
  }

  lemma TwoSteps(w: World, a: Action, b: Action)
    requires Enabled(w, a) && Enabled(Next(w, a), b)
    ensures IsRun(w, [a, b]) && After(w, [a, b]) == Next(Next(w, a), b)
  {
    OneStep(Next(w, a), b);
    assert [a, b][1..] == [b];
  }
}
