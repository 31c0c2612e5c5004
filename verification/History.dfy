/** What the tables say about each other in every run, late reports and crashes included:
    the log replays to the rows, dead letters are counted by the log, and no job is claimed more than
    2 * max_attempts - 1 times. */
module History {
  import opened Jobs
  import opened Statements
  import opened Runs
  import opened EventLog
  import opened Invariants

  // ----- where events come from -----

  /** A claim event finds a queued row, a reap event a running one, and a job is enqueued once. */
  ghost predicate OriginOk(log: seq<Event>, i: nat)
    requires i < |log|
  {
    var before := Replay(log[..i], log[i].jobId);
    && (log[i].kind == EventEnqueued <==> before.None?)
    && (log[i].kind == EventClaimed ==> before.Some? && before.value.status == StatusQueued)
    && (IsReap(log[i].kind) ==> before.Some? && before.value.status == StatusRunning)
  }

  ghost predicate OriginsOk(log: seq<Event>) {
    forall i :: 0 <= i < |log| ==> OriginOk(log, i)
  }

  lemma EventOrigin(w: World, e: Effect)
    requires EffectOk(w, e) && Inv(w) && Logs(w, e)
    ensures OriginOk(Apply(w, e).db.log, |w.db.log|)
  {
    LogGrows(w, e);
    var log' := Apply(w, e).db.log;
    assert Replay(w.db.log, log'[|w.db.log|].jobId).Some? <==> log'[|w.db.log|].jobId in w.db.jobs;
  }

  lemma KeepsOrigins(w: World, e: Effect)
    requires EffectOk(w, e) && Inv(w) && OriginsOk(w.db.log)
    ensures OriginsOk(Apply(w, e).db.log)
  {
    var log' := Apply(w, e).db.log;
    LogGrows(w, e);
    forall i | 0 <= i < |log'| ensures OriginOk(log', i) {
      if i < |w.db.log| {
        assert OriginOk(w.db.log, i);
        assert log'[..i] == w.db.log[..i] && log'[i] == w.db.log[i];
      } else {
        EventOrigin(w, e);
      }
    }
  }

  // ----- dead letters -----

  function LetterCount(dead: seq<DeadLetter>, id: nat): nat {
    if dead == [] then 0
    else LetterCount(dead[..|dead| - 1], id) + if dead[|dead| - 1].jobId == id then 1 else 0
  }

  const BURIALS: set<EventKind> := {EventFailed, EventReapedFailed}

  ghost predicate Copies(d: DeadLetter, id: nat, r: Row) {
    d.jobId == id && d.jobType == r.jobType && d.payload == r.payload && d.attempts == r.attempts &&
    Some(d.lastError) == r.lastError
  }

  ghost predicate HasCopy(dead: seq<DeadLetter>, id: nat, r: Row) {
    exists i :: 0 <= i < |dead| && Copies(dead[i], id, r)
  }

  ghost predicate LettersOk(w: World) {
    && (forall id: nat :: LetterCount(w.db.dead, id) == Count(w.db.log, id, BURIALS))
    && (forall id: nat :: LetterCount(w.db.dead, id) == if HasDeadLetter(w.db.dead, id) then 1 else 0)
    && (forall id :: id in w.db.jobs && w.db.jobs[id].status == StatusFailed ==>
          HasCopy(w.db.dead, id, w.db.jobs[id]))
  }

  lemma KeepsCopies(w: World, e: Effect, id: nat)
    requires EffectOk(w, e) && LettersOk(w)
    requires id in Apply(w, e).db.jobs && Apply(w, e).db.jobs[id].status == StatusFailed
    ensures HasCopy(Apply(w, e).db.dead, id, Apply(w, e).db.jobs[id])
  {
    var w' := Apply(w, e);
    DeadGrows(w, e);
    if BuriesRow(w, e) && w'.db.dead[|w.db.dead|].jobId == id {
      assert Copies(w'.db.dead[|w.db.dead|], id, w'.db.jobs[id]);
    } else {
      assert HasCopy(w.db.dead, id, w.db.jobs[id]);
      var i :| 0 <= i < |w.db.dead| && Copies(w.db.dead[i], id, w.db.jobs[id]);
      assert w'.db.dead[i] == w.db.dead[i];
    }
  }

  lemma BurialEvent(w: World, e: Effect)
    requires EffectOk(w, e) && Logs(w, e)
    ensures var ev := Apply(w, e).db.log[|w.db.log|];
            && (ev.kind in BURIALS <==> BuriesRow(w, e))
            && (BuriesRow(w, e) ==> ev.jobId == Apply(w, e).db.dead[|w.db.dead|].jobId)
  {
  }

  lemma KeepsLetters(w: World, e: Effect)
    requires EffectOk(w, e) && Inv(w) && LettersOk(w)
    ensures LettersOk(Apply(w, e))
  {
    var w' := Apply(w, e);
    LogGrows(w, e);
    DeadGrows(w, e);
    if Logs(w, e) { BurialEvent(w, e); }
    forall id: nat
      ensures LetterCount(w'.db.dead, id) == Count(w'.db.log, id, BURIALS)
      ensures LetterCount(w'.db.dead, id) == if HasDeadLetter(w'.db.dead, id) then 1 else 0
    {
      assert LetterCount(w.db.dead, id) == Count(w.db.log, id, BURIALS);
      if BuriesRow(w, e) {
        assert w'.db.dead[..|w.db.dead|] == w.db.dead;
        DeadLetterOther(w.db.dead, w'.db.dead[|w.db.dead|], id);
      }
    }
    forall id | id in w'.db.jobs && w'.db.jobs[id].status == StatusFailed
      ensures HasCopy(w'.db.dead, id, w'.db.jobs[id])
    {
      KeepsCopies(w, e, id);
    }
  }

  // ----- how often a job can be claimed -----

  function Claims(log: seq<Event>, id: nat): nat { Count(log, id, {EventClaimed}) }
  function Retries(log: seq<Event>, id: nat): nat { Count(log, id, {EventRetried}) }
  function ReapRetries(log: seq<Event>, id: nat): nat { Count(log, id, {EventReapedRetry}) }

  /** The outstanding tickets of job `id` that may still send it back to the queue. */
  ghost function Retriable(tickets: set<Ticket>, id: nat): set<Ticket> {
    set t | t in tickets && MayRetry(t, id)
  }

  predicate MayRetry(t: Ticket, id: nat) {
    t.jobId == id && t.attempts < t.maxAttempts
  }

  lemma RetriableAdd(tickets: set<Ticket>, t: Ticket, id: nat)
    ensures |Retriable(tickets + {t}, id)| <= |Retriable(tickets, id)| + if MayRetry(t, id) then 1 else 0
  {
    assert Retriable(tickets + {t}, id) == Retriable(tickets, id) + if MayRetry(t, id) then {t} else {};
  }

  lemma RetriableRemove(tickets: set<Ticket>, t: Ticket, id: nat)
    requires t in tickets
    ensures |Retriable(tickets - {t}, id)| == |Retriable(tickets, id)| - if MayRetry(t, id) then 1 else 0
  {
    assert Retriable(tickets - {t}, id) == Retriable(tickets, id) - {t};
    assert t in Retriable(tickets, id) <==> MayRetry(t, id);
  }

  ghost function Min(a: int, b: int): int { if a <= b then a else b }

  /** Each attempt below max_attempts pays for at most one retry, by its ticket, and at most one
      reaped_retry, by its running row; each claim but the first needs one of the two. */
  ghost predicate BoundOk(w: World, id: nat)
    requires id in w.db.jobs
  {
    && Count(w.db.log, id, {EventEnqueued}) == 1
    && NumbersOk(w.db.jobs[id], Claims(w.db.log, id), Retries(w.db.log, id), ReapRetries(w.db.log, id),
                 |Retriable(w.tickets, id)|)
  }

  ghost predicate NumbersOk(r: Row, claims: int, retries: int, reaps: int, retriable: int) {
    && claims == r.attempts
    && retries + retriable <= Min(claims, r.maxAttempts - 1)
    && reaps <= Min(claims, r.maxAttempts - 1)
    && (r.status == StatusRunning ==> reaps < claims)
    && claims <= retries + reaps + (if r.status == StatusQueued then 0 else 1)
  }

  ghost predicate BoundsOk(w: World) {
    && (forall id :: id in w.db.jobs ==> BoundOk(w, id))
    && (forall id: nat, kinds: set<EventKind> :: id !in w.db.jobs ==> Count(w.db.log, id, kinds) == 0)
  }

  /** How one effect moves the numbers of `BoundOk`. */
  lemma CountsMove(w: World, e: Effect, id: nat, kinds: set<EventKind>)
    requires EffectOk(w, e)
    ensures var w' := Apply(w, e);
            Count(w'.db.log, id, kinds) == Count(w.db.log, id, kinds) +
              if Logs(w, e) && w'.db.log[|w.db.log|].jobId == id && w'.db.log[|w.db.log|].kind in kinds then 1 else 0
  {
    LogGrows(w, e);
  }

  lemma RetriableMoves(w: World, e: Effect, id: nat)
    requires EffectOk(w, e)
    ensures |Retriable(Apply(w, e).tickets, id)| <= |Retriable(w.tickets, id)| +
              (if e.ClaimOne? && e.id == id && w.db.jobs[id].attempts + 1 < w.db.jobs[id].maxAttempts then 1 else 0)
              - (if e.RetryOne? && e.t.jobId == id then 1 else 0)
  {
    match e
    case ClaimOne(_, _, at, lease) => RetriableAdd(w.tickets, TicketFor(w.db, e.id, at, lease), id);
    case RetryOne(t, _, _) => RetriableRemove(w.tickets, t, id);
    case CompleteOne(t) => RetriableRemove(w.tickets, t, id);
    case FailOne(t, _) => RetriableRemove(w.tickets, t, id);
    case Drop(t) => RetriableRemove(w.tickets, t, id);
    case _ =>
  }

  /** What an event that is logged when row `r` becomes row `r'` tells about them. */
  ghost predicate Tells(kind: EventKind, r: Row, r': Row) {
    && kind != EventEnqueued
    && r'.maxAttempts == r.maxAttempts
    && r'.attempts == r.attempts + (if kind == EventClaimed then 1 else 0)
    && (kind == EventClaimed ==> r.status == StatusQueued && r'.status == StatusRunning)
    && (IsRequeue(kind) <==> kind != EventClaimed && r'.status == StatusQueued)
    && (kind == EventReapedRetry ==> r.status == StatusRunning && r.attempts < r.maxAttempts)
    && (IsDeparture(kind) ==> Terminal(r'.status))
  }

  lemma EventTells(w: World, e: Effect)
    requires EffectOk(w, e) && Logs(w, e) && !e.Insert?
    ensures var ev := Apply(w, e).db.log[|w.db.log|];
            && ev.jobId in w.db.jobs && Tells(ev.kind, w.db.jobs[ev.jobId], Apply(w, e).db.jobs[ev.jobId])
            && (ev.kind == EventClaimed <==> e.ClaimOne? && e.id == ev.jobId)
            && (ev.kind == EventRetried <==> e.RetryOne? && e.t.jobId == ev.jobId)
  {
  }

  /** How many more retries the tickets may pay for after an event of that kind. */
  function TicketShift(kind: EventKind, r': Row): int {
    if kind == EventClaimed && r'.attempts < r'.maxAttempts then 1 else if kind == EventRetried then -1 else 0
  }

  lemma NumbersMove(r: Row, r': Row, kind: EventKind, claims: int, retries: int, reaps: int, n: int, n': int)
    requires NumbersOk(r, claims, retries, reaps, n) && Tells(kind, r, r') && n' <= n + TicketShift(kind, r')
    ensures NumbersOk(r', claims + (if kind == EventClaimed then 1 else 0),
                      retries + (if kind == EventRetried then 1 else 0),
                      reaps + (if kind == EventReapedRetry then 1 else 0), n')
  {
  }

  lemma MovedBound(w: World, w': World, id: nat, ev: Event)
    requires id in w.db.jobs && id in w'.db.jobs && BoundOk(w, id)
    requires w'.db.log == w.db.log + [ev] && ev.jobId == id && Tells(ev.kind, w.db.jobs[id], w'.db.jobs[id])
    requires |Retriable(w'.tickets, id)| <= |Retriable(w.tickets, id)| + TicketShift(ev.kind, w'.db.jobs[id])
    ensures BoundOk(w', id)
  {
    assert w'.db.log[..|w.db.log|] == w.db.log;
    NumbersMove(w.db.jobs[id], w'.db.jobs[id], ev.kind, Claims(w.db.log, id), Retries(w.db.log, id),
                ReapRetries(w.db.log, id), |Retriable(w.tickets, id)|, |Retriable(w'.tickets, id)|);
  }

  lemma QuietBound(w: World, w': World, id: nat)
    requires id in w.db.jobs && id in w'.db.jobs && BoundOk(w, id) && w'.db.jobs[id] == w.db.jobs[id]
    requires forall kinds :: Count(w'.db.log, id, kinds) == Count(w.db.log, id, kinds)
    requires |Retriable(w'.tickets, id)| <= |Retriable(w.tickets, id)|
    ensures BoundOk(w', id)
  {
  }

  lemma KeepsBound(w: World, e: Effect, id: nat)
    requires EffectOk(w, e) && id in w.db.jobs && id < w.db.nextId && BoundOk(w, id)
    ensures id in Apply(w, e).db.jobs && BoundOk(Apply(w, e), id)
  {
    var w' := Apply(w, e);
    LogGrows(w, e);
    RetriableMoves(w, e, id);
    if Logs(w, e) && w'.db.log[|w.db.log|].jobId == id {
      EventTells(w, e);
      MovedBound(w, w', id, w'.db.log[|w.db.log|]);
    } else {
      forall kinds ensures Count(w'.db.log, id, kinds) == Count(w.db.log, id, kinds) {
        CountsMove(w, e, id, kinds);
      }
      QuietBound(w, w', id);
    }
  }

  lemma NewBound(w: World, e: Effect)
    requires EffectOk(w, e) && Inv(w) && BoundsOk(w) && e.Insert?
    ensures BoundOk(Apply(w, e), e.id)
  {
    CountsMove(w, e, e.id, {EventClaimed});
    CountsMove(w, e, e.id, {EventRetried});
    CountsMove(w, e, e.id, {EventReapedRetry});
    CountsMove(w, e, e.id, {EventEnqueued});
    assert Retriable(w.tickets, e.id) == {};
  }

  lemma KeepsBounds(w: World, e: Effect)
    requires EffectOk(w, e) && Inv(w) && BoundsOk(w)
    ensures BoundsOk(Apply(w, e))
  {
    var w' := Apply(w, e);
    forall id | id in w'.db.jobs ensures BoundOk(w', id) {
      if id in w.db.jobs { KeepsBound(w, e, id); } else { NewBound(w, e); }
    }
    forall id: nat, kinds: set<EventKind> | id !in w'.db.jobs ensures Count(w'.db.log, id, kinds) == 0 {
      LogGrows(w, e);
      CountsMove(w, e, id, kinds);
    }
  }

  // ----- all of it, in every run -----

  ghost predicate HistoryInv(w: World) {
    Inv(w) && OriginsOk(w.db.log) && LettersOk(w) && BoundsOk(w)
  }

  lemma {:induction false} HistoryEffects(w: World, es: seq<Effect>)
    requires HistoryInv(w) && EffectsOk(w, es)
    ensures HistoryInv(ApplyAll(w, es))
    decreases |es|
  {
    if es != [] {
      InvEffect(w, es[0]);
      KeepsOrigins(w, es[0]);
      KeepsLetters(w, es[0]);
      KeepsBounds(w, es[0]);
      HistoryEffects(Apply(w, es[0]), es[1..]);
    }
  }

  lemma {:induction false} HistoryRun(w: World, run: seq<Action>)
    requires HistoryInv(w) && IsRun(w, run)
    ensures HistoryInv(After(w, run))
    decreases |run|
  {
    if run != [] {
      EnabledEffectsOk(w, run[0]);
      HistoryEffects(w, Effects(w, run[0]));
      HistoryRun(Next(w, run[0]), run[1..]);
    }
  }

  lemma EveryRun(clock: int, run: seq<Action>)
    requires IsRun(Init(clock), run)
    ensures HistoryInv(After(Init(clock), run))
  {
    HistoryRun(Init(clock), run);
  }
}
