/** What holds in every reachable state, whatever the interleaving: crashes and reports that
    come after the lease included. Each part is kept by every row effect, hence by every
    statement and every run. */
module Invariants {
  import opened Jobs
  import opened Statements
  import opened Runs
  import opened EventLog

  // ----- the parts -----

  ghost predicate RowsOk(w: World) {
    forall id :: id in w.db.jobs ==>
      && id < w.db.nextId
      && w.db.jobs[id].maxAttempts >= 1
      && (w.db.jobs[id].status == StatusRunning ==> w.db.jobs[id].leaseExpiresAt.Some?)
  }

  ghost predicate Holds(w: World, t: Ticket) {
    && t.jobId in w.db.jobs
    && w.db.jobs[t.jobId].status == StatusRunning
    && w.db.jobs[t.jobId].attempts == t.attempts
  }

  /** A ticket is a faithful, unrepeated record of one claim. */
  ghost predicate TicketOk(w: World, t: Ticket) {
    && t.jobId in w.db.jobs
    && 1 <= t.attempts <= w.db.jobs[t.jobId].attempts
    && t.maxAttempts == w.db.jobs[t.jobId].maxAttempts
    && (Holds(w, t) ==> w.db.jobs[t.jobId].leaseExpiresAt == Some(t.expiry))
    && (ReapedAt(w.db.log, t.jobId, t.attempts) ==> t.expiry < w.clock)
  }

  ghost predicate TicketsOk(w: World) {
    && (forall t :: t in w.tickets ==> TicketOk(w, t))
    && (forall t, u :: t in w.tickets && u in w.tickets && t.jobId == u.jobId && t.attempts == u.attempts ==> t == u)
  }

  /** The log replays to the row, and nothing is logged for a job that does not exist. */
  ghost predicate ReplayOk(w: World) {
    forall id: nat :: Replay(w.db.log, id) == RowState(w.db, id)
  }

  /** Every event carries its job's type, and the attempts that the log up to it replays to. */
  ghost predicate EventOk(w: World, i: nat)
    requires i < |w.db.log|
  {
    var e := w.db.log[i];
    && e.jobId in w.db.jobs
    && e.jobType == w.db.jobs[e.jobId].jobType
    && var s := Replay(w.db.log[..i + 1], e.jobId);
       s.Some? && s.value.attempts == e.attempts <= w.db.jobs[e.jobId].attempts
  }

  ghost predicate EventsOk(w: World) {
    forall i :: 0 <= i < |w.db.log| ==> EventOk(w, i)
  }

  /** A running row has not been reaped since it was claimed. */
  ghost predicate ReapsOk(w: World) {
    forall id :: id in w.db.jobs && w.db.jobs[id].status == StatusRunning ==>
      !ReapedAt(w.db.log, id, w.db.jobs[id].attempts)
  }

  ghost predicate Inv(w: World) {
    RowsOk(w) && TicketsOk(w) && ReplayOk(w) && EventsOk(w) && ReapsOk(w)
  }

  // ----- each effect keeps each part -----

  lemma KeepsRows(w: World, e: Effect)
    requires EffectOk(w, e) && RowsOk(w)
    ensures RowsOk(Apply(w, e))
  {
  }

  /** Every effect on a row appends one event, about that row. */
  ghost predicate Logs(w: World, e: Effect) {
    !e.Advance? && !e.Drop?
  }

  lemma LogGrows(w: World, e: Effect)
    requires EffectOk(w, e)
    ensures var w' := Apply(w, e);
            if Logs(w, e)
            then && |w'.db.log| == |w.db.log| + 1 && w'.db.log[..|w.db.log|] == w.db.log
                 && w'.db.log == w.db.log + [w'.db.log[|w.db.log|]]
                 && var ev := w'.db.log[|w.db.log|];
                    && ev.jobId in w'.db.jobs && ev.jobType == w'.db.jobs[ev.jobId].jobType
                    && ev.attempts == w'.db.jobs[ev.jobId].attempts
                    && w'.db.jobs.Keys == w.db.jobs.Keys + {ev.jobId}
                    && (forall id :: id in w.db.jobs && id != ev.jobId ==> w'.db.jobs[id] == w.db.jobs[id])
            else w'.db == w.db
    ensures forall id :: id in w.db.jobs && RowsOk(w) ==>
              && id in Apply(w, e).db.jobs
              && Apply(w, e).db.jobs[id].jobType == w.db.jobs[id].jobType
              && Apply(w, e).db.jobs[id].maxAttempts == w.db.jobs[id].maxAttempts
              && Apply(w, e).db.jobs[id].attempts >= w.db.jobs[id].attempts
  {
  }

  /** The effect writes a dead letter. */
  ghost predicate BuriesRow(w: World, e: Effect)
    requires EffectOk(w, e)
  {
    e.FailOne? || (e.ReapOne? && Exhausted(w.db.jobs[e.id]))
  }

  /** A dead letter is written exactly when a row becomes failed, and copies that row. */
  lemma DeadGrows(w: World, e: Effect)
    requires EffectOk(w, e)
    ensures var w' := Apply(w, e);
            if BuriesRow(w, e)
            then && |w'.db.dead| == |w.db.dead| + 1
                 && w'.db.dead == w.db.dead + [w'.db.dead[|w.db.dead|]]
                 && var d := w'.db.dead[|w.db.dead|];
                    && d.jobId == (if e.FailOne? then e.t.jobId else e.id)
                    && d.jobId in w.db.jobs && d.jobId in w'.db.jobs
                    && !HasDeadLetter(w.db.dead, d.jobId)
                    && w'.db.jobs[d.jobId].status == StatusFailed
                    && d == DeadLetter(d.jobId, w'.db.jobs[d.jobId].jobType, w'.db.jobs[d.jobId].payload,
                                       w'.db.jobs[d.jobId].attempts, d.lastError, w.clock)
                    && w'.db.jobs[d.jobId].lastError == Some(d.lastError)
                    && (forall id :: id in w'.db.jobs && id != d.jobId ==>
                          id in w.db.jobs && w'.db.jobs[id] == w.db.jobs[id])
            else && w'.db.dead == w.db.dead
                 && (forall id :: id in w'.db.jobs && w'.db.jobs[id].status == StatusFailed ==>
                       id in w.db.jobs && w'.db.jobs[id] == w.db.jobs[id])
  {
  }

  ghost function RowState(db: Db, id: nat): Option<LogState> {
    if id in db.jobs then Some(LogState(db.jobs[id].status, db.jobs[id].attempts)) else None
  }

  /** The kind of event an effect logs is what it does to its row. */
  lemma EventMatchesRow(w: World, e: Effect)
    requires EffectOk(w, e) && Logs(w, e)
    ensures var ev := Apply(w, e).db.log[|w.db.log|];
            RowState(Apply(w, e).db, ev.jobId) == ReplayKind(RowState(w.db, ev.jobId), ev.kind)
  {
  }

  lemma KeepsReplayOf(w: World, e: Effect, id: nat)
    requires EffectOk(w, e) && Replay(w.db.log, id) == RowState(w.db, id)
    ensures Replay(Apply(w, e).db.log, id) == RowState(Apply(w, e).db, id)
  {
    LogGrows(w, e);
    if Logs(w, e) { EventMatchesRow(w, e); }
  }

  lemma KeepsReplay(w: World, e: Effect)
    requires EffectOk(w, e) && ReplayOk(w)
    ensures ReplayOk(Apply(w, e))
  {
    forall id: nat ensures Replay(Apply(w, e).db.log, id) == RowState(Apply(w, e).db, id) {
      KeepsReplayOf(w, e, id);
    }
  }

  lemma KeepsEvents(w: World, e: Effect)
    requires EffectOk(w, e) && RowsOk(w) && ReplayOk(w) && EventsOk(w)
    ensures EventsOk(Apply(w, e))
  {
    var w' := Apply(w, e);
    LogGrows(w, e);
    KeepsReplay(w, e);
    forall i | 0 <= i < |w'.db.log| ensures EventOk(w', i) {
      if i < |w.db.log| {
        assert EventOk(w, i);
        assert w'.db.log[..i + 1] == w.db.log[..i + 1];
      } else {
        assert w'.db.log[..i + 1] == w'.db.log;
        assert Replay(w'.db.log, w'.db.log[i].jobId).Some?;
      }
    }
  }

  /** No event runs ahead of its row. */
  lemma ReapedBelow(w: World, id: nat, attempts: nat)
    requires EventsOk(w)
    ensures ReapedAt(w.db.log, id, attempts) ==> id in w.db.jobs && attempts <= w.db.jobs[id].attempts
  {
    if ReapedAt(w.db.log, id, attempts) {
      var i :| 0 <= i < |w.db.log| && w.db.log[i].jobId == id && w.db.log[i].attempts == attempts;
      assert EventOk(w, i);
    }
  }

  lemma KeepsReaps(w: World, e: Effect)
    requires EffectOk(w, e) && Inv(w)
    ensures ReapsOk(Apply(w, e))
  {
    var w' := Apply(w, e);
    LogGrows(w, e);
    forall id | id in w'.db.jobs && w'.db.jobs[id].status == StatusRunning
      ensures !ReapedAt(w'.db.log, id, w'.db.jobs[id].attempts)
    {
      if Logs(w, e) {
        ReapedAtSnoc(w.db.log, w'.db.log[|w.db.log|], id, w'.db.jobs[id].attempts);
      }
      ReapedBelow(w, id, w'.db.jobs[id].attempts);
    }
  }

  lemma KeepsTicket(w: World, e: Effect, t: Ticket)
    requires EffectOk(w, e) && Inv(w) && t in w.tickets
    ensures TicketOk(Apply(w, e), t)
  {
    var w' := Apply(w, e);
    LogGrows(w, e);
    assert TicketOk(w, t);
    if Logs(w, e) {
      ReapedAtSnoc(w.db.log, w'.db.log[|w.db.log|], t.jobId, t.attempts);
    }
  }

  lemma NewTicket(w: World, e: Effect)
    requires EffectOk(w, e) && Inv(w) && e.ClaimOne?
    ensures TicketOk(Apply(w, e), TicketFor(w.db, e.id, e.at, e.lease))
  {
    var w' := Apply(w, e);
    var t := TicketFor(w.db, e.id, e.at, e.lease);
    ReapedBelow(w, t.jobId, t.attempts);
    ReapedAtSnoc(w.db.log, w'.db.log[|w.db.log|], t.jobId, t.attempts);
  }

  lemma KeepsTickets(w: World, e: Effect)
    requires EffectOk(w, e) && Inv(w)
    ensures TicketsOk(Apply(w, e))
  {
    var w' := Apply(w, e);
    forall t | t in w'.tickets ensures TicketOk(w', t) {
      if t in w.tickets { KeepsTicket(w, e, t); } else { NewTicket(w, e); }
    }
    forall t, u | t in w'.tickets && u in w'.tickets && t.jobId == u.jobId && t.attempts == u.attempts
      ensures t == u
    {
      assert t in w.tickets ==> TicketOk(w, t);
      assert u in w.tickets ==> TicketOk(w, u);
    }
  }

  lemma InvEffect(w: World, e: Effect)
    requires EffectOk(w, e) && Inv(w)
    ensures Inv(Apply(w, e))
  {
    KeepsRows(w, e);
    KeepsReplay(w, e);
    KeepsEvents(w, e);
    KeepsReaps(w, e);
    KeepsTickets(w, e);
  }

  // ----- lifting to statements and runs -----

  lemma {:induction false} InvEffects(w: World, es: seq<Effect>)
    requires Inv(w) && EffectsOk(w, es)
    ensures Inv(ApplyAll(w, es))
    decreases |es|
  {
    if es != [] {
      InvEffect(w, es[0]);
      InvEffects(Apply(w, es[0]), es[1..]);
    }
  }

  lemma InvNext(w: World, a: Action)
    requires Inv(w) && Enabled(w, a)
    ensures Inv(Next(w, a))
  {
    EnabledEffectsOk(w, a);
    InvEffects(w, Effects(w, a));
  }

  lemma {:induction false} InvRun(w: World, run: seq<Action>)
    requires Inv(w) && IsRun(w, run)
    ensures Inv(After(w, run))
    decreases |run|
  {
    if run != [] {
      InvNext(w, run[0]);
      InvRun(Next(w, run[0]), run[1..]);
    }
  }

  lemma {:induction false} LogExtendsEffects(w: World, es: seq<Effect>)
    requires EffectsOk(w, es)
    ensures w.db.log <= ApplyAll(w, es).db.log
    decreases |es|
  {
    if es != [] {
      LogGrows(w, es[0]);
      LogExtendsEffects(Apply(w, es[0]), es[1..]);
    }
  }

  lemma {:induction false} LogExtends(w: World, run: seq<Action>)
    requires IsRun(w, run)
    ensures w.db.log <= After(w, run).db.log
    decreases |run|
  {
    if run != [] {
      EnabledEffectsOk(w, run[0]);
      LogExtendsEffects(w, Effects(w, run[0]));
      LogExtends(Next(w, run[0]), run[1..]);
    }
  }

  lemma InvInit(clock: int)
    ensures Inv(Init(clock))
  {
  }
}
