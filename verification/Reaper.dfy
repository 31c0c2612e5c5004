/** Reap is one statement over any number of rows: it does all of its work or none of it. */
module Reaper {
  import opened Jobs
  import opened Statements
  import opened Runs

  // ----- when the statement aborts -----

  /** The UNIQUE constraint rejects the dead letter of row `id`. */
  ghost predicate Rejected(db: Db, id: nat)
    requires id in db.jobs
  {
    Exhausted(db.jobs[id]) && HasDeadLetter(db.dead, id)
  }

  lemma OthersRejectedAlike(db: Db, now: int, first: nat, id: nat)
    requires first in db.jobs && id in db.jobs && id != first
    ensures Rejected(ReapRow(db, now, first), id) <==> Rejected(db, id)
  {
    var db' := ReapRow(db, now, first);
    if db'.dead != db.dead { DeadLetterOther(db.dead, db'.dead[|db.dead|], id); }
  }

  lemma {:induction false} TryReapRows(db: Db, now: int, order: seq<nat>)
    requires Distinct(order) && forall id :: id in order ==> id in db.jobs
    ensures TryReap(db, now, order) ==
            if exists id :: id in order && Rejected(db, id) then Err(UniqueViolation) else Ok(ReapRows(db, now, order))
    decreases |order|
  {
    if order != [] {
      var first, rest := order[0], order[1..];
      assert order == [first] + rest && first !in rest;
      if !Rejected(db, first) {
        var db' := ReapRow(db, now, first);
        forall id | id in rest ensures Rejected(db', id) <==> Rejected(db, id) {
          OthersRejectedAlike(db, now, first, id);
        }
        TryReapRows(db', now, rest);
      }
    }
  }

  /** Done row by row in any order, the reaper's statement aborts exactly when some expired exhausted row has a
      dead letter at its start: no letter it writes itself is in the way of another. */
  lemma TryReapExact(db: Db, now: int, order: seq<nat>)
    requires ListsExpired(db.jobs, now, order)
    ensures TryReap(db, now, order) ==
            if ReapBlocked(db, now) then Err(UniqueViolation) else Ok(ReapRows(db, now, order))
  {
    TryReapRows(db, now, order);
    assert ReapBlocked(db, now) <==> exists id :: id in order && Rejected(db, id);
  }

  // ----- what it does otherwise -----

  /** The row runs under a lease that ended before `now`. */
  ghost predicate LeaseOver(r: Row, now: int) {
    match r.leaseExpiresAt
    case Some(lease) => r.status == StatusRunning && lease < now
    case None => false
  }

  /** The row a reaped row becomes. */
  ghost predicate ReapedTo(before: Row, after: Row, now: int) {
    after == before.(
      status := if before.attempts >= before.maxAttempts then StatusFailed else StatusQueued,
      completedAt := if before.attempts >= before.maxAttempts then Some(now) else None,
      claimedBy := None, claimedAt := None, leaseExpiresAt := None, lastError := Some(LEASE_EXPIRED))
  }

  function ReapEvent(id: nat, r: Row, now: int): Event {
    Event(id, r.jobType, if r.attempts >= r.maxAttempts then EventReapedFailed else EventReapedRetry,
          r.attempts, "", LEASE_EXPIRED, now)
  }

  /** The rows of `order` that get a dead letter. */
  ghost function Buried(jobs: map<nat, Row>, order: seq<nat>): set<nat>
    requires forall id :: id in order ==> id in jobs
  {
    set id | id in order && Exhausted(jobs[id])
  }

  lemma ReapRowStep(db: Db, now: int, id: nat)
    requires id in db.jobs
    ensures var r := ReapRow(db, now, id);
            && r.jobs == db.jobs[id := r.jobs[id]] && ReapedTo(db.jobs[id], r.jobs[id], now)
            && r.log == db.log + [ReapEvent(id, db.jobs[id], now)]
            && (if Exhausted(db.jobs[id]) then |r.dead| == |db.dead| + 1 && r.dead[|db.dead|].jobId == id
                                               && r.dead[..|db.dead|] == db.dead
                else r.dead == db.dead)
  {
  }

  lemma {:induction false} ReapRowsJobs(db: Db, now: int, order: seq<nat>)
    requires Distinct(order) && forall id :: id in order ==> id in db.jobs
    ensures var r := ReapRows(db, now, order);
            && (forall id :: id in order ==> ReapedTo(db.jobs[id], r.jobs[id], now))
            && (forall id :: id in db.jobs && id !in order ==> r.jobs[id] == db.jobs[id])
    decreases |order|
  {
    if order != [] {
      ReapRowStep(db, now, order[0]);
      assert order[0] !in order[1..];
      ReapRowsJobs(ReapRow(db, now, order[0]), now, order[1..]);
    }
  }

  function ReapEvents(jobs: map<nat, Row>, now: int, order: seq<nat>): seq<Event>
    requires forall id :: id in order ==> id in jobs
  {
    seq(|order|, i requires 0 <= i < |order| => ReapEvent(order[i], jobs[order[i]], now))
  }

  lemma ReapEventsFirst(jobs: map<nat, Row>, jobs': map<nat, Row>, now: int, order: seq<nat>)
    requires order != [] && forall id :: id in order ==> id in jobs
    requires forall id :: id in order[1..] ==> id in jobs' && jobs'[id] == jobs[id]
    ensures ReapEvents(jobs, now, order) ==
            [ReapEvent(order[0], jobs[order[0]], now)] + ReapEvents(jobs', now, order[1..])
  {
    forall i | 0 <= i < |order| - 1
      ensures ReapEvents(jobs, now, order)[i + 1] == ReapEvents(jobs', now, order[1..])[i]
    {
      assert order[1..][i] == order[i + 1] && order[1..][i] in order[1..];
    }
  }

  lemma {:induction false} ReapRowsLog(db: Db, now: int, order: seq<nat>)
    requires Distinct(order) && forall id :: id in order ==> id in db.jobs
    ensures ReapRows(db, now, order).log == db.log + ReapEvents(db.jobs, now, order)
    decreases |order|
  {
    if order != [] {
      ReapRowStep(db, now, order[0]);
      assert order[0] !in order[1..];
      var db1 := ReapRow(db, now, order[0]);
      ReapRowsLog(db1, now, order[1..]);
      ReapEventsFirst(db.jobs, db1.jobs, now, order);
    }
  }

  lemma BuriedFirst(jobs: map<nat, Row>, jobs': map<nat, Row>, order: seq<nat>)
    requires order != [] && order[0] !in order[1..] && forall id :: id in order ==> id in jobs
    requires forall id :: id in order[1..] ==> id in jobs' && jobs'[id] == jobs[id]
    ensures var rest := Buried(jobs', order[1..]);
            && Buried(jobs, order) == rest + (if Exhausted(jobs[order[0]]) then {order[0]} else {})
            && |Buried(jobs, order)| == |rest| + if Exhausted(jobs[order[0]]) then 1 else 0
  {
    assert order == [order[0]] + order[1..];
    assert Buried(jobs, order) == Buried(jobs', order[1..]) + if Exhausted(jobs[order[0]]) then {order[0]} else {};
  }

  lemma {:induction false} ReapRowsDead(db: Db, now: int, order: seq<nat>)
    requires Distinct(order) && forall id :: id in order ==> id in db.jobs
    ensures var r := ReapRows(db, now, order);
            && |r.dead| == |db.dead| + |Buried(db.jobs, order)| && r.dead[..|db.dead|] == db.dead
            && (forall k :: |db.dead| <= k < |r.dead| ==> r.dead[k].jobId in Buried(db.jobs, order))
    decreases |order|
  {
    if order != [] {
      var first, rest := order[0], order[1..];
      ReapRowStep(db, now, first);
      assert first !in rest;
      var db1 := ReapRow(db, now, first);
      ReapRowsDead(db1, now, rest);
      var r := ReapRows(db1, now, rest);
      BuriedFirst(db.jobs, db1.jobs, order);
      assert r.dead[..|db.dead|] == r.dead[..|db1.dead|][..|db.dead|];
      forall k | |db.dead| <= k < |r.dead| ensures r.dead[k].jobId in Buried(db.jobs, order) {
        if k < |db1.dead| { assert r.dead[k] == r.dead[..|db1.dead|][k]; }
      }
    }
  }

  /** A reap that would bury a job twice changes nothing. Any other leaves no expired
      claim behind, touches no other row, writes one event for each row it took and one dead letter for
      each of those that was out of attempts. */
  lemma ReapAllOrNothing(w: World, order: seq<nat>)
    requires Enabled(w, Reap(order))
    ensures Next(w, Reap(order)).db == match TryReap(w.db, w.clock, order) case Ok(db) => db case Err(_) => w.db
    ensures var w' := Next(w, Reap(order));
            if ReapBlocked(w.db, w.clock) then w' == w
            else
              && w'.clock == w.clock && w'.tickets == w.tickets && w'.db.jobs.Keys == w.db.jobs.Keys
              && (forall id :: id in w.db.jobs ==>
                    if LeaseOver(w.db.jobs[id], w.clock) then ReapedTo(w.db.jobs[id], w'.db.jobs[id], w.clock)
                    else w'.db.jobs[id] == w.db.jobs[id])
              && (forall id :: id in w'.db.jobs ==> !LeaseOver(w'.db.jobs[id], w.clock))
              && w'.db.log == w.db.log + ReapEvents(w.db.jobs, w.clock, order)
              && |w'.db.dead| == |w.db.dead| + |Buried(w.db.jobs, order)| && w'.db.dead[..|w.db.dead|] == w.db.dead
              && (forall k :: |w.db.dead| <= k < |w'.db.dead| ==> w'.db.dead[k].jobId in Buried(w.db.jobs, order))
  {
    TryReapExact(w.db, w.clock, order);
    if !ReapBlocked(w.db, w.clock) {
      ReapEffectsOk(w, order);
      ReapEffectsKeepRest(w, order);
      ReapRowsJobs(w.db, w.clock, order);
      ReapRowsLog(w.db, w.clock, order);
      ReapRowsDead(w.db, w.clock, order);
    }
  }

  lemma {:induction false} ReapEffectsKeepRest(w: World, order: seq<nat>)
    requires EffectsOk(w, ReapEffects(order))
    ensures var w' := ApplyAll(w, ReapEffects(order)); w'.clock == w.clock && w'.tickets == w.tickets
    decreases |order|
  {
    if order != [] {
      assert ReapEffects(order)[1..] == ReapEffects(order[1..]);
      ReapEffectsKeepRest(Apply(w, ReapOne(order[0])), order[1..]);
    }
  }
}
