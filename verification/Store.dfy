/** The storage layer: an object over the three tables whose methods are the statements. */
module Storage {
  import opened Jobs
  import opened Statements
  import opened Reaper
  import opened EveryRunResults
  import opened Shipping

  lemma {:induction false} ClaimRowsSnoc(db: Db, at: int, worker: string, lease: int, chosen: seq<nat>, id: nat)
    requires (forall c :: c in chosen ==> c in db.jobs) && id in db.jobs
    ensures ClaimRows(db, at, worker, lease, chosen + [id]) ==
            ClaimRow(ClaimRows(db, at, worker, lease, chosen), at, id, worker, lease)
    decreases |chosen|
  {
    if chosen == [] {
      assert [id][1..] == [];
    } else {
      ClaimRowsSnoc(ClaimRow(db, at, chosen[0], worker, lease), at, worker, lease, chosen[1..], id);
      assert (chosen + [id])[1..] == chosen[1..] + [id];
    }
  }

  lemma {:induction false} ClaimRowsOthers(db: Db, at: int, worker: string, lease: int, chosen: seq<nat>, id: nat)
    requires (forall c :: c in chosen ==> c in db.jobs) && id in db.jobs && id !in chosen
    ensures ClaimRows(db, at, worker, lease, chosen).jobs[id] == db.jobs[id]
    decreases |chosen|
  {
    if chosen != [] {
      ClaimRowsOthers(ClaimRow(db, at, chosen[0], worker, lease), at, worker, lease, chosen[1..], id);
    }
  }

  /** What a claim of `chosen` returns: each row's id, next attempt, max_attempts and new lease. */
  function TicketsFor(jobs: map<nat, Row>, chosen: seq<nat>, expiry: int): seq<Ticket>
    requires forall c :: c in chosen ==> c in jobs
  {
    seq(|chosen|, i requires 0 <= i < |chosen| =>
      Ticket(chosen[i], jobs[chosen[i]].attempts + 1, jobs[chosen[i]].maxAttempts, expiry))
  }

  /** The best eligible row that is neither skipped nor taken, if there is one. */
  method PickBest(jobs: map<nat, Row>, n: nat, at: int, skipped: set<nat>, taken: seq<nat>) returns (best: Option<nat>)
    requires forall id :: id in jobs ==> id < n
    ensures best.None? ==> forall u :: u in jobs && Eligible(jobs[u], at) && u !in skipped ==> u in taken
    ensures best.Some? ==>
              && best.value in jobs && Eligible(jobs[best.value], at)
              && best.value !in skipped && best.value !in taken
              && forall u :: u in jobs && Eligible(jobs[u], at) && u !in skipped && u !in taken ==>
                   !Precedes(jobs[u], jobs[best.value])
  {
    best := None;
    for id := 0 to n
      invariant best.None? ==> forall u :: u in jobs && u < id && Eligible(jobs[u], at) && u !in skipped ==> u in taken
      invariant best.Some? ==>
                  && best.value in jobs && Eligible(jobs[best.value], at)
                  && best.value !in skipped && best.value !in taken
                  && forall u :: u in jobs && u < id && Eligible(jobs[u], at) && u !in skipped && u !in taken ==>
                       !Precedes(jobs[u], jobs[best.value])
    {
      if id in jobs && Eligible(jobs[id], at) && id !in skipped && id !in taken {
        if best.None? || Precedes(jobs[id], jobs[best.value]) {
          best := Some(id);
        }
      }
    }
  }

  /** The subselect of the claim query: an answer always exists, and this finds one. */
  method SelectEligible(jobs: map<nat, Row>, n: nat, at: int, skipped: set<nat>, limit: nat) returns (chosen: seq<nat>)
    requires forall id :: id in jobs ==> id < n
    ensures ValidSelection(jobs, at, skipped, limit, chosen)
  {
    chosen := [];
    while |chosen| < limit
      invariant Distinct(chosen) && |chosen| <= limit
      invariant forall c :: c in chosen ==> c in jobs && Eligible(jobs[c], at) && c !in skipped
      invariant forall u, c :: u in jobs && Eligible(jobs[u], at) && u !in skipped && u !in chosen && c in chosen ==>
                  !Precedes(jobs[u], jobs[c])
      decreases limit - |chosen|
    {
      var best := PickBest(jobs, n, at, skipped, chosen);
      if best.None? {
        return;
      }
      chosen := chosen + [best.value];
    }
  }

  class Store {
    var jobs: map<nat, Row>
    var nextId: nat
    var events: seq<Event>
    var deadLetters: seq<DeadLetter>
    var shipped: set<nat>

    ghost predicate Valid()
      reads this
    {
      forall id :: id in jobs ==> id < nextId
    }

    ghost function View(): Db
      reads this
    {
      Db(jobs, nextId, events, deadLetters)
    }

    constructor ()
      ensures Valid() && View() == EMPTY && shipped == {}
    {
      jobs, nextId, events, deadLetters, shipped := map[], 0, [], [], {};
    }

    /** Status, priority and max_attempts take the schema's defaults. */
    method Enqueue(now: int, jobType: string, payload: string, traceContext: string) returns (id: nat)
      requires Valid()
      modifies this
      ensures Valid() && shipped == old(shipped) && id == old(nextId)
      ensures View() == InsertJob(old(View()), now, id,
                          NewRow(now, jobType, payload, traceContext, DEFAULT_PRIORITY, DEFAULT_MAX_ATTEMPTS))
      ensures jobs == old(jobs)[id := Row(jobType, payload, traceContext, StatusQueued, 0, 0, 5, now,
                                          None, None, None, now, None, None)]
      ensures events == old(events) + [Event(id, jobType, EventEnqueued, 0, "", "", now)]
      ensures deadLetters == old(deadLetters) && nextId == id + 1
    {
      id := nextId;
      var row := NewRow(now, jobType, payload, traceContext, DEFAULT_PRIORITY, DEFAULT_MAX_ATTEMPTS);
      jobs := jobs[id := row];
      nextId := id + 1;
      events := events + [Event(id, jobType, EventEnqueued, 0, "", "", now)];
    }

    method GetStatus(id: nat) returns (r: Result<Snapshot, StoreError>)
      ensures r == ReadStatus(jobs, id)
      ensures id !in jobs ==> r == Err(NotFound)
      ensures id in jobs ==>
                && r.Ok? && r.value.id == id && r.value.status == jobs[id].status
                && r.value.attempts == jobs[id].attempts && r.value.maxAttempts == jobs[id].maxAttempts
                && r.value.lastError == (match jobs[id].lastError case Some(e) => e case None => "")
    {
      if id !in jobs {
        return Err(NotFound);
      }
      var row := jobs[id];
      var lastError := "";
      if row.lastError.Some? {
        lastError := row.lastError.value;
      }
      r := Ok(Snapshot(id, row.status, row.attempts, row.maxAttempts, lastError));
    }

    /** `locked` are the rows other sessions hold locks on. Postgres rejects a negative LIMIT. */
    method Claim(now: int, worker: string, lease: int, limit: int, locked: set<nat>)
      returns (r: Result<seq<Ticket>, StoreError>, ghost chosen: seq<nat>)
      requires Valid()
      modifies this
      ensures Valid() && shipped == old(shipped)
      ensures limit < 0 ==> r == Err(NegativeLimit) && View() == old(View())
      ensures limit >= 0 ==>
                && ValidSelection(old(jobs), now, locked, limit, chosen)
                && View() == ClaimRows(old(View()), now, worker, lease, chosen)
                && r == Ok(TicketsFor(old(jobs), chosen, now + lease))
    {
      chosen := [];
      if limit < 0 {
        return Err(NegativeLimit), [];
      }
      var ids := SelectEligible(jobs, nextId, now, locked, limit);
      chosen := ids;
      var tickets := [];
      ghost var db := View();
      for i := 0 to |ids|
        invariant shipped == old(shipped) && Valid()
        invariant View() == ClaimRows(db, now, worker, lease, ids[..i])
        invariant tickets == TicketsFor(db.jobs, ids[..i], now + lease)
      {
        ClaimRowsOthers(db, now, worker, lease, ids[..i], ids[i]);
        ClaimRowsSnoc(db, now, worker, lease, ids[..i], ids[i]);
        assert ids[..i + 1] == ids[..i] + [ids[i]];
        var ticket := ClaimOneRow(now, worker, lease, ids[i]);
        tickets := tickets + [ticket];
      }
      assert ids[..|ids|] == ids;
      r := Ok(tickets);
    }

    method ClaimOneRow(now: int, worker: string, lease: int, id: nat) returns (ticket: Ticket)
      requires Valid() && id in jobs
      modifies this
      ensures Valid() && shipped == old(shipped) && View() == ClaimRow(old(View()), now, id, worker, lease)
      ensures ticket == Ticket(id, old(jobs)[id].attempts + 1, old(jobs)[id].maxAttempts, now + lease)
    {
      var row := jobs[id].(status := StatusRunning, claimedBy := Some(worker), claimedAt := Some(now),
                           leaseExpiresAt := Some(now + lease), attempts := jobs[id].attempts + 1);
      jobs := jobs[id := row];
      events := events + [Event(id, row.jobType, EventClaimed, row.attempts, worker, "", now)];
      ticket := Ticket(id, row.attempts, row.maxAttempts, now + lease);
    }

    /** Matches by id only, whatever state the row is in; an unknown id changes nothing. */
    method Complete(now: int, id: nat)
      requires Valid()
      modifies this
      ensures Valid() && shipped == old(shipped) && View() == Statements.Complete(old(View()), now, id)
      ensures id !in old(jobs) ==> View() == old(View())
      ensures id in old(jobs) ==>
                var r := old(jobs)[id];
                && jobs == old(jobs)[id := r.(status := StatusCompleted, completedAt := Some(now))]
                && events == old(events) + [Event(id, r.jobType, EventCompleted, r.attempts, "", "", now)]
                && deadLetters == old(deadLetters)
    {
      if id in jobs {
        var row := jobs[id].(status := StatusCompleted, completedAt := Some(now));
        jobs := jobs[id := row];
        events := events + [Event(id, row.jobType, EventCompleted, row.attempts, "", "", now)];
      }
    }

    method Retry(now: int, id: nat, runAfter: int, message: string)
      requires Valid()
      modifies this
      ensures Valid() && shipped == old(shipped) && View() == Statements.Retry(old(View()), now, id, runAfter, message)
      ensures id !in old(jobs) ==> View() == old(View())
      ensures id in old(jobs) ==>
                var r := old(jobs)[id];
                && jobs == old(jobs)[id :=
                     r.(status := StatusQueued, runAfter := runAfter, lastError := Some(message),
                        claimedBy := None, claimedAt := None, leaseExpiresAt := None)]
                && events == old(events) + [Event(id, r.jobType, EventRetried, r.attempts, "", message, now)]
                && deadLetters == old(deadLetters)
    {
      if id in jobs {
        var row := jobs[id].(status := StatusQueued, runAfter := runAfter, claimedBy := None, claimedAt := None,
                             leaseExpiresAt := None, lastError := Some(message));
        jobs := jobs[id := row];
        events := events + [Event(id, row.jobType, EventRetried, row.attempts, "", message, now)];
      }
    }

    method Fail(now: int, id: nat, message: string) returns (r: Result<(), StoreError>)
      requires Valid()
      modifies this
      ensures Valid() && shipped == old(shipped)
      ensures match Statements.Fail(old(View()), now, id, message)
              case Ok(db) => r.Ok? && View() == db
              case Err(e) => r == Err(e) && View() == old(View())
      ensures r.Err? <==> id in old(jobs) && exists i :: 0 <= i < |old(deadLetters)| && old(deadLetters)[i].jobId == id
      ensures id in old(jobs) && r.Ok? ==>
                var row := old(jobs)[id];
                && jobs == old(jobs)[id :=
                     row.(status := StatusFailed, completedAt := Some(now), lastError := Some(message),
                          claimedBy := None, claimedAt := None, leaseExpiresAt := None)]
                && events == old(events) + [Event(id, row.jobType, EventFailed, row.attempts, "", message, now)]
                && deadLetters == old(deadLetters) +
                     [DeadLetter(id, row.jobType, row.payload, row.attempts, message, now)]
    {
      if id in jobs {
        if HasDeadLetter(deadLetters, id) {
          return Err(UniqueViolation);
        }
        var row := jobs[id].(status := StatusFailed, completedAt := Some(now), claimedBy := None, claimedAt := None,
                             leaseExpiresAt := None, lastError := Some(message));
        jobs := jobs[id := row];
        deadLetters := deadLetters + [DeadLetter(id, row.jobType, row.payload, row.attempts, message, now)];
        events := events + [Event(id, row.jobType, EventFailed, row.attempts, "", message, now)];
      }
      r := Ok(());
    }

    /** The rows the reaper's UPDATE matches. */
    method FindExpired(now: int) returns (order: seq<nat>)
      requires Valid()
      ensures ListsExpired(jobs, now, order)
      ensures forall id :: id in order <==>
                id in jobs && jobs[id].status == StatusRunning &&
                (match jobs[id].leaseExpiresAt case Some(lease) => lease < now case None => false)
    {
      order := [];
      for id := 0 to nextId
        invariant Distinct(order) && forall k :: k in order <==> k in jobs && k < id && Expired(jobs[k], now)
      {
        if id in jobs && Expired(jobs[id], now) {
          order := order + [id];
        }
      }
    }

    /** Returns how many rows were taken back, and how many of them were dead-lettered. */
    method ReapExpiredLeases(now: int) returns (r: Result<(nat, nat), StoreError>, ghost order: seq<nat>)
      requires Valid()
      modifies this
      ensures Valid() && shipped == old(shipped) && ListsExpired(old(jobs), now, order)
      ensures ReapBlocked(old(View()), now) ==> r == Err(UniqueViolation) && View() == old(View())
      ensures !ReapBlocked(old(View()), now) ==>
                && View() == ReapRows(old(View()), now, order)
                && |deadLetters| >= |old(deadLetters)|
                && r == Ok((|order|, |deadLetters| - |old(deadLetters)|))
    {
      var ids := FindExpired(now);
      order := ids;
      TryReapExact(View(), now, ids);
      var buried := |deadLetters|;
      var committed := ReapAll(now, ids);
      r := if committed then Ok((|ids|, |deadLetters| - buried)) else Err(UniqueViolation);
    }

    /** Reaps row by row; a rejected dead letter rolls everything back. */
    method ReapAll(now: int, ids: seq<nat>) returns (committed: bool)
      requires Valid() && forall c :: c in ids ==> c in jobs
      modifies this
      ensures Valid() && shipped == old(shipped) && |deadLetters| >= |old(deadLetters)|
      ensures TryReap(old(View()), now, ids) == if committed then Ok(View()) else Err(UniqueViolation)
      ensures !committed ==> View() == old(View())
    {
      ghost var db := View();
      var jobsBefore, eventsBefore, deadBefore := jobs, events, deadLetters;
      for i := 0 to |ids|
        invariant shipped == old(shipped) && nextId == old(nextId) && Valid()
        invariant forall c :: c in ids ==> c in jobs
        invariant TryReap(db, now, ids) == TryReap(View(), now, ids[i..])
        invariant |deadLetters| >= |old(deadLetters)|
      {
        var id := ids[i];
        assert ids[i..][0] == id && ids[i..][1..] == ids[i + 1..];
        if jobs[id].attempts >= jobs[id].maxAttempts && HasDeadLetter(deadLetters, id) {
          jobs, events, deadLetters := jobsBefore, eventsBefore, deadBefore;
          return false;
        }
        ReapOneRow(now, id);
      }
      committed := true;
    }

    method ReapOneRow(now: int, id: nat)
      requires Valid() && id in jobs
      modifies this
      ensures Valid() && shipped == old(shipped) && nextId == old(nextId)
      ensures View() == ReapRow(old(View()), now, id)
      ensures |deadLetters| >= |old(deadLetters)| && jobs.Keys == old(jobs).Keys
    {
      var exhausted := jobs[id].attempts >= jobs[id].maxAttempts;
      var row := jobs[id].(status := if exhausted then StatusFailed else StatusQueued,
                           completedAt := if exhausted then Some(now) else None,
                           claimedBy := None, claimedAt := None, leaseExpiresAt := None,
                           lastError := Some(LEASE_EXPIRED));
      jobs := jobs[id := row];
      if exhausted {
        deadLetters := deadLetters + [DeadLetter(id, row.jobType, row.payload, row.attempts, LEASE_EXPIRED, now)];
      }
      events := events + [Event(id, row.jobType, if exhausted then EventReapedFailed else EventReapedRetry,
                                row.attempts, "", LEASE_EXPIRED, now)];
    }

    /** Counts the jobs of one status by type; a type with none has no entry. */
    method CountByStatusAndType(status: Status) returns (counts: map<string, nat>)
      requires Valid()
      ensures Tallies(counts, jobs, status)
    {
      counts := map[];
      ghost var done: map<nat, Row> := map[];
      for id := 0 to nextId
        invariant done == map k | k in jobs && k < id :: jobs[k]
        invariant Tallies(counts, done, status)
      {
        ghost var before := done;
        done := map k | k in jobs && k < id + 1 :: jobs[k];
        if id in jobs && jobs[id].status == status {
          var t := jobs[id].jobType;
          TallyAdd(counts, before, done, status, id);
          counts := counts[t := (if t in counts then counts[t] else 0) + 1];
        } else {
          TallySkip(counts, before, done, status);
        }
      }
      assert done == jobs;
    }

    /** Unshipped events, oldest first. */
    method FetchUnshippedEvents(limit: int) returns (r: Result<seq<nat>, StoreError>)
      ensures r == if limit < 0 then Err(NegativeLimit) else Ok(Batch(shipped, |events|, limit))
    {
      if limit < 0 {
        return Err(NegativeLimit);
      }
      var ids := [];
      for i := 0 to |events|
        invariant ids == Batch(shipped, i, limit)
      {
        if i !in shipped && |ids| < limit {
          ids := ids + [i];
        }
      }
      r := Ok(ids);
    }

    /** An id without an outbox row matches nothing. */
    method MarkEventsShipped(ids: seq<nat>)
      modifies this`shipped
      ensures shipped == old(shipped) + set id | id in ids && id < |events|
    {
      if |ids| == 0 {
        return;
      }
      shipped := shipped + set id | id in ids && id < |events|;
    }

    /** The age of the unshipped event with the smallest id, or 0 when all are shipped; an event of this very
        instant gives 0 too. */
    method ShipperLag(now: int) returns (lag: int)
      ensures Unshipped(shipped, |events|) == 0 ==> lag == 0
      ensures Unshipped(shipped, |events|) > 0 ==>
                exists i: nat :: FirstUnshipped(shipped, |events|, i) && lag == now - events[i].occurredAt
      ensures lag == 0 <==> forall i: nat :: FirstUnshipped(shipped, |events|, i) ==> events[i].occurredAt == now
    {
      AllShipped(shipped, |events|);
      for i := 0 to |events|
        invariant forall k: nat :: k < i ==> k in shipped
      {
        if i !in shipped {
          assert FirstUnshipped(shipped, |events|, i);
          return now - events[i].occurredAt;
        }
      }
      lag := 0;
    }
  }

  /** One entry for each type that has a job in `status`, with the number of such jobs. */
  ghost predicate Tallies(counts: map<string, nat>, jobs: map<nat, Row>, status: Status) {
    forall t :: TalliesType(counts, jobs, status, t)
  }

  ghost predicate TalliesType(counts: map<string, nat>, jobs: map<nat, Row>, status: Status, t: string) {
    var n := |JobsByStatusAndType(jobs, status, t)|;
    if t in counts then counts[t] == n > 0 else n == 0
  }

  lemma TallyAdd(counts: map<string, nat>, before: map<nat, Row>, after: map<nat, Row>, status: Status, id: nat)
    requires Tallies(counts, before, status)
    requires id !in before && id in after && after == before[id := after[id]] && after[id].status == status
    ensures var t := after[id].jobType;
            Tallies(counts[t := (if t in counts then counts[t] else 0) + 1], after, status)
  {
    var jobType := after[id].jobType;
    var counts' := counts[jobType := (if jobType in counts then counts[jobType] else 0) + 1];
    forall t ensures TalliesType(counts', after, status, t) {
      assert TalliesType(counts, before, status, t);
      assert JobsByStatusAndType(after, status, t) ==
             JobsByStatusAndType(before, status, t) + if t == jobType then {id} else {};
    }
  }

  lemma TallySkip(counts: map<string, nat>, before: map<nat, Row>, after: map<nat, Row>, status: Status)
    requires Tallies(counts, before, status)
    requires forall id :: id in before ==> id in after && after[id] == before[id]
    requires forall id :: id in after && id !in before ==> after[id].status != status
    ensures Tallies(counts, after, status)
  {
    forall t ensures TalliesType(counts, after, status, t) {
      assert TalliesType(counts, before, status, t);
      assert JobsByStatusAndType(after, status, t) == JobsByStatusAndType(before, status, t);
    }
  }
}
