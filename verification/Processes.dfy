/** The processes that drive the store: a worker reporting on a claimed job, one cycle of the shipper,
    and the status watcher. */
module Processes {
  import opened Jobs
  import opened Statements
  import opened Runs
  import opened Invariants
  import opened Fencing
  import opened Shipping
  import opened Storage

  // ----- worker -----

  /** Records the outcome of a claimed job. Whether a failed handler means a retry or the end is decided by
      the ticket alone; the store's errors are only logged. */
  method Process(store: Store, now: int, t: Ticket, result: HandlerResult)
    requires store.Valid()
    modifies store
    ensures store.Valid() && store.shipped == old(store.shipped)
    ensures match result
            case Success => store.View() == Statements.Complete(old(store.View()), now, t.jobId)
            case Error(message, runAfter) =>
              if t.attempts >= t.maxAttempts
              then store.View() == match Statements.Fail(old(store.View()), now, t.jobId, message)
                                   case Ok(db) => db case Err(_) => old(store.View())
              else store.View() == Statements.Retry(old(store.View()), now, t.jobId, runAfter, message)
  {
    match result
    case Success => store.Complete(now, t.jobId);
    case Error(message, runAfter) =>
      if t.attempts >= t.maxAttempts {
        var r := store.Fail(now, t.jobId, message);
      } else {
        store.Retry(now, t.jobId, runAfter, message);
      }
  }

  /** On the database a worker's report does what the protocol's report step does. */
  lemma ProcessIsReport(w: World, t: Ticket, result: HandlerResult, db': Db)
    requires t in w.tickets
    requires match result
             case Success => db' == Statements.Complete(w.db, w.clock, t.jobId)
             case Error(message, runAfter) =>
               if t.attempts >= t.maxAttempts
               then db' == match Statements.Fail(w.db, w.clock, t.jobId, message) case Ok(d) => d case Err(_) => w.db
               else db' == Statements.Retry(w.db, w.clock, t.jobId, runAfter, message)
    ensures Enabled(w, Report(t, result)) && Next(w, Report(t, result)) == World(db', w.clock, w.tickets - {t})
  {
    NextRunsStatement(w, Report(t, result));
    OneEffect(w, ReportEffect(w, t, result));
  }

  // ----- shipper -----

  class Warehouse {
    var raw: seq<ChRow>

    /** Inserts a batch; `accepted` of its rows arrive even when the insert fails. */
    method InsertEvents(log: seq<Event>, ids: seq<nat>, accepted: nat, ok: bool)
      requires forall i :: 0 <= i < |ids| ==> ids[i] < |log|
      requires accepted <= |ids| && (ok ==> accepted == |ids|)
      modifies this
      ensures raw == old(raw) + Rows(log, ids[..accepted])
      ensures |raw| == |old(raw)| + accepted &&
              forall i :: 0 <= i < accepted ==> IsCopy(raw[|old(raw)| + i], ids[i], log[ids[i]])
    {
      for i := 0 to accepted
        invariant raw == old(raw) + Rows(log, ids[..i])
      {
        var e := log[ids[i]];
        assert Rows(log, ids[..i + 1]) == Rows(log, ids[..i]) + [ToCh(ids[i], e)];
        raw := raw + [ChRow(ids[i], e.jobId, e.jobType, e.kind, e.attempts, e.workerId, e.errorMessage,
                            e.occurredAt / 1000)];
      }
    }
  }

  /** One cycle: fetch, insert, mark. `accepted` and `inserted` say what ClickHouse does with the batch, and
      `marked` whether the final update succeeds; a failure is logged and left to the next tick. */
  method ShipOnce(store: Store, ch: Warehouse, batchSize: int, accepted: nat, inserted: bool, marked: bool)
    requires batchSize >= 0 ==>
               && accepted <= |Batch(store.shipped, |store.events|, batchSize)|
               && (inserted ==> accepted == |Batch(store.shipped, |store.events|, batchSize)|)
    modifies store`shipped, ch
    ensures batchSize < 0 ==> store.shipped == old(store.shipped) && ch.raw == old(ch.raw)
    ensures batchSize >= 0 ==>
              var batch := Batch(old(store.shipped), |store.events|, batchSize);
              if batch == [] then store.shipped == old(store.shipped) && ch.raw == old(ch.raw)
              else
                && ch.raw == old(ch.raw) + Rows(store.events, batch[..accepted])
                && store.shipped == if inserted && marked then old(store.shipped) + IdSet(batch) else old(store.shipped)
  {
    var fetched := store.FetchUnshippedEvents(batchSize);
    if fetched.Err? {
      return;
    }
    var events := fetched.value;
    if |events| == 0 {
      return;
    }
    ch.InsertEvents(store.events, events, accepted, inserted);
    if !inserted {
      return;
    }
    var ids := new nat[|events|];
    for i := 0 to |events|
      invariant ids[..i] == events[..i]
      modifies ids
    {
      ids[i] := events[i];
    }
    assert ids[..] == events && events[..accepted] == events;
    assert (set id | id in events && id < |store.events|) == IdSet(events);
    if !marked {
      return;
    }
    store.MarkEventsShipped(ids[..]);
  }

  /** The steps of that cycle in the shipping protocol, by how far it gets. */
  ghost function CycleSteps(
    s: nat, batch: seq<nat>, size: nat, accepted: nat, inserted: bool, marked: bool): seq<PipeStep>
    requires accepted <= |batch|
  {
    [Fetch(s, size)] +
    if batch == [] then []
    else if !inserted then [InsertRows(s, batch[..accepted], false)]
    else [InsertRows(s, batch, true), Mark(s, marked)]
  }

  /** What `ShipOnce` leaves behind is the state after those steps, for any idle shipper `s`. */
  lemma CycleIsPipeRun(p: Pipe, s: nat, size: nat, accepted: nat, inserted: bool, marked: bool)
    requires s !in p.busy
    requires var batch := Batch(p.shipped, |p.log|, size);
             accepted <= |batch| && (inserted ==> accepted == |batch|)
    ensures var batch := Batch(p.shipped, |p.log|, size);
            var steps := CycleSteps(s, batch, size, accepted, inserted, marked);
            && IsPipeRun(p, steps)
            && PipeAfter(p, steps) ==
               if batch == [] then p
               else p.(raw := p.raw + Rows(p.log, batch[..accepted]),
                       shipped := if inserted && marked then p.shipped + IdSet(batch) else p.shipped)
  {
    var batch := Batch(p.shipped, |p.log|, size);
    var p1 := PipeNext(p, Fetch(s, size));
    if batch == [] {
      PipePrepend(p, Fetch(s, size), []);
    } else if !inserted {
      var insert := InsertRows(s, batch[..accepted], false);
      PipePrepend(p1, insert, []);
      PipePrepend(p, Fetch(s, size), [insert]);
      assert p1.busy - {s} == p.busy;
    } else {
      var insert := InsertRows(s, batch, true);
      var p2 := PipeNext(p1, insert);
      PipePrepend(p2, Mark(s, marked), []);
      PipePrepend(p1, insert, [Mark(s, marked)]);
      PipePrepend(p, Fetch(s, size), [insert, Mark(s, marked)]);
      assert p2.busy - {s} == p.busy && batch[..accepted] == batch;
    }
  }

  // ----- watcher -----

  datatype StreamEnd = Closed | NotFoundError | Cancelled

  ghost function TablesOf(polls: seq<Store>): seq<map<nat, Row>>
    reads polls
  {
    seq(|polls|, i requires 0 <= i < |polls| reads polls => polls[i].jobs)
  }

  /** What a watcher of job `id` streams when `tables[i]` is the jobs table at its i-th poll and the client goes
      away after the last one: each reading, up to the first terminal one or the first that finds no job. */
  ghost predicate Streams(tables: seq<map<nat, Row>>, id: nat, stream: seq<Snapshot>, end: StreamEnd) {
    && |stream| <= |tables|
    && (forall i :: 0 <= i < |stream| ==> ReadStatus(tables[i], id) == Ok(stream[i]))
    && (forall i :: 0 <= i < |stream| - 1 ==> !Terminal(stream[i].status))
    && (end.Closed? <==> stream != [] && Terminal(stream[|stream| - 1].status))
    && (end.NotFoundError? ==> |stream| < |tables| && ReadStatus(tables[|stream|], id) == Err(NotFound))
    && (end.Cancelled? ==> |stream| == |tables|)
  }

  /** Polls the job's status and streams each reading until one is terminal. `polls[i]` is the store as it
      stands at the i-th poll. */
  method WatchStatus(polls: seq<Store>, id: nat) returns (stream: seq<Snapshot>, end: StreamEnd)
    ensures Streams(TablesOf(polls), id, stream, end)
  {
    stream := [];
    for i := 0 to |polls|
      invariant |stream| == i
      invariant forall k :: 0 <= k < i ==>
                  ReadStatus(polls[k].jobs, id) == Ok(stream[k]) && !Terminal(stream[k].status)
    {
      var reading := polls[i].GetStatus(id);
      if reading.Err? {
        end := NotFoundError;
        return;
      }
      stream := stream + [reading.value];
      if Terminal(reading.value.status) {
        end := Closed;
        return;
      }
    }
    end := Cancelled;
  }

  /** The run, cut at the polls: poll `i` happens after the first i + 1 pieces. */
  ghost predicate IsPolledRun(w: World, pieces: seq<seq<Action>>)
    decreases |pieces|
  {
    pieces == [] || (IsRun(w, pieces[0]) && IsPolledRun(After(w, pieces[0]), pieces[1..]))
  }

  ghost function PolledTables(w: World, pieces: seq<seq<Action>>): seq<map<nat, Row>>
    requires IsPolledRun(w, pieces)
    decreases |pieces|
  {
    if pieces == [] then []
    else [After(w, pieces[0]).db.jobs] + PolledTables(After(w, pieces[0]), pieces[1..])
  }

  ghost predicate PiecesMeet(d: Discipline, w: World, pieces: seq<seq<Action>>)
    requires IsPolledRun(w, pieces)
    decreases |pieces|
  {
    pieces == [] || (ReportsMeet(d, w, pieces[0]) && PiecesMeet(d, After(w, pieces[0]), pieces[1..]))
  }

  /** Attempts never go back and max_attempts never changes. */
  ghost predicate Grows(before: map<nat, Row>, after: map<nat, Row>, id: nat) {
    id in before ==>
      id in after && before[id].attempts <= after[id].attempts && before[id].maxAttempts == after[id].maxAttempts
  }

  lemma {:induction false} GrowsEffects(w: World, es: seq<Effect>, id: nat)
    requires Inv(w) && EffectsOk(w, es)
    ensures Grows(w.db.jobs, ApplyAll(w, es).db.jobs, id)
    decreases |es|
  {
    if es != [] {
      LogGrows(w, es[0]);
      InvEffect(w, es[0]);
      GrowsEffects(Apply(w, es[0]), es[1..], id);
    }
  }

  lemma {:induction false} GrowsRun(w: World, run: seq<Action>, id: nat)
    requires Inv(w) && IsRun(w, run)
    ensures Grows(w.db.jobs, After(w, run).db.jobs, id)
    decreases |run|
  {
    if run != [] {
      EnabledEffectsOk(w, run[0]);
      GrowsEffects(w, Effects(w, run[0]), id);
      InvNext(w, run[0]);
      GrowsRun(Next(w, run[0]), run[1..], id);
    }
  }

  lemma {:induction false} PolledTablesGrow(w: World, pieces: seq<seq<Action>>, id: nat)
    requires Inv(w) && IsPolledRun(w, pieces)
    ensures var tables := PolledTables(w, pieces);
            && |tables| == |pieces|
            && (forall j :: 0 <= j < |tables| ==> Grows(w.db.jobs, tables[j], id))
            && (forall i, j :: 0 <= i <= j < |tables| ==> Grows(tables[i], tables[j], id))
    decreases |pieces|
  {
    if pieces != [] {
      var w1 := After(w, pieces[0]);
      InvRun(w, pieces[0]);
      GrowsRun(w, pieces[0], id);
      PolledTablesGrow(w1, pieces[1..], id);
      var rest := PolledTables(w1, pieces[1..]);
      var tables := PolledTables(w, pieces);
      forall j | 0 <= j < |tables| ensures Grows(w.db.jobs, tables[j], id) && Grows(tables[0], tables[j], id) {
        if j > 0 { assert tables[j] == rest[j - 1]; }
      }
      forall i, j | 0 <= i <= j < |tables| ensures Grows(tables[i], tables[j], id) {
        if i > 0 { assert tables[i] == rest[i - 1] && tables[j] == rest[j - 1]; }
      }
    }
  }

  lemma {:induction false} StaysTerminal(
    w: World, pieces: seq<seq<Action>>, id: nat, tables: seq<map<nat, Row>>, j: nat)
    requires SafeInv(w) && IsPolledRun(w, pieces) && PiecesMeet(Unreaped, w, pieces)
    requires tables == PolledTables(w, pieces) && j < |tables|
    requires id in w.db.jobs && Terminal(w.db.jobs[id].status)
    ensures id in tables[j] && tables[j][id] == w.db.jobs[id]
    decreases |pieces|
  {
    TerminalForever(w, pieces[0], id);
    if j > 0 {
      SafeInvRun(w, pieces[0]);
      StaysTerminal(After(w, pieces[0]), pieces[1..], id, tables[1..], j - 1);
    }
  }

  lemma {:induction false} PolledTerminalStays(
    w: World, pieces: seq<seq<Action>>, id: nat, tables: seq<map<nat, Row>>, i: nat, j: nat)
    requires SafeInv(w) && IsPolledRun(w, pieces) && PiecesMeet(Unreaped, w, pieces)
    requires tables == PolledTables(w, pieces) && i <= j < |tables|
    requires id in tables[i] && Terminal(tables[i][id].status)
    ensures id in tables[j] && tables[j][id] == tables[i][id]
    decreases |pieces|
  {
    SafeInvRun(w, pieces[0]);
    if i > 0 {
      PolledTerminalStays(After(w, pieces[0]), pieces[1..], id, tables[1..], i - 1, j - 1);
    } else if j > 0 {
      StaysTerminal(After(w, pieces[0]), pieces[1..], id, tables[1..], j - 1);
    }
  }

  lemma {:induction false} PiecesUnreaped(d: Discipline, w: World, pieces: seq<seq<Action>>)
    requires Inv(w) && IsPolledRun(w, pieces) && PiecesMeet(d, w, pieces)
    ensures PiecesMeet(Unreaped, w, pieces)
    decreases |pieces|
  {
    if pieces != [] {
      DisciplineIsUnreaped(d, w, pieces[0]);
      InvRun(w, pieces[0]);
      PiecesUnreaped(d, After(w, pieces[0]), pieces[1..]);
    }
  }

  lemma TerminalReadingIsFinal(d: Discipline, clock: int, pieces: seq<seq<Action>>, id: nat, i: nat, j: nat)
    requires IsPolledRun(Init(clock), pieces) && PiecesMeet(d, Init(clock), pieces)
    requires var tables := PolledTables(Init(clock), pieces);
             i <= j < |tables| && id in tables[i] && Terminal(tables[i][id].status)
    ensures var tables := PolledTables(Init(clock), pieces);
            id in tables[j] && tables[j][id] == tables[i][id]
  {
    SafeInvInit(clock);
    PiecesUnreaped(d, Init(clock), pieces);
    PolledTerminalStays(Init(clock), pieces, id, PolledTables(Init(clock), pieces), i, j);
  }

  /** What a client sees, along every run and polling schedule: attempts never decrease and max_attempts is
      constant; the stream breaks off as not found only before its first reading; and in a disciplined run a
      stream that is closed has ended on the reading that every later poll would give too. */
  lemma WatchedStream(
    d: Discipline, clock: int, pieces: seq<seq<Action>>, id: nat, stream: seq<Snapshot>, end: StreamEnd)
    requires IsPolledRun(Init(clock), pieces)
    requires Streams(PolledTables(Init(clock), pieces), id, stream, end)
    ensures var tables := PolledTables(Init(clock), pieces);
            && |stream| <= |tables|
            && forall i :: 0 <= i < |stream| ==>
                 && id in tables[i] && stream[i].id == id && stream[i].status == tables[i][id].status
                 && stream[i].attempts == tables[i][id].attempts
                 && stream[i].maxAttempts == tables[i][id].maxAttempts
                 && stream[i].lastError == (match tables[i][id].lastError case Some(e) => e case None => "")
    ensures forall i, j :: 0 <= i <= j < |stream| ==>
              stream[i].attempts <= stream[j].attempts && stream[i].maxAttempts == stream[j].maxAttempts
    ensures end.NotFoundError? ==> stream == []
    ensures end.Closed? && PiecesMeet(d, Init(clock), pieces) ==>
              var tables := PolledTables(Init(clock), pieces);
              forall j :: |stream| <= j < |tables| ==> ReadStatus(tables[j], id) == Ok(stream[|stream| - 1])
  {
    InvInit(clock);
    PolledTablesGrow(Init(clock), pieces, id);
    var tables: seq<map<nat, Row>> := PolledTables(Init(clock), pieces);
    forall i, j | 0 <= i <= j < |stream|
      ensures stream[i].attempts <= stream[j].attempts && stream[i].maxAttempts == stream[j].maxAttempts
    {
      assert Grows(tables[i], tables[j], id);
    }
    var n := |stream|;
    if 0 < n < |tables| {
      assert Grows(tables[n - 1], tables[n], id);
    }
    if end.Closed? && PiecesMeet(d, Init(clock), pieces) {
      forall j | n <= j < |tables| ensures ReadStatus(tables[j], id) == Ok(stream[n - 1]) {
        TerminalReadingIsFinal(d, clock, pieces, id, n - 1, j);
      }
    }
  }
}
