/** The duration report: one sample for each (job_id, attempts) with a claim and a later terminal
    event. It reads the raw table, where a re-shipped event may appear more than once. */
module Durations {
  import opened Jobs
  import opened Statements
  import opened Runs
  import opened EventLog
  import opened Invariants
  import opened Fencing
  import opened Shipping
  import opened Reports

  const CLAIMS: set<EventKind> := {EventClaimed}
  const ENDS: set<EventKind> := {EventCompleted, EventFailed}

  predicate Matches(r: ChRow, id: nat, attempts: nat, kinds: set<EventKind>, since: int) {
    r.jobId == id && r.attempts == attempts && r.kind in kinds && r.occurredMs >= since
  }

  function Earliest(rows: seq<ChRow>, id: nat, attempts: nat, kinds: set<EventKind>, since: int): Option<int> {
    if rows == [] then None
    else
      var r := rows[|rows| - 1];
      var rest := Earliest(rows[..|rows| - 1], id, attempts, kinds, since);
      if !Matches(r, id, attempts, kinds, since) then rest
      else if rest.Some? && rest.value <= r.occurredMs then rest
      else Some(r.occurredMs)
  }

  /** minIf: the earliest time, or the epoch when no row matches. */
  function MinIf(rows: seq<ChRow>, id: nat, attempts: nat, kinds: set<EventKind>, since: int): int {
    var m := Earliest(rows, id, attempts, kinds, since);
    if m.Some? then m.value else 0
  }

  /** The inner query's row for one group, in milliseconds, or nothing when HAVING drops it. */
  function Sample(rows: seq<ChRow>, id: nat, attempts: nat, since: int): Option<int> {
    var claimedAt := MinIf(rows, id, attempts, CLAIMS, since);
    var terminalAt := MinIf(rows, id, attempts, ENDS, since);
    if claimedAt > 0 && terminalAt > claimedAt then Some(terminalAt - claimedAt) else None
  }

  // ----- duplicates do not matter -----

  ghost predicate IsEarliest(
    rows: seq<ChRow>, id: nat, attempts: nat, kinds: set<EventKind>, since: int, m: Option<int>)
  {
    && (m.Some? ==> exists r :: r in rows && Matches(r, id, attempts, kinds, since) && r.occurredMs == m.value)
    && (forall r :: r in rows && Matches(r, id, attempts, kinds, since) ==> m.Some? && m.value <= r.occurredMs)
  }

  lemma {:induction false} EarliestIsEarliest(
    rows: seq<ChRow>, id: nat, attempts: nat, kinds: set<EventKind>, since: int)
    ensures IsEarliest(rows, id, attempts, kinds, since, Earliest(rows, id, attempts, kinds, since))
    decreases |rows|
  {
    if rows != [] {
      EarliestIsEarliest(rows[..|rows| - 1], id, attempts, kinds, since);
      assert rows == rows[..|rows| - 1] + [rows[|rows| - 1]];
    }
  }

  ghost predicate SameRows(rows: seq<ChRow>, other: seq<ChRow>) {
    forall r :: r in rows <==> r in other
  }

  lemma SameRowsSameEarliest(
    rows: seq<ChRow>, other: seq<ChRow>, id: nat, attempts: nat, kinds: set<EventKind>, since: int)
    requires SameRows(rows, other)
    ensures Earliest(rows, id, attempts, kinds, since) == Earliest(other, id, attempts, kinds, since)
  {
    EarliestIsEarliest(rows, id, attempts, kinds, since);
    EarliestIsEarliest(other, id, attempts, kinds, since);
  }

  lemma {:induction false} ViewRowsHold(view: map<nat, ChRow>, n: nat)
    requires forall id :: id in view ==> view[id].eventId == id
    ensures forall r :: r in ViewRows(view, n) <==> r.eventId < n && r.eventId in view && view[r.eventId] == r
  {
    if n > 0 { ViewRowsHold(view, n - 1); }
  }

  lemma RawRowsAreView(pipe: seq<PipeStep>)
    requires IsPipeRun(EMPTY_PIPE, pipe)
    ensures var p := PipeAfter(EMPTY_PIPE, pipe);
            SameRows(p.raw, ViewRows(Final(p.raw), |p.log|))
  {
    var p := PipeAfter(EMPTY_PIPE, pipe);
    PipeInvRun(EMPTY_PIPE, pipe);
    ShippingIsFaithful(pipe);
    ViewRowsHold(Final(p.raw), |p.log|);
    forall r ensures r in p.raw <==> r in ViewRows(Final(p.raw), |p.log|) {
      FinalHolds(p.raw, r.eventId);
      if r in p.raw {
        var k :| 0 <= k < |p.raw| && p.raw[k] == r;
        assert Genuine(p, p.raw[k]) && Present(p.raw, r.eventId);
      }
    }
  }

  /** Re-shipped copies and pending merges never change a sample: the raw table and the deduplicated view give
      the same ones, in every state of the pipeline. */
  lemma SamplesIgnoreDuplicates(pipe: seq<PipeStep>, id: nat, attempts: nat, since: int)
    requires IsPipeRun(EMPTY_PIPE, pipe)
    ensures var p := PipeAfter(EMPTY_PIPE, pipe);
            Sample(p.raw, id, attempts, since) == Sample(ViewRows(Final(p.raw), |p.log|), id, attempts, since)
  {
    RawRowsAreView(pipe);
    var p := PipeAfter(EMPTY_PIPE, pipe);
    SameRowsSameEarliest(p.raw, ViewRows(Final(p.raw), |p.log|), id, attempts, CLAIMS, since);
    SameRowsSameEarliest(p.raw, ViewRows(Final(p.raw), |p.log|), id, attempts, ENDS, since);
  }

  // ----- each sample is one attempt -----

  lemma {:induction false} EventsPrefix(log: seq<Event>, i: nat, id: nat)
    requires i <= |log|
    ensures |EventsOf(log[..i], id)| <= |EventsOf(log, id)|
    ensures EventsOf(log, id)[..|EventsOf(log[..i], id)|] == EventsOf(log[..i], id)
    decreases |log|
  {
    if i == |log| {
      assert log[..i] == log;
    } else {
      EventsPrefix(log[..|log| - 1], i, id);
      assert log[..|log| - 1][..i] == log[..i];
    }
  }

  /** Where event `i` of the log stands in its job's history. */
  ghost function Rank(log: seq<Event>, i: nat): nat
    requires i < |log|
  {
    |EventsOf(log[..i], log[i].jobId)|
  }

  lemma RankIsPosition(log: seq<Event>, i: nat)
    requires i < |log|
    ensures Rank(log, i) < |EventsOf(log, log[i].jobId)| && EventsOf(log, log[i].jobId)[Rank(log, i)] == log[i]
  {
    var id := log[i].jobId;
    assert log[..i + 1][..i] == log[..i];
    assert EventsOf(log[..i + 1], id) == EventsOf(log[..i], id) + [log[i]];
    EventsPrefix(log, i + 1, id);
    assert EventsOf(log, id)[..Rank(log, i) + 1][Rank(log, i)] == log[i];
  }

  lemma RankMonotone(log: seq<Event>, i: nat, k: nat)
    requires i <= k < |log| && log[i].jobId == log[k].jobId
    ensures Rank(log, i) <= Rank(log, k)
  {
    EventsPrefix(log[..k], i, log[k].jobId);
    assert log[..k][..i] == log[..i];
  }

  /** In a disciplined run the claim and the terminal event of one (job_id, attempts) are unique, and
      the terminal event is the very next thing that happened to the job. */
  lemma ClaimThenOwnEnd(d: Discipline, clock: int, run: seq<Action>, i: nat, k: nat)
    requires IsRun(Init(clock), run) && ReportsMeet(d, Init(clock), run)
    requires var log := After(Init(clock), run).db.log;
             && i < |log| && k < |log| && log[i].jobId == log[k].jobId && log[i].attempts == log[k].attempts
             && log[i].kind == EventClaimed && log[k].kind in ENDS
    ensures var log := After(Init(clock), run).db.log;
            i < k && Rank(log, k) == Rank(log, i) + 1 == 2 * log[i].attempts
  {
    var w := After(Init(clock), run);
    EveryEventHasItsJob(clock, run, i);
    TraceLanguage(d, clock, run, w.db.log[i].jobId);
    RanksInShape(w.db.log, i, k, w.db.jobs[w.db.log[i].jobId].maxAttempts);
  }

  lemma EveryEventHasItsJob(clock: int, run: seq<Action>, i: nat)
    requires IsRun(Init(clock), run) && i < |After(Init(clock), run).db.log|
    ensures After(Init(clock), run).db.log[i].jobId in After(Init(clock), run).db.jobs
  {
    InvInit(clock);
    InvRun(Init(clock), run);
    assert EventOk(After(Init(clock), run), i);
  }

  lemma RanksInShape(log: seq<Event>, i: nat, k: nat, maxAttempts: int)
    requires i < |log| && k < |log| && log[i].jobId == log[k].jobId && log[i].attempts == log[k].attempts
    requires log[i].kind == EventClaimed && log[k].kind in ENDS
    requires TraceShape(EventsOf(log, log[i].jobId), maxAttempts)
    ensures i < k && Rank(log, k) == Rank(log, i) + 1 == 2 * log[i].attempts
  {
    RankIsPosition(log, i);
    RankIsPosition(log, k);
    if k <= i { RankMonotone(log, k, i); }
  }

  /** The raw row an earliest time comes from is a copy of some event of the log. */
  lemma EarliestInLog(p: Pipe, id: nat, attempts: nat, kinds: set<EventKind>, since: int) returns (i: nat)
    requires PipeInv(p) && Earliest(p.raw, id, attempts, kinds, since).Some?
    ensures i < |p.log| && p.log[i].jobId == id && p.log[i].attempts == attempts && p.log[i].kind in kinds
    ensures Earliest(p.raw, id, attempts, kinds, since) == Some(p.log[i].occurredAt / 1000)
    ensures Present(p.raw, i) && p.log[i].occurredAt / 1000 >= since
  {
    EarliestIsEarliest(p.raw, id, attempts, kinds, since);
    var m := Earliest(p.raw, id, attempts, kinds, since);
    var r :| r in p.raw && Matches(r, id, attempts, kinds, since) && r.occurredMs == m.value;
    var k :| 0 <= k < |p.raw| && p.raw[k] == r;
    assert Genuine(p, p.raw[k]);
    i := r.eventId;
  }

  /** In a disciplined run every sample the report takes from the raw table, in whatever state shipping and
      merging have left it, is the time from one claim to the end of that same attempt, with nothing else
      of the job in between. */
  lemma SamplesPairOneAttempt(
    d: Discipline, clock: int, run: seq<Action>, pipe: seq<PipeStep>, id: nat, attempts: nat, since: int)
    requires IsRun(Init(clock), run) && ReportsMeet(d, Init(clock), run) && IsPipeRun(EMPTY_PIPE, pipe)
    requires PipeAfter(EMPTY_PIPE, pipe).log == After(Init(clock), run).db.log
    requires Sample(PipeAfter(EMPTY_PIPE, pipe).raw, id, attempts, since).Some?
    ensures var log := After(Init(clock), run).db.log;
            exists i, k ::
              && 0 <= i < k < |log| && log[i].jobId == id && log[k].jobId == id
              && log[i].attempts == attempts && log[k].attempts == attempts
              && log[i].kind == EventClaimed && log[k].kind in ENDS && Rank(log, k) == Rank(log, i) + 1
              && Sample(PipeAfter(EMPTY_PIPE, pipe).raw, id, attempts, since) ==
                 Some(log[k].occurredAt / 1000 - log[i].occurredAt / 1000)
  {
    var p := PipeAfter(EMPTY_PIPE, pipe);
    PipeInvRun(EMPTY_PIPE, pipe);
    var i := EarliestInLog(p, id, attempts, CLAIMS, since);
    var k := EarliestInLog(p, id, attempts, ENDS, since);
    ClaimThenOwnEnd(d, clock, run, i, k);
  }

  // ----- and each attempt is one sample -----

  lemma RankStrict(log: seq<Event>, i: nat, k: nat)
    requires i < k < |log| && log[i].jobId == log[k].jobId
    ensures Rank(log, i) < Rank(log, k)
  {
    var id := log[i].jobId;
    assert log[..i + 1][..i] == log[..i];
    assert EventsOf(log[..i + 1], id) == EventsOf(log[..i], id) + [log[i]];
    EventsPrefix(log[..k], i + 1, id);
    assert log[..k][..i + 1] == log[..i + 1];
  }

  lemma SamePlace(log: seq<Event>, i: nat, k: nat)
    requires i < |log| && k < |log| && log[i].jobId == log[k].jobId && Rank(log, i) == Rank(log, k)
    ensures i == k
  {
    if i < k { RankStrict(log, i, k); }
    if k < i { RankStrict(log, k, i); }
  }

  /** Event `i` is the claim of that attempt and event `k` its completion or failure; both have arrived and fall in
      the window, and at least a millisecond lies between them. */
  ghost predicate SamplePair(p: Pipe, id: nat, attempts: nat, since: int, i: nat, k: nat) {
    && i < |p.log| && p.log[i].jobId == id && p.log[i].attempts == attempts && p.log[i].kind == EventClaimed
    && k < |p.log| && p.log[k].jobId == id && p.log[k].attempts == attempts
    && (p.log[k].kind == EventCompleted || p.log[k].kind == EventFailed)
    && Present(p.raw, i) && Present(p.raw, k)
    && since <= p.log[i].occurredAt / 1000 && 0 < p.log[i].occurredAt / 1000 < p.log[k].occurredAt / 1000
  }

  lemma PresentMatches(p: Pipe, id: nat, attempts: nat, kinds: set<EventKind>, since: int, i: nat)
    requires PipeInv(p) && i < |p.log| && Present(p.raw, i)
    requires p.log[i].jobId == id && p.log[i].attempts == attempts && p.log[i].kind in kinds
    requires p.log[i].occurredAt / 1000 >= since
    ensures Earliest(p.raw, id, attempts, kinds, since).Some?
  {
    var k :| 0 <= k < |p.raw| && p.raw[k].eventId == i;
    assert Genuine(p, p.raw[k]) && p.raw[k] in p.raw;
    assert Matches(p.raw[k], id, attempts, kinds, since);
    EarliestIsEarliest(p.raw, id, attempts, kinds, since);
  }

  /** A pair of events of a disciplined run is the one the sample is made of. */
  lemma PairIsSample(
    d: Discipline, clock: int, run: seq<Action>, p: Pipe, id: nat, attempts: nat, since: int, i: nat, k: nat)
    requires IsRun(Init(clock), run) && ReportsMeet(d, Init(clock), run) && PipeInv(p)
    requires p.log == After(Init(clock), run).db.log && SamplePair(p, id, attempts, since, i, k)
    ensures Sample(p.raw, id, attempts, since) == Some(p.log[k].occurredAt / 1000 - p.log[i].occurredAt / 1000)
  {
    PresentMatches(p, id, attempts, CLAIMS, since, i);
    PresentMatches(p, id, attempts, ENDS, since, k);
    var i' := EarliestInLog(p, id, attempts, CLAIMS, since);
    var k' := EarliestInLog(p, id, attempts, ENDS, since);
    ClaimThenOwnEnd(d, clock, run, i, k);
    ClaimThenOwnEnd(d, clock, run, i', k);
    ClaimThenOwnEnd(d, clock, run, i, k');
    SamePlace(p.log, i, i');
    SamePlace(p.log, k, k');
  }

  /** In a disciplined run, in every state of the pipeline: the report has a sample for an attempt exactly when its
      claim and its completion or failure are both in the table and the window, a millisecond or more apart;
      and the sample is the time between them. */
  lemma SamplesExact(
    d: Discipline, clock: int, run: seq<Action>, pipe: seq<PipeStep>, id: nat, attempts: nat, since: int, span: int)
    requires IsRun(Init(clock), run) && ReportsMeet(d, Init(clock), run) && IsPipeRun(EMPTY_PIPE, pipe)
    requires PipeAfter(EMPTY_PIPE, pipe).log == After(Init(clock), run).db.log
    ensures var p := PipeAfter(EMPTY_PIPE, pipe);
            Sample(p.raw, id, attempts, since) == Some(span) <==>
            exists i: nat, k: nat :: SamplePair(p, id, attempts, since, i, k) &&
                                     span == p.log[k].occurredAt / 1000 - p.log[i].occurredAt / 1000
  {
    var p := PipeAfter(EMPTY_PIPE, pipe);
    PipeInvRun(EMPTY_PIPE, pipe);
    if Sample(p.raw, id, attempts, since) == Some(span) {
      var i := EarliestInLog(p, id, attempts, CLAIMS, since);
      var k := EarliestInLog(p, id, attempts, ENDS, since);
      assert SamplePair(p, id, attempts, since, i, k);
    }
    forall i: nat, k: nat | SamplePair(p, id, attempts, since, i, k)
      ensures Sample(p.raw, id, attempts, since) == Some(p.log[k].occurredAt / 1000 - p.log[i].occurredAt / 1000)
    {
      PairIsSample(d, clock, run, p, id, attempts, since, i, k);
    }
  }
}
