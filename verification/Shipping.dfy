/** Moving the `job_events` outbox to ClickHouse: any number of shippers fetch, insert and mark in
    separate steps, any of which may fail, be cut short or never happen, while events are appended and
    ClickHouse merges duplicates away in the background. */
module Shipping {
  import opened Jobs

  /** A row of ClickHouse's `job_events`. `occurred_at` is a DateTime64(3): microseconds are cut to milliseconds. */
  datatype ChRow = ChRow(eventId: nat, jobId: nat, jobType: string, kind: EventKind, attempts: nat,
                         workerId: string, errorMessage: string, occurredMs: int)

  function ToCh(id: nat, e: Event): ChRow {
    ChRow(id, e.jobId, e.jobType, e.kind, e.attempts, e.workerId, e.errorMessage, e.occurredAt / 1000)
  }

  /** Row `r` holds event `e` with id `id`, column for column; the time is the millisecond it falls in. */
  predicate IsCopy(r: ChRow, id: nat, e: Event) {
    && r.eventId == id && r.jobId == e.jobId && r.jobType == e.jobType && r.kind == e.kind && r.attempts == e.attempts
    && r.workerId == e.workerId && r.errorMessage == e.errorMessage
    && 1000 * r.occurredMs <= e.occurredAt < 1000 * (r.occurredMs + 1)
  }

  // ----- the outbox queries -----

  /** How many of the events with id below `n` are not shipped. */
  function Unshipped(shipped: set<nat>, n: nat): nat {
    if n == 0 then 0 else Unshipped(shipped, n - 1) + if n - 1 in shipped then 0 else 1
  }

  /** The fetch query on an outbox of `n` events: unshipped, ordered by id, at most `limit`. */
  function Batch(shipped: set<nat>, n: nat, limit: nat): (b: seq<nat>)
    ensures |b| <= limit && forall i :: 0 <= i < |b| ==> b[i] < n
  {
    if n == 0 then []
    else
      var b := Batch(shipped, n - 1, limit);
      if n - 1 !in shipped && |b| < limit then b + [n - 1] else b
  }

  /** Event `id` is the unshipped event with the smallest id. */
  predicate FirstUnshipped(shipped: set<nat>, n: nat, id: nat) {
    id < n && id !in shipped && forall k: nat :: k < id ==> k in shipped
  }

  /** Event `id` is unshipped and fewer than `limit` unshipped events come before it. */
  predicate InBatch(shipped: set<nat>, n: nat, limit: nat, id: nat) {
    id < n && id !in shipped && Unshipped(shipped, id) < limit
  }

  /** Exactly the first `limit` unshipped events, in order of id. */
  lemma {:induction false} BatchIsFirst(shipped: set<nat>, n: nat, limit: nat)
    ensures var b := Batch(shipped, n, limit);
            && |b| == (if Unshipped(shipped, n) < limit then Unshipped(shipped, n) else limit)
            && (forall i, j :: 0 <= i < j < |b| ==> b[i] < b[j])
            && (forall id: nat :: id in b <==> InBatch(shipped, n, limit, id))
  {
    if n > 0 {
      BatchIsFirst(shipped, n - 1, limit);
      UnshippedGrows(shipped);
    }
  }

  lemma BatchMembers(shipped: set<nat>, n: nat, limit: nat, id: nat)
    ensures id in IdSet(Batch(shipped, n, limit)) <==> InBatch(shipped, n, limit, id)
  {
    BatchIsFirst(shipped, n, limit);
  }

  lemma UnshippedGrows(shipped: set<nat>)
    ensures forall i: nat, j: nat :: i <= j ==> Unshipped(shipped, i) <= Unshipped(shipped, j)
  {
    forall i: nat, j: nat | i <= j ensures Unshipped(shipped, i) <= Unshipped(shipped, j) {
      UnshippedMonotone(shipped, i, j);
    }
  }

  lemma {:induction false} UnshippedMonotone(shipped: set<nat>, i: nat, j: nat)
    requires i <= j
    ensures Unshipped(shipped, i) <= Unshipped(shipped, j)
    decreases j
  {
    if i < j { UnshippedMonotone(shipped, i, j - 1); }
  }

  lemma {:induction false} AllShipped(shipped: set<nat>, n: nat)
    ensures Unshipped(shipped, n) == 0 <==> forall i: nat :: i < n ==> i in shipped
  {
    if n > 0 { AllShipped(shipped, n - 1); }
  }

  lemma {:induction false} UnshippedAntitone(shipped: set<nat>, more: set<nat>, n: nat)
    requires shipped <= more
    ensures Unshipped(more, n) <= Unshipped(shipped, n)
  {
    if n > 0 { UnshippedAntitone(shipped, more, n - 1); }
  }

  function IdSet(b: seq<nat>): set<nat> {
    set id | id in b
  }

  /** Once a fetched batch is marked, `limit` fewer of the events with id below `n` are left, or none. */
  lemma {:induction false} BatchClears(shipped: set<nat>, total: nat, limit: nat, n: nat)
    requires n <= total
    ensures Unshipped(shipped + IdSet(Batch(shipped, total, limit)), n) ==
            if Unshipped(shipped, n) <= limit then 0 else Unshipped(shipped, n) - limit
    decreases n
  {
    if n > 0 {
      BatchClears(shipped, total, limit, n - 1);
      BatchMembers(shipped, total, limit, n - 1);
    }
  }

  // ----- the deduplicated view -----

  /** What a read with FINAL sees: for each event_id, the row inserted last. */
  function Final(raw: seq<ChRow>): map<nat, ChRow> {
    if raw == [] then map[]
    else Final(raw[..|raw| - 1])[raw[|raw| - 1].eventId := raw[|raw| - 1]]
  }

  function Without(raw: seq<ChRow>, i: nat): seq<ChRow>
    requires i < |raw|
  {
    raw[..i] + raw[i + 1..]
  }

  lemma WithoutLast(raw: seq<ChRow>, i: nat)
    requires i < |raw| - 1
    ensures var n := |raw| - 1;
            Without(raw, i)[n - 1] == raw[n] && Without(raw, i)[..n - 1] == Without(raw[..n], i)
  {
  }

  lemma {:induction false} FinalElsewhere(raw: seq<ChRow>, i: nat, id: nat)
    requires i < |raw| && raw[i].eventId != id
    ensures id in Final(raw) <==> id in Final(Without(raw, i))
    ensures id in Final(raw) ==> Final(raw)[id] == Final(Without(raw, i))[id]
    decreases |raw|
  {
    var n := |raw| - 1;
    if i == n {
      assert Without(raw, i) == raw[..n];
    } else {
      WithoutLast(raw, i);
      FinalElsewhere(raw[..n], i, id);
    }
  }

  /** Merging drops a row that a later one replaces; the view does not change. */
  lemma {:induction false} MergeKeepsFinal(raw: seq<ChRow>, i: nat, j: nat)
    requires i < j < |raw| && raw[i].eventId == raw[j].eventId
    ensures Final(Without(raw, i)) == Final(raw)
    decreases |raw|
  {
    var n := |raw| - 1;
    WithoutLast(raw, i);
    if j < n {
      MergeKeepsFinal(raw[..n], i, j);
    } else {
      forall id: nat | id != raw[n].eventId
        ensures id in Final(raw) <==> id in Final(Without(raw, i))
        ensures id in Final(raw) ==> Final(raw)[id] == Final(Without(raw, i))[id]
      {
        FinalElsewhere(raw, i, id);
      }
    }
  }

  // ----- the protocol -----

  datatype Phase = Fetched(batch: seq<nat>) | Inserted(batch: seq<nat>)

  /** `busy` holds the shippers in the middle of a cycle. */
  datatype Pipe = Pipe(log: seq<Event>, shipped: set<nat>, raw: seq<ChRow>, busy: map<nat, Phase>)

  datatype PipeStep =
    | Append(e: Event)
    | Fetch(s: nat, limit: nat)
    | InsertRows(s: nat, sent: seq<nat>, ok: bool)
    | Mark(s: nat, ok: bool)
    | Die(s: nat)
    | Merge(i: nat, j: nat)

  ghost predicate PipeEnabled(p: Pipe, x: PipeStep) {
    match x
    case Append(_) => true
    case Fetch(s, _) => s !in p.busy
    case InsertRows(s, sent, ok) =>
      && s in p.busy && p.busy[s].Fetched?
      && (forall i :: 0 <= i < |sent| ==> sent[i] in p.busy[s].batch && sent[i] < |p.log|)
      && (ok ==> sent == p.busy[s].batch)
    case Mark(s, _) => s in p.busy && p.busy[s].Inserted?
    case Die(s) => s in p.busy
    case Merge(i, j) => i < j < |p.raw| && p.raw[i].eventId == p.raw[j].eventId
  }

  function Rows(log: seq<Event>, ids: seq<nat>): seq<ChRow>
    requires forall i :: 0 <= i < |ids| ==> ids[i] < |log|
  {
    seq(|ids|, i requires 0 <= i < |ids| => ToCh(ids[i], log[ids[i]]))
  }

  ghost function PipeNext(p: Pipe, x: PipeStep): Pipe
    requires PipeEnabled(p, x)
  {
    match x
    case Append(e) => p.(log := p.log + [e])
    case Fetch(s, limit) =>
      var b := Batch(p.shipped, |p.log|, limit);
      if b == [] then p else p.(busy := p.busy[s := Fetched(b)])
    case InsertRows(s, sent, ok) =>
      p.(raw := p.raw + Rows(p.log, sent),
         busy := if ok then p.busy[s := Inserted(p.busy[s].batch)] else p.busy - {s})
    case Mark(s, ok) =>
      p.(shipped := if ok then p.shipped + IdSet(p.busy[s].batch) else p.shipped, busy := p.busy - {s})
    case Die(s) => p.(busy := p.busy - {s})
    case Merge(i, _) => p.(raw := Without(p.raw, i))
  }

  ghost predicate IsPipeRun(p: Pipe, run: seq<PipeStep>)
    decreases |run|
  {
    run == [] || (PipeEnabled(p, run[0]) && IsPipeRun(PipeNext(p, run[0]), run[1..]))
  }

  ghost function PipeAfter(p: Pipe, run: seq<PipeStep>): Pipe
    requires IsPipeRun(p, run)
    decreases |run|
  {
    if run == [] then p else PipeAfter(PipeNext(p, run[0]), run[1..])
  }

  lemma PipePrepend(p: Pipe, x: PipeStep, rest: seq<PipeStep>)
    requires PipeEnabled(p, x) && IsPipeRun(PipeNext(p, x), rest)
    ensures IsPipeRun(p, [x] + rest) && PipeAfter(p, [x] + rest) == PipeAfter(PipeNext(p, x), rest)
  {
    assert ([x] + rest)[0] == x && ([x] + rest)[1..] == rest;
  }

  lemma {:induction false} PipeConcat(p: Pipe, first: seq<PipeStep>, second: seq<PipeStep>)
    requires IsPipeRun(p, first) && IsPipeRun(PipeAfter(p, first), second)
    ensures IsPipeRun(p, first + second) && PipeAfter(p, first + second) == PipeAfter(PipeAfter(p, first), second)
    decreases |first|
  {
    if first == [] {
      assert first + second == second;
    } else {
      assert (first + second)[1..] == first[1..] + second;
      PipeConcat(PipeNext(p, first[0]), first[1..], second);
    }
  }

  const EMPTY_PIPE := Pipe([], {}, [], map[])

  // ----- nothing is lost, nothing is invented -----

  ghost predicate Present(raw: seq<ChRow>, id: nat) {
    exists k :: 0 <= k < |raw| && raw[k].eventId == id
  }

  ghost predicate Genuine(p: Pipe, r: ChRow) {
    r.eventId < |p.log| && r == ToCh(r.eventId, p.log[r.eventId])
  }

  ghost predicate PipeInv(p: Pipe) {
    && (forall k :: 0 <= k < |p.raw| ==> Genuine(p, p.raw[k]))
    && (forall id :: id in p.shipped ==> id < |p.log| && Present(p.raw, id))
    && (forall s, id :: s in p.busy && id in p.busy[s].batch ==> id < |p.log|)
    && (forall s, id :: s in p.busy && p.busy[s].Inserted? && id in p.busy[s].batch ==> Present(p.raw, id))
  }

  lemma PresentGrows(raw: seq<ChRow>, more: seq<ChRow>, id: nat)
    requires Present(raw, id) || Present(more, id)
    ensures Present(raw + more, id)
  {
    if Present(raw, id) {
      var k :| 0 <= k < |raw| && raw[k].eventId == id;
      assert (raw + more)[k].eventId == id;
    } else {
      var k :| 0 <= k < |more| && more[k].eventId == id;
      assert (raw + more)[|raw| + k].eventId == id;
    }
  }

  lemma PresentSurvivesMerge(raw: seq<ChRow>, i: nat, j: nat, id: nat)
    requires i < j < |raw| && raw[i].eventId == raw[j].eventId && Present(raw, id)
    ensures Present(Without(raw, i), id)
  {
    var k :| 0 <= k < |raw| && raw[k].eventId == id;
    var k' := if k == i then j else k;
    assert Without(raw, i)[if k' < i then k' else k' - 1] == raw[k'];
  }

  lemma PipeInvStep(p: Pipe, x: PipeStep)
    requires PipeInv(p) && PipeEnabled(p, x)
    ensures PipeInv(PipeNext(p, x))
  {
    var p' := PipeNext(p, x);
    match x
    case Append(_) =>
    case Fetch(_, limit) => BatchIsFirst(p.shipped, |p.log|, limit);
    case InsertRows(s, sent, ok) =>
      var more := Rows(p.log, sent);
      forall k | 0 <= k < |p'.raw| ensures Genuine(p', p'.raw[k]) {
        assert k >= |p.raw| ==> p'.raw[k] == more[k - |p.raw|];
      }
      forall id | Present(p.raw, id) ensures Present(p'.raw, id) { PresentGrows(p.raw, more, id); }
      forall id | id in sent ensures Present(p'.raw, id) {
        var i :| 0 <= i < |sent| && sent[i] == id;
        assert more[i].eventId == id;
        PresentGrows(p.raw, more, id);
      }
    case Mark(_, _) =>
    case Die(_) =>
    case Merge(i, j) =>
      forall id | Present(p.raw, id) ensures Present(p'.raw, id) { PresentSurvivesMerge(p.raw, i, j, id); }
  }

  lemma {:induction false} PipeInvRun(p: Pipe, run: seq<PipeStep>)
    requires PipeInv(p) && IsPipeRun(p, run)
    ensures PipeInv(PipeAfter(p, run))
    decreases |run|
  {
    if run != [] {
      PipeInvStep(p, run[0]);
      PipeInvRun(PipeNext(p, run[0]), run[1..]);
    }
  }

  lemma {:induction false} FinalHolds(raw: seq<ChRow>, id: nat)
    ensures id in Final(raw) <==> Present(raw, id)
    ensures id in Final(raw) ==> exists k :: 0 <= k < |raw| && raw[k] == Final(raw)[id] && raw[k].eventId == id
    decreases |raw|
  {
    if raw != [] {
      var n := |raw| - 1;
      FinalHolds(raw[..n], id);
      if raw[n].eventId != id && Present(raw, id) {
        var k :| 0 <= k < |raw| && raw[k].eventId == id;
        assert raw[..n][k].eventId == id;
      }
      if id in Final(raw[..n]) {
        var k :| 0 <= k < n && raw[..n][k] == Final(raw[..n])[id] && raw[..n][k].eventId == id;
        assert raw[k] == raw[..n][k];
      }
      assert raw[n].eventId == id ==> raw[n] == Final(raw)[id];
    }
  }

  /** Over every interleaving: a row marked shipped is in ClickHouse, and the deduplicated view holds nothing
      but faithful copies of outbox rows. */
  lemma ShippingIsFaithful(run: seq<PipeStep>)
    requires IsPipeRun(EMPTY_PIPE, run)
    ensures var p := PipeAfter(EMPTY_PIPE, run);
            && (forall id :: id in p.shipped ==> id in Final(p.raw))
            && (forall id :: id in Final(p.raw) ==>
                  && id < |p.log| && Final(p.raw)[id] == ToCh(id, p.log[id])
                  && IsCopy(Final(p.raw)[id], id, p.log[id]))
            && (forall k :: 0 <= k < |p.raw| ==>
                  p.raw[k].eventId < |p.log| && IsCopy(p.raw[k], p.raw[k].eventId, p.log[p.raw[k].eventId]))
  {
    PipeInvRun(EMPTY_PIPE, run);
    var p := PipeAfter(EMPTY_PIPE, run);
    forall id: nat
      ensures id in p.shipped ==> id in Final(p.raw)
      ensures id in Final(p.raw) ==> id < |p.log| && Final(p.raw)[id] == ToCh(id, p.log[id])
    {
      FinalHolds(p.raw, id);
    }
    forall k | 0 <= k < |p.raw|
      ensures p.raw[k].eventId < |p.log| && IsCopy(p.raw[k], p.raw[k].eventId, p.log[p.raw[k].eventId])
    {
      assert Genuine(p, p.raw[k]);
    }
  }

  /** With nothing left unshipped the view is the outbox, row for row. */
  lemma FullyShippedViewIsLog(run: seq<PipeStep>)
    requires IsPipeRun(EMPTY_PIPE, run)
    requires Unshipped(PipeAfter(EMPTY_PIPE, run).shipped, |PipeAfter(EMPTY_PIPE, run).log|) == 0
    ensures var p := PipeAfter(EMPTY_PIPE, run);
            && Final(p.raw) == (map id: nat | id < |p.log| :: ToCh(id, p.log[id]))
            && forall id: nat :: id < |p.log| ==> id in Final(p.raw) && IsCopy(Final(p.raw)[id], id, p.log[id])
  {
    ShippingIsFaithful(run);
    var p := PipeAfter(EMPTY_PIPE, run);
    AllShipped(p.shipped, |p.log|);
  }

  // ----- progress -----

  /** The cycles shipper `s` brings to their end. */
  function Cycles(run: seq<PipeStep>, s: nat): nat {
    if run == [] then 0 else Cycles(run[1..], s) + if run[0] == Mark(s, true) then 1 else 0
  }

  ghost predicate FetchesAtLeast(run: seq<PipeStep>, s: nat, size: nat) {
    forall i :: 0 <= i < |run| && run[i].Fetch? && run[i].s == s ==> run[i].limit >= size
  }

  function Less(a: nat, b: nat): nat {
    if a <= b then 0 else a - b
  }

  /** What is left below `n` when shipper `s` is done with the batch it holds. */
  ghost function Pledged(p: Pipe, s: nat, n: nat): nat {
    Unshipped(if s in p.busy then p.shipped + IdSet(p.busy[s].batch) else p.shipped, n)
  }

  lemma ProgressStep(p: Pipe, x: PipeStep, s: nat, n: nat, size: nat, left: nat)
    requires PipeInv(p) && PipeEnabled(p, x) && n <= |p.log|
    requires x.Fetch? && x.s == s ==> x.limit >= size >= 1
    requires Unshipped(p.shipped, n) <= left && (s in p.busy ==> Pledged(p, s, n) <= Less(left, size))
    ensures var p' := PipeNext(p, x);
            var left' := if x == Mark(s, true) then Less(left, size) else left;
            && n <= |p'.log| && Unshipped(p'.shipped, n) <= left'
            && (s in p'.busy ==> Pledged(p', s, n) <= Less(left', size))
  {
    var p' := PipeNext(p, x);
    UnshippedAntitone(p.shipped, p'.shipped, n);
    if s in p.busy && s in p'.busy {
      assert p'.busy[s].batch == p.busy[s].batch;
      UnshippedAntitone(p.shipped + IdSet(p.busy[s].batch), p'.shipped + IdSet(p.busy[s].batch), n);
    }
    if x.Fetch? && x.s == s {
      BatchClears(p.shipped, |p.log|, x.limit, n);
    }
  }

  lemma FetchesTail(run: seq<PipeStep>, s: nat, size: nat)
    requires run != [] && FetchesAtLeast(run, s, size)
    ensures FetchesAtLeast(run[1..], s, size)
  {
    forall i | 0 <= i < |run[1..]| && run[1..][i].Fetch? && run[1..][i].s == s ensures run[1..][i].limit >= size {
      assert run[i + 1] == run[1..][i];
    }
  }

  lemma LessTwice(left: nat, size: nat, c: nat)
    ensures Less(Less(left, size), size * c) == Less(left, size * (c + 1))
  {
    assert size * (c + 1) == size * c + size;
  }

  lemma {:induction false} ProgressFrom(p: Pipe, run: seq<PipeStep>, s: nat, n: nat, size: nat, left: nat)
    requires PipeInv(p) && IsPipeRun(p, run) && n <= |p.log| && size >= 1 && FetchesAtLeast(run, s, size)
    requires Unshipped(p.shipped, n) <= left && (s in p.busy ==> Pledged(p, s, n) <= Less(left, size))
    ensures Unshipped(PipeAfter(p, run).shipped, n) <= Less(left, size * Cycles(run, s))
    decreases |run|
  {
    if run != [] {
      var x := run[0];
      FetchesTail(run, s, size);
      LessTwice(left, size, Cycles(run[1..], s));
      ProgressStep(p, x, s, n, size, left);
      PipeInvStep(p, x);
      var left' := if x == Mark(s, true) then Less(left, size) else left;
      ProgressFrom(PipeNext(p, x), run[1..], s, n, size, left');
    }
  }

  /** While other shippers run, fail and crash, each cycle one shipper completes takes at least a batch off
      the first `n` events of the outbox; enough cycles ship them all. */
  lemma ShipperProgress(past: seq<PipeStep>, run: seq<PipeStep>, s: nat, size: nat, n: nat)
    requires IsPipeRun(EMPTY_PIPE, past) && IsPipeRun(PipeAfter(EMPTY_PIPE, past), run)
    requires s !in PipeAfter(EMPTY_PIPE, past).busy && size >= 1 && FetchesAtLeast(run, s, size)
    requires n <= |PipeAfter(EMPTY_PIPE, past).log|
    ensures var p := PipeAfter(EMPTY_PIPE, past);
            && Unshipped(PipeAfter(p, run).shipped, n) <= Less(Unshipped(p.shipped, n), size * Cycles(run, s))
            && (size * Cycles(run, s) >= Unshipped(p.shipped, n) ==>
                  forall i: nat :: i < n ==> i in PipeAfter(p, run).shipped)
  {
    PipeInvRun(EMPTY_PIPE, past);
    var p := PipeAfter(EMPTY_PIPE, past);
    ProgressFrom(p, run, s, n, size, Unshipped(p.shipped, n));
    AllShipped(PipeAfter(p, run).shipped, n);
  }
}
