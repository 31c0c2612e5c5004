/** The ClickHouse reports as folds over event rows, and what they say about the live queue. */
module Reports {
  import opened Jobs
  import opened Statements
  import opened Runs
  import opened EventLog
  import opened Invariants
  import opened Fencing
  import opened Shipping

  // ----- backlog -----

  function Weight(kind: EventKind): int {
    if kind == EventEnqueued then 1 else if IsDeparture(kind) then -1 else 0
  }

  /** toStartOfInterval, for an interval of `size` milliseconds. */
  function StartOfInterval(size: int): int -> int
    requires size > 0
  {
    ms => ms - ms % size
  }

  function Window(rows: seq<ChRow>, since: int): seq<ChRow> {
    if rows == [] then []
    else Window(rows[..|rows| - 1], since) + if rows[|rows| - 1].occurredMs >= since then [rows[|rows| - 1]] else []
  }

  /** Arrivals minus departures among the rows of bucket `b`. */
  function NetIn(rows: seq<ChRow>, bucket: int -> int, b: int): int {
    if rows == [] then 0
    else
      var r := rows[|rows| - 1];
      NetIn(rows[..|rows| - 1], bucket, b) + if bucket(r.occurredMs) == b then Weight(r.kind) else 0
  }

  /** Arrivals minus departures among the rows of bucket `b` and all earlier ones. */
  function NetUpTo(rows: seq<ChRow>, bucket: int -> int, b: int): int {
    if rows == [] then 0
    else
      var r := rows[|rows| - 1];
      NetUpTo(rows[..|rows| - 1], bucket, b) + if bucket(r.occurredMs) <= b then Weight(r.kind) else 0
  }

  function InsertSorted(bs: seq<int>, b: int): seq<int> {
    if bs == [] || b < bs[0] then [b] + bs
    else if b == bs[0] then bs
    else [bs[0]] + InsertSorted(bs[1..], b)
  }

  predicate Increasing(bs: seq<int>) {
    forall i, j :: 0 <= i < j < |bs| ==> bs[i] < bs[j]
  }

  lemma {:induction false} InsertSortedOk(bs: seq<int>, b: int)
    requires Increasing(bs)
    ensures Increasing(InsertSorted(bs, b))
    ensures forall x :: x in InsertSorted(bs, b) <==> x in bs || x == b
    decreases |bs|
  {
    if bs != [] && b > bs[0] {
      InsertSortedOk(bs[1..], b);
      var rest := InsertSorted(bs[1..], b);
      forall i | 0 <= i < |rest| ensures bs[0] < rest[i] {
        assert rest[i] in rest;
      }
      assert bs == [bs[0]] + bs[1..];
    }
  }

  /** GROUP BY bucket ORDER BY bucket: the buckets that occur, ascending. */
  function Buckets(rows: seq<ChRow>, bucket: int -> int): seq<int> {
    if rows == [] then [] else InsertSorted(Buckets(rows[..|rows| - 1], bucket), bucket(rows[|rows| - 1].occurredMs))
  }

  lemma {:induction false} BucketsOk(rows: seq<ChRow>, bucket: int -> int)
    ensures Increasing(Buckets(rows, bucket))
    ensures forall r :: r in rows ==> bucket(r.occurredMs) in Buckets(rows, bucket)
    ensures forall b :: b in Buckets(rows, bucket) ==> exists r :: r in rows && bucket(r.occurredMs) == b
    decreases |rows|
  {
    if rows != [] {
      BucketsOk(rows[..|rows| - 1], bucket);
      InsertSortedOk(Buckets(rows[..|rows| - 1], bucket), bucket(rows[|rows| - 1].occurredMs));
      assert rows == rows[..|rows| - 1] + [rows[|rows| - 1]];
    }
  }

  /** sum(net_change) OVER (ORDER BY bucket), at bucket number `i`. */
  function RunningSum(rows: seq<ChRow>, bucket: int -> int, bs: seq<int>, i: nat): int
    requires i < |bs|
  {
    NetIn(rows, bucket, bs[i]) + if i == 0 then 0 else RunningSum(rows, bucket, bs, i - 1)
  }

  datatype BacklogPoint = BacklogPoint(bucket: int, cumulative: int)

  function Backlog(rows: seq<ChRow>, since: int, bucket: int -> int): seq<BacklogPoint> {
    var recent := Window(rows, since);
    var bs := Buckets(recent, bucket);
    seq(|bs|, i requires 0 <= i < |bs| => BacklogPoint(bs[i], RunningSum(recent, bucket, bs, i)))
  }

  lemma {:induction false} NetSplits(rows: seq<ChRow>, bucket: int -> int, lo: int, hi: int)
    requires lo < hi
    requires forall r :: r in rows ==> bucket(r.occurredMs) <= lo || bucket(r.occurredMs) >= hi
    ensures NetUpTo(rows, bucket, hi) == NetUpTo(rows, bucket, lo) + NetIn(rows, bucket, hi)
    decreases |rows|
  {
    if rows != [] {
      assert rows[|rows| - 1] in rows;
      forall r | r in rows[..|rows| - 1] ensures r in rows {}
      NetSplits(rows[..|rows| - 1], bucket, lo, hi);
    }
  }

  lemma {:induction false} NetFirst(rows: seq<ChRow>, bucket: int -> int, b: int)
    requires forall r :: r in rows ==> bucket(r.occurredMs) >= b
    ensures NetUpTo(rows, bucket, b) == NetIn(rows, bucket, b)
    decreases |rows|
  {
    if rows != [] {
      assert rows[|rows| - 1] in rows;
      NetFirst(rows[..|rows| - 1], bucket, b);
    }
  }

  lemma {:induction false} RunningSumIsPrefix(rows: seq<ChRow>, bucket: int -> int, i: nat)
    requires i < |Buckets(rows, bucket)|
    ensures var bs := Buckets(rows, bucket); RunningSum(rows, bucket, bs, i) == NetUpTo(rows, bucket, bs[i])
    decreases i
  {
    var bs := Buckets(rows, bucket);
    BucketsOk(rows, bucket);
    if i == 0 {
      forall r | r in rows ensures bucket(r.occurredMs) >= bs[0] {
        var k :| 0 <= k < |bs| && bs[k] == bucket(r.occurredMs);
      }
      NetFirst(rows, bucket, bs[0]);
    } else {
      forall r | r in rows
        ensures bucket(r.occurredMs) <= bs[i - 1] || bucket(r.occurredMs) >= bs[i]
      {
        var k :| 0 <= k < |bs| && bs[k] == bucket(r.occurredMs);
      }
      NetSplits(rows, bucket, bs[i - 1], bs[i]);
      RunningSumIsPrefix(rows, bucket, i - 1);
    }
  }

  /** Every point of the report is arrivals minus departures from the start of the window through its bucket;
      the points come in order of time. */
  lemma BacklogPoints(rows: seq<ChRow>, since: int, bucket: int -> int)
    ensures var report := Backlog(rows, since, bucket);
            && (forall i :: 0 <= i < |report| ==>
                  report[i].cumulative == NetUpTo(Window(rows, since), bucket, report[i].bucket))
            && (forall i, j :: 0 <= i < j < |report| ==> report[i].bucket < report[j].bucket)
  {
    var recent := Window(rows, since);
    var report := Backlog(rows, since, bucket);
    BucketsOk(recent, bucket);
    forall i | 0 <= i < |report| ensures report[i].cumulative == NetUpTo(recent, bucket, report[i].bucket) {
      RunningSumIsPrefix(recent, bucket, i);
    }
  }

  // ----- the buckets as intervals of time -----

  lemma ScaleOrder(size: int, a: int, b: int)
    requires size > 0
    ensures a <= b ==> size * a <= size * b
  {
  }

  lemma MultiplesApart(size: int, x: int, y: int)
    requires size > 0 && x % size == 0 && y % size == 0 && y < x
    ensures y + size <= x
  {
    var k, n := x / size, y / size;
    assert x == size * k && y == size * n;
    ScaleOrder(size, k, n);
    ScaleOrder(size, n + 1, k);
  }

  /** A bucket starts at a multiple of its size and holds the times from there up to the next multiple. */
  lemma BucketStart(size: int, ms: int)
    requires size > 0
    ensures var start := StartOfInterval(size)(ms);
            start % size == 0 && start <= ms < start + size
  {
    assert ms == size * (ms / size) + ms % size;
    var k := ms / size;
    assert (size * k) % size == 0 by { MultipleMod(size, k); }
  }

  lemma MultipleMod(size: int, k: int)
    requires size > 0
    ensures (size * k) % size == 0
  {
    var q, r := (size * k) / size, (size * k) % size;
    assert size * (k - q) == r;
    ScaleOrder(size, 1, k - q);
    ScaleOrder(size, k - q, -1);
  }

  lemma BucketOrder(size: int, ms: int, b: int)
    requires size > 0 && b % size == 0
    ensures StartOfInterval(size)(ms) <= b <==> ms < b + size
  {
    BucketStart(size, ms);
    if b < StartOfInterval(size)(ms) { MultiplesApart(size, StartOfInterval(size)(ms), b); }
  }

  /** Arrivals minus departures among the rows from `since` up to, and not including, `end`. */
  function NetBetween(rows: seq<ChRow>, since: int, end: int): int {
    if rows == [] then 0
    else
      var r := rows[|rows| - 1];
      NetBetween(rows[..|rows| - 1], since, end) + if since <= r.occurredMs < end then Weight(r.kind) else 0
  }

  lemma NetUpToSnoc(rows: seq<ChRow>, r: ChRow, bucket: int -> int, b: int)
    ensures NetUpTo(rows + [r], bucket, b) ==
            NetUpTo(rows, bucket, b) + if bucket(r.occurredMs) <= b then Weight(r.kind) else 0
  {
    assert (rows + [r])[..|rows|] == rows;
  }

  lemma {:induction false} NetUpToIsBetween(rows: seq<ChRow>, since: int, size: int, b: int)
    requires size > 0 && b % size == 0
    ensures NetUpTo(Window(rows, since), StartOfInterval(size), b) == NetBetween(rows, since, b + size)
    decreases |rows|
  {
    if rows != [] {
      var rest, r := rows[..|rows| - 1], rows[|rows| - 1];
      NetUpToIsBetween(rest, since, size, b);
      BucketOrder(size, r.occurredMs, b);
      if r.occurredMs >= since {
        NetUpToSnoc(Window(rest, since), r, StartOfInterval(size), b);
      } else {
        assert Window(rows, since) == Window(rest, since);
      }
    }
  }

  lemma {:induction false} WindowRows(rows: seq<ChRow>, since: int)
    ensures forall r :: r in Window(rows, since) <==> r in rows && r.occurredMs >= since
    decreases |rows|
  {
    if rows != [] {
      WindowRows(rows[..|rows| - 1], since);
      assert rows == rows[..|rows| - 1] + [rows[|rows| - 1]];
    }
  }

  lemma PointRow(rows: seq<ChRow>, since: int, bucket: int -> int, i: nat) returns (r: ChRow)
    requires i < |Backlog(rows, since, bucket)|
    ensures var point := Backlog(rows, since, bucket)[i];
            && r in rows && r.occurredMs >= since && bucket(r.occurredMs) == point.bucket
            && point.cumulative == NetUpTo(Window(rows, since), bucket, point.bucket)
  {
    var recent, point := Window(rows, since), Backlog(rows, since, bucket)[i];
    BacklogPoints(rows, since, bucket);
    BucketsOk(recent, bucket);
    assert point.bucket in Buckets(recent, bucket);
    r :| r in recent && bucket(r.occurredMs) == point.bucket;
    WindowRows(rows, since);
  }

  /** The report in terms of time: a point for each interval of `size` milliseconds that has rows of the window,
      with the arrivals minus departures from the start of the window to the end of that interval. */
  lemma BacklogByTime(rows: seq<ChRow>, since: int, size: int, i: nat) returns (r: ChRow)
    requires size > 0 && i < |Backlog(rows, since, StartOfInterval(size))|
    ensures var point := Backlog(rows, since, StartOfInterval(size))[i];
            && point.bucket % size == 0
            && point.cumulative == NetBetween(rows, since, point.bucket + size)
            && r in rows && r.occurredMs >= since && point.bucket <= r.occurredMs < point.bucket + size
  {
    r := PointRow(rows, since, StartOfInterval(size), i);
    BucketStart(size, r.occurredMs);
    NetUpToIsBetween(rows, since, size, StartOfInterval(size)(r.occurredMs));
  }

  // ----- the log and the live table -----

  function NetLog(log: seq<Event>): int {
    if log == [] then 0 else NetLog(log[..|log| - 1]) + Weight(log[|log| - 1].kind)
  }

  /** How many events hit a job whose log already said completed or failed. */
  function TerminalHits(log: seq<Event>): nat {
    if log == [] then 0
    else
      var n := |log| - 1;
      var before := Replay(log[..n], log[n].jobId);
      TerminalHits(log[..n]) + if before.Some? && Terminal(before.value.status) then 1 else 0
  }

  /** Queued plus running jobs with id below `n`. */
  function Live(jobs: map<nat, Row>, n: nat): nat {
    if n == 0 then 0 else Live(jobs, n - 1) + LiveOne(jobs, n - 1)
  }

  function LiveOne(jobs: map<nat, Row>, id: nat): nat {
    if id in jobs && !Terminal(jobs[id].status) then 1 else 0
  }

  lemma {:induction false} LiveCounts(jobs: map<nat, Row>, n: nat)
    ensures Live(jobs, n) == |set id | id in jobs && id < n && !Terminal(jobs[id].status)|
  {
    if n > 0 {
      LiveCounts(jobs, n - 1);
      var smaller := set id | id in jobs && id < n - 1 && !Terminal(jobs[id].status);
      assert (set id | id in jobs && id < n && !Terminal(jobs[id].status)) ==
             smaller + if LiveOne(jobs, n - 1) == 1 then {n - 1} else {};
    } else {
      assert (set id | id in jobs && id < 0 && !Terminal(jobs[id].status)) == {};
    }
  }

  lemma {:induction false} LiveUpdate(jobs: map<nat, Row>, id: nat, r: Row, n: nat)
    ensures Live(jobs[id := r], n) ==
            Live(jobs, n) + if id < n then LiveOne(jobs[id := r], id) - LiveOne(jobs, id) else 0
    decreases n
  {
    if n > 0 { LiveUpdate(jobs, id, r, n - 1); }
  }

  lemma {:induction false} LiveExtend(jobs: map<nat, Row>, n: nat, m: nat)
    requires n <= m && forall k :: k in jobs ==> k < n
    ensures Live(jobs, m) == Live(jobs, n)
    decreases m
  {
    if n < m { LiveExtend(jobs, n, m - 1); }
  }

  ghost predicate NetOk(w: World) {
    NetLog(w.db.log) + TerminalHits(w.db.log) == Live(w.db.jobs, w.db.nextId)
  }

  lemma EventLiveness(w: World, e: Effect)
    requires EffectOk(w, e) && RowsOk(w) && Logs(w, e)
    ensures var ev := Apply(w, e).db.log[|w.db.log|];
            && LiveOne(Apply(w, e).db.jobs, ev.jobId) == (if IsDeparture(ev.kind) then 0 else 1)
            && (ev.jobId !in w.db.jobs <==> ev.kind == EventEnqueued)
            && (ev.kind == EventClaimed || IsReap(ev.kind) ==> LiveOne(w.db.jobs, ev.jobId) == 1)
            && Apply(w, e).db.nextId >= w.db.nextId && ev.jobId < Apply(w, e).db.nextId
            && Apply(w, e).db.jobs == w.db.jobs[ev.jobId := Apply(w, e).db.jobs[ev.jobId]]
  {
  }

  /** What one event does to the balance. */
  lemma LiveEffect(w: World, e: Effect)
    requires EffectOk(w, e) && RowsOk(w) && Logs(w, e)
    ensures var ev := Apply(w, e).db.log[|w.db.log|];
            Live(Apply(w, e).db.jobs, Apply(w, e).db.nextId) ==
            Live(w.db.jobs, w.db.nextId) + LiveOne(Apply(w, e).db.jobs, ev.jobId) - LiveOne(w.db.jobs, ev.jobId)
  {
    EventLiveness(w, e);
    var db' := Apply(w, e).db;
    var id := db'.log[|w.db.log|].jobId;
    LiveUpdate(w.db.jobs, id, db'.jobs[id], db'.nextId);
    LiveExtend(w.db.jobs, w.db.nextId, db'.nextId);
  }

  lemma KeepsNet(w: World, e: Effect)
    requires EffectOk(w, e) && Inv(w) && NetOk(w)
    ensures NetOk(Apply(w, e))
  {
    var w' := Apply(w, e);
    LogGrows(w, e);
    if Logs(w, e) {
      LiveEffect(w, e);
      EventLiveness(w, e);
      var ev := w'.db.log[|w.db.log|];
      assert Replay(w.db.log, ev.jobId) == RowState(w.db, ev.jobId);
    }
  }

  lemma NoHit(w: World, e: Effect)
    requires EffectOk(w, e) && SafeInv(w) && SafeEffect(w, e)
    ensures TerminalHits(Apply(w, e).db.log) == TerminalHits(w.db.log)
  {
    var w' := Apply(w, e);
    LogGrows(w, e);
    if Logs(w, e) {
      var ev := w'.db.log[|w.db.log|];
      assert Replay(w.db.log, ev.jobId) == RowState(w.db, ev.jobId);
      if ev.jobId in w.db.jobs && Terminal(w.db.jobs[ev.jobId].status) { TerminalUntouched(w, e, ev.jobId); }
      if !e.Insert? { EffectMoves(w, e); }
    }
  }

  lemma {:induction false} NetEffects(w: World, es: seq<Effect>)
    requires Inv(w) && NetOk(w) && EffectsOk(w, es)
    ensures NetOk(ApplyAll(w, es))
    decreases |es|
  {
    if es != [] {
      KeepsNet(w, es[0]);
      InvEffect(w, es[0]);
      NetEffects(Apply(w, es[0]), es[1..]);
    }
  }

  lemma {:induction false} NetRun(w: World, run: seq<Action>)
    requires Inv(w) && NetOk(w) && IsRun(w, run)
    ensures NetOk(After(w, run))
    decreases |run|
  {
    if run != [] {
      EnabledEffectsOk(w, run[0]);
      NetEffects(w, Effects(w, run[0]));
      InvNext(w, run[0]);
      NetRun(Next(w, run[0]), run[1..]);
    }
  }

  lemma {:induction false} NoHitEffects(w: World, es: seq<Effect>)
    requires SafeInv(w) && EffectsOk(w, es) && forall e :: e in es ==> !IsReportEffect(e)
    ensures TerminalHits(ApplyAll(w, es).db.log) == TerminalHits(w.db.log)
    decreases |es|
  {
    if es != [] {
      assert !IsReportEffect(es[0]);
      NoHit(w, es[0]);
      SafeInvEffect(w, es[0]);
      NoHitEffects(Apply(w, es[0]), es[1..]);
    }
  }

  lemma {:induction false} NoHitRun(w: World, run: seq<Action>)
    requires SafeInv(w) && IsRun(w, run) && ReportsMeet(Unreaped, w, run)
    ensures TerminalHits(After(w, run).db.log) == TerminalHits(w.db.log)
    decreases |run|
  {
    if run != [] {
      var a := run[0];
      EnabledEffectsOk(w, a);
      if a.Report? {
        var e := ReportEffect(w, a.t, a.result);
        OneEffect(w, e);
        NoHit(w, e);
      } else {
        OnlyReportsReport(w, a);
        NoHitEffects(w, Effects(w, a));
      }
      SafeInvNext(w, a);
      NoHitRun(Next(w, a), run[1..]);
    }
  }

  /** Queued and running jobs. */
  ghost function LiveJobs(db: Db): set<nat> {
    set id | id in db.jobs && !Terminal(db.jobs[id].status)
  }

  lemma Balance(clock: int, run: seq<Action>)
    requires IsRun(Init(clock), run)
    ensures var db := After(Init(clock), run).db; NetLog(db.log) + TerminalHits(db.log) == |LiveJobs(db)|
  {
    var w := After(Init(clock), run);
    InvInit(clock);
    NetRun(Init(clock), run);
    InvRun(Init(clock), run);
    LiveCounts(w.db.jobs, w.db.nextId);
    assert LiveJobs(w.db) == (set id | id in w.db.jobs && id < w.db.nextId && !Terminal(w.db.jobs[id].status));
  }

  /** In every run, arrivals minus departures fall short of the live count by exactly the events that hit a
      terminal job; in disciplined runs there are none. */
  lemma NetAgainstLive(clock: int, run: seq<Action>)
    requires IsRun(Init(clock), run)
    ensures var db := After(Init(clock), run).db;
            && NetLog(db.log) + TerminalHits(db.log) == |LiveJobs(db)|
            && (NetLog(db.log) == |LiveJobs(db)| <==> TerminalHits(db.log) == 0)
            && (forall d: Discipline :: ReportsMeet(d, Init(clock), run) ==> TerminalHits(db.log) == 0)
  {
    Balance(clock, run);
    forall d: Discipline | ReportsMeet(d, Init(clock), run) ensures TerminalHits(After(Init(clock), run).db.log) == 0 {
      SafeInvInit(clock);
      DisciplineIsUnreaped(d, Init(clock), run);
      NoHitRun(Init(clock), run);
    }
  }

  // ----- how the balance moves between two states -----

  function InWindow(e: Event, since: int): int {
    if e.occurredAt / 1000 >= since then Weight(e.kind) else 0
  }

  /** Arrivals minus departures among the events of the log that fall in the window. */
  function NetSince(log: seq<Event>, since: int): int {
    if log == [] then 0 else NetSince(log[..|log| - 1], since) + InWindow(log[|log| - 1], since)
  }

  /** An arrival or departure is stamped with the clock: none lies ahead of it, and from event `n` on none
      before `start`. */
  ghost predicate TimesOk(w: World, n: nat, start: int) {
    && start <= w.clock
    && forall i :: 0 <= i < |w.db.log| && Weight(w.db.log[i].kind) != 0 ==>
         w.db.log[i].occurredAt <= w.clock && (i >= n ==> start <= w.db.log[i].occurredAt)
  }

  lemma KeepsTimes(w: World, e: Effect, n: nat, start: int)
    requires EffectOk(w, e) && TimesOk(w, n, start)
    ensures TimesOk(Apply(w, e), n, start)
  {
  }

  lemma {:induction false} TimesEffects(w: World, es: seq<Effect>, n: nat, start: int)
    requires EffectsOk(w, es) && TimesOk(w, n, start)
    ensures TimesOk(ApplyAll(w, es), n, start)
    decreases |es|
  {
    if es != [] {
      KeepsTimes(w, es[0], n, start);
      TimesEffects(Apply(w, es[0]), es[1..], n, start);
    }
  }

  lemma {:induction false} TimesRun(w: World, run: seq<Action>, n: nat, start: int)
    requires IsRun(w, run) && TimesOk(w, n, start)
    ensures TimesOk(After(w, run), n, start)
    decreases |run|
  {
    if run != [] {
      EnabledEffectsOk(w, run[0]);
      TimesEffects(w, Effects(w, run[0]), n, start);
      TimesRun(Next(w, run[0]), run[1..], n, start);
    }
  }

  lemma {:induction false} EffectsKeepClock(w: World, es: seq<Effect>)
    requires EffectsOk(w, es) && forall e :: e in es ==> !e.Advance?
    ensures ApplyAll(w, es).clock == w.clock
    decreases |es|
  {
    if es != [] {
      assert es[0] in es;
      EffectsKeepClock(Apply(w, es[0]), es[1..]);
    }
  }

  lemma ClockStays(w: World, a: Action)
    requires Enabled(w, a) && !a.Tick?
    ensures Next(w, a).clock == w.clock
  {
    EnabledEffectsOk(w, a);
    match a {
      case Claim(worker, at, lease, _, _, chosen) => ClaimEffectsAreClaims(worker, at, lease, chosen);
      case Reap(order) => ReapEffectsAreReaps(order);
      case _ =>
    }
    EffectsKeepClock(w, Effects(w, a));
  }

  /** The window that starts at `since` opens between `past` and `future`: what `past` left behind is older, and
      time has reached `since` before `future` does anything. Every run splits this way (`EveryRunSplits`). */
  ghost predicate SplitAt(clock: int, past: seq<Action>, future: seq<Action>, since: int) {
    SplitsFrom(Init(clock), past, future, since)
  }

  ghost predicate SplitsFrom(w: World, past: seq<Action>, future: seq<Action>, since: int) {
    && IsRun(w, past) && IsRun(After(w, past), future)
    && (past == [] || After(w, past).clock / 1000 < since)
    && (future == [] || Next(After(w, past), future[0]).clock / 1000 >= since)
  }

  lemma {:induction false} SplitFrom(w: World, run: seq<Action>, since: int)
    returns (past: seq<Action>, future: seq<Action>)
    requires IsRun(w, run)
    ensures past + future == run && SplitsFrom(w, past, future, since)
    decreases |run|
  {
    if run == [] || Next(w, run[0]).clock / 1000 >= since {
      past, future := [], run;
    } else {
      var before, after := SplitFrom(Next(w, run[0]), run[1..], since);
      Prepend(w, run[0], before);
      past, future := [run[0]] + before, after;
      if before == [] { assert After(w, past) == Next(w, run[0]); }
    }
  }

  lemma EveryRunSplits(clock: int, run: seq<Action>, since: int) returns (past: seq<Action>, future: seq<Action>)
    requires IsRun(Init(clock), run)
    ensures past + future == run && SplitAt(clock, past, future, since)
  {
    past, future := SplitFrom(Init(clock), run, since);
  }

  lemma SplitTimes(clock: int, past: seq<Action>, future: seq<Action>, since: int)
    requires SplitAt(clock, past, future, since)
    ensures var before, after := After(Init(clock), past).db.log, After(After(Init(clock), past), future).db.log;
            && before <= after
            && forall i :: 0 <= i < |after| && Weight(after[i].kind) != 0 ==>
                 (after[i].occurredAt / 1000 >= since <==> i >= |before|)
  {
    var w1 := After(Init(clock), past);
    var n := |w1.db.log|;
    TimesRun(Init(clock), past, 0, clock);
    LogExtends(w1, future);
    if future != [] {
      var a := future[0];
      var w2 := Next(w1, a);
      if a.Tick? {
        TickOnly(w1, a.dt);
      } else {
        EnabledEffectsOk(w1, a);
        ClockStays(w1, a);
        TimesEffects(w1, Effects(w1, a), n, w1.clock);
      }
      TimesRun(w2, future[1..], n, w2.clock);
    }
  }

  lemma {:induction false} NetSinceSplits(log: seq<Event>, n: nat, since: int)
    requires n <= |log|
    requires forall i :: 0 <= i < |log| && Weight(log[i].kind) != 0 ==> (log[i].occurredAt / 1000 >= since <==> i >= n)
    ensures NetSince(log, since) == NetLog(log) - NetLog(log[..n])
    decreases |log|
  {
    var last := |log| - 1;
    if n == |log| && n > 0 {
      NetSinceSplits(log[..last], last, since);
      assert log[..n] == log && log[..last][..last] == log[..last];
    } else if n < |log| {
      NetSinceSplits(log[..last], n, since);
      assert log[..last][..n] == log[..n];
    }
  }

  // ----- the report on any part of the log, with any copies -----

  lemma LastBucket(rows: seq<ChRow>, bucket: int -> int)
    requires rows != []
    ensures var bs := Buckets(rows, bucket);
            |bs| > 0 && forall r :: r in rows ==> bucket(r.occurredMs) <= bs[|bs| - 1]
  {
    var bs := Buckets(rows, bucket);
    BucketsOk(rows, bucket);
    assert rows[0] in rows;
    forall r | r in rows ensures bucket(r.occurredMs) <= bs[|bs| - 1] {
      var k :| 0 <= k < |bs| && bs[k] == bucket(r.occurredMs);
    }
  }

  /** Where the report ends; a window without rows has no points. */
  function LastValue(report: seq<BacklogPoint>): int {
    if report == [] then 0 else report[|report| - 1].cumulative
  }

  /** Arrivals minus departures of all rows. */
  function NetRows(rows: seq<ChRow>): int {
    if rows == [] then 0 else NetRows(rows[..|rows| - 1]) + Weight(rows[|rows| - 1].kind)
  }

  lemma {:induction false} NetUpToLast(rows: seq<ChRow>, bucket: int -> int, b: int)
    requires forall r :: r in rows ==> bucket(r.occurredMs) <= b
    ensures NetUpTo(rows, bucket, b) == NetRows(rows)
    decreases |rows|
  {
    if rows != [] {
      assert rows[|rows| - 1] in rows;
      NetUpToLast(rows[..|rows| - 1], bucket, b);
    }
  }

  lemma LastValueIsNet(rows: seq<ChRow>, since: int, bucket: int -> int)
    ensures LastValue(Backlog(rows, since, bucket)) == NetRows(Window(rows, since))
  {
    var recent := Window(rows, since);
    if recent != [] {
      var bs, report := Buckets(recent, bucket), Backlog(rows, since, bucket);
      LastBucket(recent, bucket);
      assert report[|bs| - 1] == BacklogPoint(bs[|bs| - 1], RunningSum(recent, bucket, bs, |bs| - 1));
      RunningSumIsPrefix(recent, bucket, |bs| - 1);
      NetUpToLast(recent, bucket, bs[|bs| - 1]);
    }
  }

  /** How many rows of the raw table are copies of event `id`. */
  function Copies(rows: seq<ChRow>, id: nat): nat {
    if rows == [] then 0 else Copies(rows[..|rows| - 1], id) + if rows[|rows| - 1].eventId == id then 1 else 0
  }

  /** The balance of the first `n` events, each as often as it was copied. */
  function Weighted(log: seq<Event>, rows: seq<ChRow>, since: int, n: nat): int
    requires n <= |log|
  {
    if n == 0 then 0
    else Weighted(log, rows, since, n - 1) + Copies(rows, n - 1) * InWindow(log[n - 1], since)
  }

  /** What copies beyond the first add to that balance; an event with no copy counts as one too few. */
  function Excess(log: seq<Event>, rows: seq<ChRow>, since: int, n: nat): int
    requires n <= |log|
  {
    if n == 0 then 0
    else Excess(log, rows, since, n - 1) + (Copies(rows, n - 1) - 1) * InWindow(log[n - 1], since)
  }

  lemma {:induction false} WeightedSnoc(log: seq<Event>, rows: seq<ChRow>, since: int, n: nat)
    requires n <= |log| && rows != []
    ensures var last := rows[|rows| - 1].eventId;
            Weighted(log, rows, since, n) == Weighted(log, rows[..|rows| - 1], since, n) +
                                             if last < n then InWindow(log[last], since) else 0
    decreases n
  {
    if n > 0 {
      WeightedSnoc(log, rows, since, n - 1);
      if rows[|rows| - 1].eventId == n - 1 {
        OneMore(Copies(rows[..|rows| - 1], n - 1), InWindow(log[n - 1], since));
      }
    }
  }

  lemma OneMore(c: nat, x: int)
    ensures (c + 1) * x == c * x + x
  {
  }

  lemma {:induction false} NoRowsNoWeight(log: seq<Event>, since: int, n: nat)
    requires n <= |log|
    ensures Weighted(log, [], since, n) == 0
  {
    if n > 0 { NoRowsNoWeight(log, since, n - 1); }
  }

  ghost predicate GenuineRows(log: seq<Event>, rows: seq<ChRow>) {
    forall k :: 0 <= k < |rows| ==> rows[k].eventId < |log| && rows[k] == ToCh(rows[k].eventId, log[rows[k].eventId])
  }

  lemma {:induction false} NetIsWeighted(log: seq<Event>, rows: seq<ChRow>, since: int)
    requires GenuineRows(log, rows)
    ensures NetRows(Window(rows, since)) == Weighted(log, rows, since, |log|)
    decreases |rows|
  {
    if rows == [] {
      NoRowsNoWeight(log, since, |log|);
    } else {
      NetIsWeighted(log, rows[..|rows| - 1], since);
      WeightedSnoc(log, rows, since, |log|);
      var recent, r := Window(rows[..|rows| - 1], since), rows[|rows| - 1];
      assert r == ToCh(r.eventId, log[r.eventId]);
      if r.occurredMs >= since {
        NetRowsSnoc(recent, r);
      } else {
        assert Window(rows, since) == recent;
      }
    }
  }

  lemma NetRowsSnoc(rows: seq<ChRow>, r: ChRow)
    ensures NetRows(rows + [r]) == NetRows(rows) + Weight(r.kind)
  {
    assert (rows + [r])[..|rows|] == rows;
  }

  lemma {:induction false} WeightedIsNetPlusExcess(log: seq<Event>, rows: seq<ChRow>, since: int, n: nat)
    requires n <= |log|
    ensures Weighted(log, rows, since, n) == NetSince(log[..n], since) + Excess(log, rows, since, n)
  {
    if n > 0 {
      WeightedIsNetPlusExcess(log, rows, since, n - 1);
      assert log[..n][..n - 1] == log[..n - 1];
      OneMore(if Copies(rows, n - 1) == 0 then 0 else Copies(rows, n - 1) - 1, InWindow(log[n - 1], since));
    }
  }

  /** The report ends at the window's balance in the log plus the excess of copies. */
  lemma LastValueOfCopies(log: seq<Event>, rows: seq<ChRow>, since: int, bucket: int -> int)
    requires GenuineRows(log, rows)
    ensures LastValue(Backlog(rows, since, bucket)) == NetSince(log, since) + Excess(log, rows, since, |log|)
  {
    LastValueIsNet(rows, since, bucket);
    NetIsWeighted(log, rows, since);
    WeightedIsNetPlusExcess(log, rows, since, |log|);
    assert log[..|log|] == log;
  }

  lemma BalanceAfter(clock: int, past: seq<Action>, future: seq<Action>)
    requires IsRun(Init(clock), past) && IsRun(After(Init(clock), past), future)
    ensures var db := After(After(Init(clock), past), future).db;
            NetLog(db.log) + TerminalHits(db.log) == |LiveJobs(db)|
  {
    RunConcat(Init(clock), past, future);
    Balance(clock, past + future);
  }

  /** What the balance of any window means: the change of the live count, less the late reports in it that
      hit a terminal job. */
  lemma NetOfWindow(clock: int, past: seq<Action>, future: seq<Action>, since: int)
    requires SplitAt(clock, past, future, since)
    ensures var start, end := After(Init(clock), past).db, After(After(Init(clock), past), future).db;
            NetSince(end.log, since) + TerminalHits(end.log) - TerminalHits(start.log) ==
            |LiveJobs(end)| - |LiveJobs(start)|
  {
    var start, end := After(Init(clock), past).db, After(After(Init(clock), past), future).db;
    SplitTimes(clock, past, future, since);
    NetSinceSplits(end.log, |start.log|, since);
    assert end.log[..|start.log|] == start.log;
    Balance(clock, past);
    BalanceAfter(clock, past, future);
  }

  /** The backlog report reads the raw table, with whatever has arrived there, as often as it was sent and not
      yet merged. In every state of the pipeline and for every window, its last value is the change of the live
      count since the window opened, less the late reports that hit a terminal job, plus the excess of copies;
      so it is that change exactly when the two errors cancel. */
  lemma BacklogAgreesWithLiveTable(
    clock: int, past: seq<Action>, future: seq<Action>, pipe: seq<PipeStep>, since: int, size: int)
    requires SplitAt(clock, past, future, since) && IsPipeRun(EMPTY_PIPE, pipe) && size > 0
    requires PipeAfter(EMPTY_PIPE, pipe).log == After(After(Init(clock), past), future).db.log
    ensures var start, end := After(Init(clock), past).db, After(After(Init(clock), past), future).db;
            var p := PipeAfter(EMPTY_PIPE, pipe);
            var last := LastValue(Backlog(p.raw, since, StartOfInterval(size)));
            var change := |LiveJobs(end)| - |LiveJobs(start)|;
            var hits := TerminalHits(end.log) - TerminalHits(start.log);
            && last + hits == change + Excess(p.log, p.raw, since, |p.log|)
            && (last == change <==> Excess(p.log, p.raw, since, |p.log|) == hits)
  {
    var p := PipeAfter(EMPTY_PIPE, pipe);
    PipeInvRun(EMPTY_PIPE, pipe);
    forall k | 0 <= k < |p.raw|
      ensures p.raw[k].eventId < |p.log| && p.raw[k] == ToCh(p.raw[k].eventId, p.log[p.raw[k].eventId])
    {
      assert Genuine(p, p.raw[k]);
    }
    LastValueOfCopies(p.log, p.raw, since, StartOfInterval(size));
    NetOfWindow(clock, past, future, since);
  }

  // ----- the same report with FINAL -----

  /** The rows of a deduplicated view with event_id below `n`, in order of event_id. */
  function ViewRows(view: map<nat, ChRow>, n: nat): seq<ChRow> {
    if n == 0 then [] else ViewRows(view, n - 1) + if n - 1 in view then [view[n - 1]] else []
  }

  lemma {:induction false} ViewOfLog(log: seq<Event>, view: map<nat, ChRow>, n: nat)
    requires n <= |log| && forall i: nat :: i < n ==> i in view && view[i] == ToCh(i, log[i])
    ensures |ViewRows(view, n)| == n && forall i :: 0 <= i < n ==> ViewRows(view, n)[i] == ToCh(i, log[i])
    decreases n
  {
    if n > 0 { ViewOfLog(log, view, n - 1); }
  }

  lemma {:induction false} OneCopyEach(rows: seq<ChRow>, id: nat)
    requires forall i :: 0 <= i < |rows| ==> rows[i].eventId == i
    ensures Copies(rows, id) == if id < |rows| then 1 else 0
    decreases |rows|
  {
    if rows != [] { OneCopyEach(rows[..|rows| - 1], id); }
  }

  lemma {:induction false} NoExcess(log: seq<Event>, rows: seq<ChRow>, since: int, n: nat)
    requires n <= |log| && forall id: nat :: id < n ==> Copies(rows, id) == 1
    ensures Excess(log, rows, since, n) == 0
  {
    if n > 0 { NoExcess(log, rows, since, n - 1); }
  }

  /** Read with FINAL and nothing left to ship, the report would be off by the terminal hits alone. */
  lemma BacklogOverFinal(
    clock: int, past: seq<Action>, future: seq<Action>, pipe: seq<PipeStep>, since: int, size: int)
    requires SplitAt(clock, past, future, since) && IsPipeRun(EMPTY_PIPE, pipe) && size > 0
    requires PipeAfter(EMPTY_PIPE, pipe).log == After(After(Init(clock), past), future).db.log
    requires Unshipped(PipeAfter(EMPTY_PIPE, pipe).shipped, |PipeAfter(EMPTY_PIPE, pipe).log|) == 0
    ensures var start, end := After(Init(clock), past).db, After(After(Init(clock), past), future).db;
            var p := PipeAfter(EMPTY_PIPE, pipe);
            LastValue(Backlog(ViewRows(Final(p.raw), |p.log|), since, StartOfInterval(size))) +
            TerminalHits(end.log) - TerminalHits(start.log) == |LiveJobs(end)| - |LiveJobs(start)|
  {
    var p := PipeAfter(EMPTY_PIPE, pipe);
    FullyShippedViewIsLog(pipe);
    ViewOfLog(p.log, Final(p.raw), |p.log|);
    var rows := ViewRows(Final(p.raw), |p.log|);
    forall id: nat | id < |p.log| ensures Copies(rows, id) == 1 { OneCopyEach(rows, id); }
    NoExcess(p.log, rows, since, |p.log|);
    LastValueOfCopies(p.log, rows, since, StartOfInterval(size));
    NetOfWindow(clock, past, future, since);
  }

  // ----- copies alone are enough to skew the report -----

  ghost predicate OneUnshipped(p: Pipe) {
    |p.log| == 1 && p.shipped == {} && p.busy == map[]
  }

  /** A cycle that ships the one event there is. */
  function OneCycle(marked: bool): seq<PipeStep> {
    [Fetch(0, 1), InsertRows(0, [0], true), Mark(0, marked)]
  }

  lemma FetchTheEvent(p: Pipe)
    requires OneUnshipped(p)
    ensures PipeEnabled(p, Fetch(0, 1)) && PipeNext(p, Fetch(0, 1)) == p.(busy := map[0 := Fetched([0])])
  {
    assert Batch({}, 0, 1) == [];
    assert Batch({}, 1, 1) == [0];
  }

  lemma InsertTheEvent(p: Pipe)
    requires |p.log| == 1 && p.busy == map[0 := Fetched([0])]
    ensures PipeEnabled(p, InsertRows(0, [0], true))
    ensures PipeNext(p, InsertRows(0, [0], true)) ==
            p.(raw := p.raw + [ToCh(0, p.log[0])], busy := map[0 := Inserted([0])])
  {
    assert Rows(p.log, [0]) == [ToCh(0, p.log[0])];
  }

  lemma MarkTheEvent(p: Pipe, marked: bool)
    requires p.shipped == {} && p.busy == map[0 := Inserted([0])]
    ensures PipeEnabled(p, Mark(0, marked))
    ensures PipeNext(p, Mark(0, marked)) == p.(shipped := if marked then {0} else {}, busy := map[])
  {
    assert IdSet([0]) == {0} && p.busy - {0} == map[];
  }

  lemma ShipTheEvent(p: Pipe, marked: bool)
    requires OneUnshipped(p)
    ensures IsPipeRun(p, OneCycle(marked))
    ensures PipeAfter(p, OneCycle(marked)) ==
            Pipe(p.log, if marked then {0} else {}, p.raw + [ToCh(0, p.log[0])], map[])
  {
    FetchTheEvent(p);
    var p1 := PipeNext(p, Fetch(0, 1));
    InsertTheEvent(p1);
    var p2 := PipeNext(p1, InsertRows(0, [0], true));
    MarkTheEvent(p2, marked);
    PipePrepend(p2, Mark(0, marked), []);
    PipePrepend(p1, InsertRows(0, [0], true), [Mark(0, marked)]);
    PipePrepend(p, Fetch(0, 1), [InsertRows(0, [0], true), Mark(0, marked)]);
  }

  /** The event is shipped `extra` times without being marked, and then once more. */
  lemma {:induction false} Reship(p: Pipe, extra: nat) returns (steps: seq<PipeStep>)
    requires OneUnshipped(p)
    ensures IsPipeRun(p, steps)
    ensures var p' := PipeAfter(p, steps);
            p'.log == p.log && p'.shipped == {0} && Copies(p'.raw, 0) == Copies(p.raw, 0) + extra + 1
    decreases extra
  {
    var marked := extra == 0;
    ShipTheEvent(p, marked);
    var p1 := PipeAfter(p, OneCycle(marked));
    assert p1.raw[..|p.raw|] == p.raw;
    var rest := [];
    if extra > 0 {
      rest := Reship(p1, extra - 1);
    }
    PipeConcat(p, OneCycle(marked), rest);
    steps := OneCycle(marked) + rest;
  }

  /** One live job, no late report, nothing left to ship; and the report over all history ends at `value`. */
  ghost predicate OneJobShownAs(clock: int, run: seq<Action>, pipe: seq<PipeStep>, size: int, value: int) {
    && size > 0 && IsRun(Init(clock), run) && IsPipeRun(EMPTY_PIPE, pipe)
    && var db, p := After(Init(clock), run).db, PipeAfter(EMPTY_PIPE, pipe);
       && p.log == db.log && Unshipped(p.shipped, |p.log|) == 0
       && TerminalHits(db.log) == 0 && |LiveJobs(db)| == 1
       && LastValue(Backlog(p.raw, clock / 1000, StartOfInterval(size))) == value
  }

  /** One job enqueued and nothing else, and yet a report of any size. */
  lemma CopiesSkewTheBacklog(clock: int, extra: nat, size: int) returns (run: seq<Action>, pipe: seq<PipeStep>)
    requires size > 0
    ensures OneJobShownAs(clock, run, pipe, size, extra + 1)
  {
    var row := NewRow(clock, "demo_job", "{}", "", DEFAULT_PRIORITY, DEFAULT_MAX_ATTEMPTS);
    var a := Enqueue(0, "demo_job", "{}", "", DEFAULT_PRIORITY, DEFAULT_MAX_ATTEMPTS);
    OneEffect(Init(clock), Insert(0, row));
    OneStep(Init(clock), a);
    run := [a];
    var db := After(Init(clock), run).db;
    assert LiveJobs(db) == {0};
    var e := db.log[0];
    var steps := Reship(PipeNext(EMPTY_PIPE, Append(e)), extra);
    PipePrepend(EMPTY_PIPE, Append(e), steps);
    pipe := [Append(e)] + steps;
    var p := PipeAfter(EMPTY_PIPE, pipe);
    AllShipped(p.shipped, |p.log|);
    assert SplitAt(clock, [], run, clock / 1000);
    BacklogAgreesWithLiveTable(clock, [], run, pipe, clock / 1000, size);
    assert Excess(p.log, p.raw, clock / 1000, 0) == 0;
    assert Excess(p.log, p.raw, clock / 1000, 1) == extra;
  }
}
