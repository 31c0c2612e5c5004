/** The two exponential backoffs of a worker, on Go's wrapping 64-bit durations. */
module Backoff {

  const TWO_62: int := 0x4000_0000_0000_0000
  const TWO_63: int := 0x8000_0000_0000_0000
  const TWO_64: int := 0x1_0000_0000_0000_0000

  predicate Int64(x: int) {
    -TWO_63 <= x < TWO_63
  }

  /** Two's complement truncation to 64 bits. */
  function Wrap(x: int): (r: int)
    ensures Int64(r)
  {
    (x + TWO_63) % TWO_64 - TWO_63
  }

  function Pow2(n: nat): nat {
    if n == 0 then 1 else 2 * Pow2(n - 1)
  }

  function Min(a: int, b: int): int {
    if a <= b then a else b
  }

  /** `d *= 2` on a 64-bit duration. */
  function Double(x: int): (r: int)
    requires Int64(x)
    ensures Int64(r)
  {
    if 2 * x >= TWO_63 then 2 * x - TWO_64 else if 2 * x < -TWO_63 then 2 * x + TWO_64 else 2 * x
  }

  lemma DoubleWraps(x: int)
    requires Int64(x)
    ensures Double(x) == Wrap(2 * x)
  {
  }

  lemma {:induction false} ScaledMonotone(d: int, j: nat, k: nat)
    requires d >= 0 && j <= k
    ensures d * Pow2(j) <= d * Pow2(k)
    decreases k
  {
    if j < k {
      ScaledMonotone(d, j, k - 1);
      ScaledStep(d, k - 1);
    }
  }

  lemma ScaledStep(d: int, k: nat)
    ensures d * Pow2(k + 1) == 2 * (d * Pow2(k))
  {
    var p := Pow2(k);
    assert Pow2(k + 1) == 2 * p;
    assert d * (2 * p) == 2 * (d * p);
  }

  // ----- retry backoff -----

  /** The bound the jitter is drawn below, without a loop, for all 64-bit settings. */
  function RetryCap(base: int, maxDelay: int, attempts: int): int
    requires Int64(base)
  {
    if attempts <= 1 then base
    else
      var d := Double(base);
      if d <= 0 || maxDelay <= 0 then maxDelay else Min(d * Pow2(attempts - 2), maxDelay)
  }

  method DoubleUntilCapped(base: int, maxDelay: int, attempts: int) returns (delay: int)
    requires Int64(base) && Int64(maxDelay)
    ensures Int64(delay) && delay == RetryCap(base, maxDelay, attempts)
  {
    delay := base;
    ghost var d := Double(base);
    var i := 1;
    while i < attempts
      invariant 1 <= i && (i <= attempts || i == 1)
      invariant Int64(delay)
      invariant i == 1 ==> delay == base
      invariant i > 1 ==> 0 < d && delay == d * Pow2(i - 2) && 0 < delay <= maxDelay
      decreases attempts - i
    {
      delay := Double(delay);
      if i > 1 {
        ScaledStep(d, i - 2);
      }
      if delay > maxDelay || delay <= 0 {
        if i > 1 {
          assert d * Pow2(i - 1) > maxDelay;
          ScaledMonotone(d, i - 1, attempts - 2);
        } else if d > 0 {
          ScaledMonotone(d, 0, attempts - 2);
        }
        delay := maxDelay;
        return;
      }
      i := i + 1;
    }
  }

  /** Go's rand.Int64N, with what the random source draws as a parameter; it panics unless `n` is positive. */
  method Int64N(n: int, draw: nat) returns (r: int)
    requires n > 0
    ensures 0 <= r < n && (draw < n ==> r == draw)
  {
    r := draw % n;
  }

  /** Full jitter: the delay is whatever is drawn below the bound. */
  method CalculateRetryDelay(base: int, maxDelay: int, attempts: int, draw: nat) returns (delay: int)
    requires Int64(base) && Int64(maxDelay)
    ensures var bound := RetryCap(base, maxDelay, attempts);
            if bound > 0 then 0 <= delay < bound && (draw < bound ==> delay == draw) else delay == 0
  {
    delay := DoubleUntilCapped(base, maxDelay, attempts);
    if delay <= 0 {
      return 0;
    }
    delay := Int64N(delay, draw);
  }

  /** For positive settings the bound is the capped power of two of the documentation, over the
      unbounded integers: no wrap-around shows. The first attempt is not capped. */
  lemma RetryCapClosedForm(base: int, maxDelay: int, attempts: int)
    requires Int64(base) && Int64(maxDelay) && base > 0 && maxDelay > 0
    ensures RetryCap(base, maxDelay, attempts) ==
            if attempts <= 1 then base else Min(base * Pow2(attempts - 1), maxDelay)
  {
    if attempts >= 2 {
      if 2 * base < TWO_63 {
        var p := Pow2(attempts - 2);
        assert Pow2(attempts - 1) == 2 * p;
        assert base * (2 * p) == (2 * base) * p;
      } else {
        ScaledMonotone(base, 1, attempts - 1);
      }
    }
  }

  /** From the second attempt on, the bound never shrinks. */
  lemma LaterCapsGrow(base: int, maxDelay: int, a: int, b: int)
    requires Int64(base) && Int64(maxDelay) && 2 <= a <= b
    ensures RetryCap(base, maxDelay, a) <= RetryCap(base, maxDelay, b)
  {
    if Double(base) > 0 { ScaledMonotone(Double(base), a - 2, b - 2); }
  }

  /** The bound grows with the attempts exactly when the base does not exceed the cap, for all settings. */
  lemma RetryCapMonotone(base: int, maxDelay: int)
    requires Int64(base) && Int64(maxDelay)
    ensures (forall a: int, b: int :: a <= b ==> RetryCap(base, maxDelay, a) <= RetryCap(base, maxDelay, b)) <==>
            base <= maxDelay
  {
    assert RetryCap(base, maxDelay, 1) == base;
    assert base <= RetryCap(base, maxDelay, 2) <==> base <= maxDelay;
    if base <= maxDelay {
      forall a: int, b: int | a <= b ensures RetryCap(base, maxDelay, a) <= RetryCap(base, maxDelay, b) {
        if b >= 2 { LaterCapsGrow(base, maxDelay, if a < 2 then 2 else a, b); }
      }
    }
  }

  /** The cap holds for every attempt exactly when the base itself respects it: nothing caps the first attempt. */
  lemma RetryCapBounded(base: int, maxDelay: int)
    requires Int64(base) && Int64(maxDelay)
    ensures (forall a: int :: RetryCap(base, maxDelay, a) <= maxDelay) <==> base <= maxDelay
  {
    assert RetryCap(base, maxDelay, 1) == base;
  }

  /** From the second attempt on the bound is the documented min(base * 2^(attempts-1), max) exactly for a
      positive base, or also a base of 0 when the cap is not positive. */
  lemma RetryCapExact(base: int, maxDelay: int)
    requires Int64(base) && Int64(maxDelay)
    ensures (forall a: int :: a >= 2 ==> RetryCap(base, maxDelay, a) == Min(base * Pow2(a - 1), maxDelay)) <==>
            base > 0 || (base == 0 && maxDelay <= 0)
  {
    if base > 0 && maxDelay > 0 {
      forall a: int | a >= 2 ensures RetryCap(base, maxDelay, a) == Min(base * Pow2(a - 1), maxDelay) {
        RetryCapClosedForm(base, maxDelay, a);
      }
    } else if base >= 0 && maxDelay <= 0 {
      forall a: int | a >= 2 ensures RetryCap(base, maxDelay, a) == Min(base * Pow2(a - 1), maxDelay) {
        ScaledMonotone(base, 0, a - 1);
      }
    } else if base == 0 {
      assert RetryCap(base, maxDelay, 2) == maxDelay && base * Pow2(1) == 0;
    } else {
      Pow2Of64();
      assert base * Pow2(64) <= -TWO_64;
      assert RetryCap(base, maxDelay, 65) != Min(base * Pow2(65 - 1), maxDelay) by {
        RetryCapInRange(base, maxDelay, 65);
      }
    }
  }

  lemma RetryCapInRange(base: int, maxDelay: int, attempts: int)
    requires Int64(base) && Int64(maxDelay)
    ensures RetryCap(base, maxDelay, attempts) >= -TWO_63
  {
    if attempts >= 2 && Double(base) > 0 { ScaledMonotone(Double(base), 0, attempts - 2); }
  }

  // ----- poll backoff -----

  /** The wait after `k` empty claims in a row, step by step as the loop computes it. */
  function Interval(poll: int, maxPoll: int, k: nat): (r: int)
    requires Int64(poll) && Int64(maxPoll)
    ensures Int64(r)
  {
    if k == 0 then poll
    else
      var doubled := Double(Interval(poll, maxPoll, k - 1));
      if doubled > maxPoll then maxPoll else doubled
  }

  /** How many empty claims in a row end just before claim `i`. */
  function Streak(empty: seq<bool>, i: nat): nat
    requires i <= |empty|
  {
    if i == 0 || !empty[i - 1] then 0 else Streak(empty, i - 1) + 1
  }

  /** Claims `j` to `i` are all empty, and `j` is the first claim or the one before it found a job. */
  predicate EmptyFrom(empty: seq<bool>, j: nat, i: nat) {
    && j <= i < |empty| && (j == 0 || !empty[j - 1])
    && forall k :: j <= k <= i ==> empty[k]
  }

  /** What follows claim `i`: a wait by the empty claims just before it, or none when it found a job. */
  function WaitAt(poll: int, maxPoll: int, empty: seq<bool>, i: nat): int
    requires Int64(poll) && Int64(maxPoll) && i < |empty|
  {
    if empty[i] then Interval(poll, maxPoll, Streak(empty, i)) else 0
  }

  /** The claim loop of a worker, over any sequence of claim results: what it waits after each empty one.
      A non-empty claim is followed by no wait and resets the interval. */
  method PollWaits(poll: int, maxPoll: int, empty: seq<bool>) returns (waits: seq<int>)
    requires Int64(poll) && Int64(maxPoll)
    ensures |waits| == |empty|
    ensures forall i :: 0 <= i < |empty| ==> waits[i] == WaitAt(poll, maxPoll, empty, i)
    ensures forall i :: 0 <= i < |empty| && !empty[i] ==> waits[i] == 0
    ensures forall j: nat, i: nat :: EmptyFrom(empty, j, i) ==> waits[i] == Interval(poll, maxPoll, i - j)
  {
    var interval := poll;
    waits := [];
    for i := 0 to |empty|
      invariant |waits| == i
      invariant interval == Interval(poll, maxPoll, Streak(empty, i))
      invariant forall j :: 0 <= j < i ==> waits[j] == WaitAt(poll, maxPoll, empty, j)
    {
      if empty[i] {
        waits := waits + [interval];
        interval := Double(interval);
        if interval > maxPoll {
          interval := maxPoll;
        }
      } else {
        waits := waits + [0];
        interval := poll;
      }
    }
    forall j: nat, i: nat | EmptyFrom(empty, j, i) ensures waits[i] == Interval(poll, maxPoll, i - j) {
      StreakCounts(empty, j, i);
    }
  }

  lemma {:induction false} StreakCounts(empty: seq<bool>, j: nat, i: nat)
    requires EmptyFrom(empty, j, i)
    ensures Streak(empty, i) == i - j
    decreases i
  {
    if j < i { StreakCounts(empty, j, i - 1); }
  }

  /** Where the settings fit, the waits start at the poll interval after every job found and double up to the cap
      for as long as claims stay empty. */
  lemma WaitsRestart(poll: int, maxPoll: int, empty: seq<bool>, j: nat, i: nat)
    requires Int64(poll) && Int64(maxPoll) && PollFits(poll, maxPoll) && EmptyFrom(empty, j, i)
    ensures WaitAt(poll, maxPoll, empty, i) == if i == j then poll else Min(poll * Pow2(i - j), maxPoll)
  {
    StreakCounts(empty, j, i);
    PollFitting(poll, maxPoll, i - j);
  }

  function PollClosedForm(poll: int, maxPoll: int, k: nat): int {
    if k == 0 then poll else Min(poll * Pow2(k), maxPoll)
  }

  lemma {:induction false} IntervalClosedForm(poll: int, maxPoll: int, k: nat)
    requires 0 <= poll < TWO_62 && 0 <= maxPoll < TWO_62
    ensures Interval(poll, maxPoll, k) == PollClosedForm(poll, maxPoll, k)
    ensures 0 <= Interval(poll, maxPoll, k) < TWO_62
  {
    if k > 0 {
      IntervalClosedForm(poll, maxPoll, k - 1);
      ScaledStep(poll, k - 1);
      if k == 1 { assert poll * Pow2(0) == poll; }
    }
  }

  lemma {:induction false} IntervalOfZero(maxPoll: int, k: nat)
    requires Int64(maxPoll) && maxPoll >= 0
    ensures Interval(0, maxPoll, k) == 0
  {
    if k > 0 { IntervalOfZero(maxPoll, k - 1); }
  }

  /** Below -2^62 doubling the cap wraps to a positive duration, which the cap cuts off again. */
  lemma {:induction false} IntervalAtNegativeCap(poll: int, maxPoll: int, k: nat)
    requires Int64(poll) && Int64(maxPoll) && maxPoll < -TWO_62 && Double(poll) >= maxPoll && k >= 1
    ensures Interval(poll, maxPoll, k) == maxPoll
    decreases k
  {
    if k > 1 { IntervalAtNegativeCap(poll, maxPoll, k - 1); }
    assert k == 1 ==> Interval(poll, maxPoll, k - 1) == poll;
  }

  /** The settings for which no doubling does harm: a poll interval of 0, both below 2^62, or, by luck, a cap
      below -2^62 that every doubled wait exceeds. */
  predicate PollFits(poll: int, maxPoll: int)
    requires Int64(poll)
  {
    && poll >= 0
    && if maxPoll >= 0 then poll == 0 || (poll < TWO_62 && maxPoll < TWO_62)
       else maxPoll < -TWO_62 && Double(poll) >= maxPoll
  }

  /** The waits are min(poll * 2^k, max) for every number of empty claims exactly for those settings; for all
      others some doubling overflows, or a negative one runs away. */
  lemma PollBackoffExact(poll: int, maxPoll: int)
    requires Int64(poll) && Int64(maxPoll)
    ensures (forall k: nat :: Interval(poll, maxPoll, k) == PollClosedForm(poll, maxPoll, k)) <==>
            PollFits(poll, maxPoll)
  {
    if PollFits(poll, maxPoll) {
      forall k: nat ensures Interval(poll, maxPoll, k) == PollClosedForm(poll, maxPoll, k) {
        PollFitting(poll, maxPoll, k);
      }
    } else {
      var k := PollOverflows(poll, maxPoll);
    }
  }

  lemma PollFitting(poll: int, maxPoll: int, k: nat)
    requires Int64(poll) && Int64(maxPoll) && PollFits(poll, maxPoll)
    ensures Interval(poll, maxPoll, k) == PollClosedForm(poll, maxPoll, k)
  {
    if maxPoll < 0 {
      if k >= 1 {
        IntervalAtNegativeCap(poll, maxPoll, k);
        ScaledMonotone(poll, 0, k);
      }
    } else if poll == 0 {
      IntervalOfZero(maxPoll, k);
    } else {
      IntervalClosedForm(poll, maxPoll, k);
    }
  }

  lemma PollOverflows(poll: int, maxPoll: int) returns (k: nat)
    requires Int64(poll) && Int64(maxPoll) && !PollFits(poll, maxPoll)
    ensures Interval(poll, maxPoll, k) != PollClosedForm(poll, maxPoll, k)
  {
    if poll < 0 {
      k := 64;
      Pow2Of64();
      assert poll * Pow2(64) <= -TWO_64;
    } else if maxPoll < 0 {
      k := if Double(poll) < maxPoll then 1 else 2;
      assert Interval(poll, maxPoll, 0) == poll;
      assert k == 2 ==> Interval(poll, maxPoll, 1) == maxPoll;
      ScaledMonotone(poll, 0, k);
    } else {
      k := PollOverflowsUp(poll, maxPoll);
    }
  }

  lemma PollOverflowsUp(poll: int, maxPoll: int) returns (k: nat)
    requires Int64(poll) && Int64(maxPoll) && poll > 0 && maxPoll >= 0
    requires poll >= TWO_62 || maxPoll >= TWO_62
    ensures Interval(poll, maxPoll, k) != PollClosedForm(poll, maxPoll, k)
  {
    k := if poll >= TWO_62 then 0 else 62;
    if Interval(poll, maxPoll, k) == PollClosedForm(poll, maxPoll, k) {
      Pow2Of62();
      ScaledMonotone(poll, 0, k + 1);
      assert poll * Pow2(62) >= Pow2(62);
      assert Interval(poll, maxPoll, k + 1) < 0;
      k := k + 1;
    }
  }

  lemma Pow2Of62()
    ensures Pow2(62) == TWO_62
  {
    assert Pow2(10) == 1024;
    assert Pow2(20) == 1024 * 1024;
    assert Pow2(30) == 1024 * 1024 * 1024;
    assert Pow2(40) == 1024 * 1024 * 1024 * 1024;
    assert Pow2(50) == 1024 * 1024 * 1024 * 1024 * 1024;
    assert Pow2(60) == 1024 * 1024 * 1024 * 1024 * 1024 * 1024;
  }

  lemma Pow2Of64()
    ensures Pow2(64) == TWO_64
  {
    Pow2Of62();
    assert Pow2(63) == 2 * Pow2(62);
  }
}
