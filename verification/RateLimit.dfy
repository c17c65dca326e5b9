/** The moving-average rate limiter of wire/rate_limit.go, with Go's 32-bit arithmetic. */
module RateLimit {

  datatype Status = Limited | Alert | Clear | Disconnect

  datatype RateClass = RateClass(
    id: int, windowSize: int, clearLevel: int, alertLevel: int, limitLevel: int, disconnectLevel: int, maxLevel: int)

  const DEFAULT_CLASSES: seq<RateClass> := [
    RateClass(1, 80, 2500, 2000, 1500, 800, 6000),
    RateClass(2, 80, 1500, 1200, 1000, 100, 15000),
    RateClass(3, 20, 1500, 1200, 1000, 100, 15000),
    RateClass(4, 20, 5500, 5300, 4200, 3000, 8000),
    RateClass(5, 10, 5500, 5300, 4200, 3000, 8000)]

  const INT32_MAX: int := 0x7fff_ffff
  const MILLISECOND: int := 1_000_000
  const DAY: int := 86_400_000 * MILLISECOND

  /** Conversion to int32, and the result of any int32 operation. */
  function Int32(x: int): int {
    (x + 0x8000_0000) % 0x1_0000_0000 - 0x8000_0000
  }

  /** Go's integer division truncates toward zero. */
  function Quo(a: int, b: int): int
    requires b > 0
  {
    if a >= 0 then a / b else -(-a / b)
  }

  /** `now.Sub(last)` in nanoseconds saturates at the limits of int64. */
  function Sub(now: int, last: int): int {
    var d := now - last;
    if d > 0x7fff_ffff_ffff_ffff then 0x7fff_ffff_ffff_ffff
    else if d < -0x8000_0000_0000_0000 then -0x8000_0000_0000_0000
    else d
  }

  /** Elapsed time in whole milliseconds, as `Milliseconds()` gives it. */
  function ElapsedMs(last: int, now: int): int {
    Quo(Sub(now, last), MILLISECOND)
  }

  function CheckRateLimit(lastTime: int, currentTime: int, c: RateClass, currentAvg: int, limitedNow: bool): (Status, int)
    requires c.windowSize > 0
  {
    var elapsedMs := Int32(ElapsedMs(lastTime, currentTime));
    var sum := Int32(Int32(currentAvg * (c.windowSize - 1)) + elapsedMs);
    var avg := Quo(sum, c.windowSize);
    var newAvg := if avg > c.maxLevel then c.maxLevel else avg;
    (StatusAt(c, newAvg, limitedNow), newAvg)
  }

  function StatusAt(c: RateClass, level: int, limitedNow: bool): Status {
    if level < c.disconnectLevel then Disconnect
    else if limitedNow && level >= c.clearLevel then Clear
    else if limitedNow then Limited
    else if level < c.limitLevel then Limited
    else if level < c.alertLevel then Alert
    else Clear
  }

  // ---------------------------------------------------------------- without overflow

  /** Thresholds in their natural order, and a window that keeps the weighted sum in 32 bits at rest. */
  predicate Ordered(c: RateClass) {
    && c.windowSize >= 1
    && 0 <= c.disconnectLevel <= c.limitLevel <= c.alertLevel <= c.clearLevel <= c.maxLevel
    && c.maxLevel * (c.windowSize - 1) <= INT32_MAX
  }

  /** The longest gap, in milliseconds, that cannot overflow whatever the level. */
  function GapLimit(c: RateClass): int {
    INT32_MAX - c.maxLevel * (c.windowSize - 1)
  }

  function GapMs(last: int, now: int): int {
    if now < last then -1 else (now - last) / MILLISECOND
  }

  /** The average in exact arithmetic. */
  function Next(c: RateClass, level: nat, gap: nat): (r: nat)
    requires Ordered(c)
    ensures r <= c.maxLevel
  {
    var avg := (level * (c.windowSize - 1) + gap) / c.windowSize;
    if avg > c.maxLevel then c.maxLevel else avg
  }

  lemma DefaultClassesOrdered()
    ensures forall c <- DEFAULT_CLASSES ::
              && Ordered(c) && GapLimit(c) >= 2_146_298_647
              && 0 < c.disconnectLevel && c.disconnectLevel * c.windowSize <= c.maxLevel * (c.windowSize - 1)
  {
  }

  /** Whole milliseconds, toward zero, of a difference that saturates 292 years either way. */
  lemma ElapsedOutcome(last: int, now: int)
    ensures var d := now - last;
      var max := 0x7fff_ffff_ffff_ffff;
      && (0 <= d <= max ==> ElapsedMs(last, now) == d / 1_000_000)
      && (-max <= d <= 0 ==> ElapsedMs(last, now) == -(-d / 1_000_000))
      && (d > max ==> ElapsedMs(last, now) == 9_223_372_036_854)
      && (d < -max ==> ElapsedMs(last, now) == -9_223_372_036_854)
  {
  }

  lemma Int32Exact(x: int)
    requires -0x8000_0000 <= x <= INT32_MAX
    ensures Int32(x) == x
  {
  }

  lemma ElapsedIsExact(last: int, now: int)
    requires 0 <= GapMs(last, now) <= INT32_MAX
    ensures ElapsedMs(last, now) == Int32(ElapsedMs(last, now)) == GapMs(last, now)
  {
    assert now - last < (GapMs(last, now) + 1) * MILLISECOND;
  }

  /** While no gap exceeds the limit, 32-bit truncating arithmetic computes the exact clamped average. */
  lemma CheckIsExact(last: int, now: int, c: RateClass, level: nat, limited: bool)
    requires Ordered(c) && level <= c.maxLevel && 0 <= GapMs(last, now) <= GapLimit(c)
    ensures var next := Next(c, level, GapMs(last, now));
            CheckRateLimit(last, now, c, level, limited) == (StatusAt(c, next, limited), next)
  {
    var w, gap := c.windowSize, GapMs(last, now);
    MulMono(level, c.maxLevel, w - 1);
    MulMono(0, level, w - 1);
    var weighted := level * (w - 1);
    ElapsedIsExact(last, now);
    Int32Exact(weighted);
    Int32Exact(weighted + gap);
    assert level * (c.windowSize - 1) == weighted;
  }

  // ---------------------------------------------------------------- with overflow

  /** The weighted sum as it comes out of 32-bit arithmetic. */
  function WrappedSum(c: RateClass, level: int, elapsed: int): int {
    Int32(level * (c.windowSize - 1) + elapsed)
  }

  lemma Int32Adds(a: int, b: int)
    ensures Int32(Int32(a) + Int32(b)) == Int32(a + b)
  {
  }

  /** Three conversions amount to one. */
  lemma SumWraps(last: int, now: int, c: RateClass, level: int, limited: bool)
    requires c.windowSize > 0
    ensures var avg := Quo(WrappedSum(c, level, ElapsedMs(last, now)), c.windowSize);
            var newAvg := if avg > c.maxLevel then c.maxLevel else avg;
            CheckRateLimit(last, now, c, level, limited) == (StatusAt(c, newAvg, limited), newAvg)
  {
    Int32Adds(level * (c.windowSize - 1), ElapsedMs(last, now));
  }

  /**
   For every level and every two times: a send disconnects exactly if the
   wrapped sum is below the disconnect level times the window.
   */
  lemma LongPauseDisconnects(last: int, now: int, c: RateClass, level: int, limited: bool)
    requires c.windowSize > 0 && c.disconnectLevel <= c.maxLevel
    ensures var sum, w, d := WrappedSum(c, level, ElapsedMs(last, now)), c.windowSize, c.disconnectLevel;
            CheckRateLimit(last, now, c, level, limited).0.Disconnect?
            <==> if d > 0 then sum < w * d else sum <= w * (d - 1)
  {
    SumWraps(last, now, c, level, limited);
    QuoBelow(WrappedSum(c, level, ElapsedMs(last, now)), c.windowSize, c.disconnectLevel);
  }

  /**
   For every gap: the level is the exact average exactly if the sum did not
   wrap, or what is left of it after wrapping still reaches the maximum.
   */
  lemma ExactUnlessWrapped(last: int, now: int, c: RateClass, level: nat, limited: bool)
    requires Ordered(c) && level <= c.maxLevel && ElapsedMs(last, now) >= 0
    ensures var gap, w, max := ElapsedMs(last, now), c.windowSize, c.maxLevel;
            var sum := WrappedSum(c, level, gap);
            CheckRateLimit(last, now, c, level, limited).1 == Next(c, level, gap)
            <==> level * (w - 1) + gap <= INT32_MAX || (if max > 0 then sum >= w * max else sum > -w)
  {
    SumWraps(last, now, c, level, limited);
    MulMono(0, level, c.windowSize - 1);
    var exact := level * (c.windowSize - 1) + ElapsedMs(last, now);
    if exact <= INT32_MAX {
      Int32Exact(exact);
      QuoBelow(exact, c.windowSize, c.maxLevel);
      DivBounds(exact, c.windowSize);
    } else {
      WrapShows(exact, c.windowSize, c.maxLevel);
    }
  }

  function Min(a: int, b: int): int {
    if a > b then b else a
  }

  /** A sum past 32 bits gives the same clamped quotient only at the clamp. */
  lemma WrapShows(exact: int, w: int, max: int)
    requires exact > INT32_MAX && w > 0 && 0 <= max && max * (w - 1) <= INT32_MAX
    ensures Min(Quo(Int32(exact), w), max) == Min(exact / w, max)
            <==> (if max > 0 then Int32(exact) >= w * max else Int32(exact) > -w)
  {
    var sum := Int32(exact);
    assert sum + 0x1_0000_0000 <= exact;
    QuoBelow(sum, w, max);
    if max > 0 {
      MulMono(1, max, w - 1);
      QuoAbove(sum, exact, w);
    } else {
      DivBounds(exact, w);
    }
  }

  /** A longer sum has the larger quotient. */
  lemma QuoAbove(sum: int, exact: int, w: int)
    requires w > 0 && exact >= 0 && sum + w <= exact && w <= exact
    ensures Quo(sum, w) < exact / w
  {
    QuotientOf(1, w, exact - w);
    DivBounds(exact - w, w);
    if sum >= 0 {
      DivMono(sum, exact - w, w);
    } else {
      DivBounds(-sum, w);
    }
  }

  lemma QuotientBelow(x: int, w: int, bound: int)
    requires w > 0
    ensures x / w < bound <==> x < w * bound
  {
    var q := x / w;
    if q < bound {
      MulMono(q + 1, bound, w);
      assert w * (q + 1) == w * q + w;
    } else {
      MulMono(bound, q, w);
    }
  }

  /** A truncated quotient is below a bound exactly if the dividend is far enough below. */
  lemma QuoBelow(sum: int, w: int, bound: int)
    requires w > 0
    ensures Quo(sum, w) < bound <==> if bound > 0 then sum < w * bound else sum <= w * (bound - 1)
  {
    if sum >= 0 {
      QuotientBelow(sum, w, bound);
      DivBounds(sum, w);
      if bound <= 0 {
        MulMono(bound - 1, 0, w);
        assert w * 0 == 0;
        if bound - 1 < 0 { MulMono(bound - 1, -1, w); }
      }
    } else {
      QuotientBelow(-sum, w, 1 - bound);
      assert w * (1 - bound) == -(w * (bound - 1));
      DivBounds(-sum, w);
      if bound > 0 { MulMono(0, bound, w); }
    }
  }

  /** Resting at the maximum, no pause up to the limit disconnects. */
  lemma ShortPauseKeeps(last: int, now: int, c: RateClass, limited: bool)
    requires Ordered(c) && c.disconnectLevel * c.windowSize <= c.maxLevel * (c.windowSize - 1)
    requires 0 <= GapMs(last, now) <= GapLimit(c)
    ensures !CheckRateLimit(last, now, c, c.maxLevel, limited).0.Disconnect?
  {
    var w, gap, rest := c.windowSize, GapMs(last, now), c.maxLevel * (c.windowSize - 1);
    CheckIsExact(last, now, c, c.maxLevel, limited);
    DivMono(c.disconnectLevel * w, rest + gap, w);
    QuotientOf(c.disconnectLevel, w, 0);
  }

  /**
   Class 2, resting at its maximum level. One millisecond past the limit is
   fatal; some longer pauses are not, because the sum has wrapped all the way.
   */
  lemma LongPauseExample()
    ensures CheckRateLimit(0, 2_146_298_647 * MILLISECOND, DEFAULT_CLASSES[1], 15000, false) == (Clear, 15000)
    ensures CheckRateLimit(0, 2_146_298_648 * MILLISECOND, DEFAULT_CLASSES[1], 15000, false) == (Disconnect, -26_843_545)
    ensures CheckRateLimit(0, 30 * DAY, DEFAULT_CLASSES[1], 15000, false).0 == Disconnect
    ensures CheckRateLimit(0, 4_294_972_296 * MILLISECOND, DEFAULT_CLASSES[1], 15000, false) == (Clear, 14875)
    ensures CheckRateLimit(0, 60 * DAY, DEFAULT_CLASSES[1], 15000, false) == (Clear, 15000)
  {
  }

  // ---------------------------------------------------------------- one step

  lemma NextMonotone(c: RateClass, level: nat, level': nat, gap: nat)
    requires Ordered(c) && level <= level'
    ensures Next(c, level, gap) <= Next(c, level', gap)
  {
    MulMono(level, level', c.windowSize - 1);
    DivMono(level * (c.windowSize - 1) + gap, level' * (c.windowSize - 1) + gap, c.windowSize);
  }

  /** The average moves toward the gap without crossing it, and strictly when the gap is smaller. */
  lemma NextBetween(c: RateClass, level: nat, gap: nat)
    requires Ordered(c) && level <= c.maxLevel
    ensures gap <= level ==> gap <= Next(c, level, gap) <= level
    ensures gap < level ==> Next(c, level, gap) < level
    ensures level <= gap ==> level <= Next(c, level, gap) <= gap
    ensures gap >= level + c.windowSize && level < c.maxLevel ==> Next(c, level, gap) > level
  {
    var w, d := c.windowSize, gap - level;
    StepForm(level, gap, w);
    // the average is level + d / w
    DivBounds(d, w);
  }

  /** The weighted sum, divided: the old level plus a w-th of the distance to the gap. */
  lemma StepForm(level: nat, gap: nat, w: int)
    requires w > 0
    ensures (level * (w - 1) + gap) / w == level + (gap - level) / w
  {
    assert level * (w - 1) + gap == level * w + (gap - level) by {
      assert level * (w - 1) == level * w - level;
    }
    QuotientOf(level, w, gap - level);
  }

  // ---------------------------------------------------------------- arithmetic

  lemma MulMono(a: int, b: int, k: int)
    requires a <= b && k >= 0
    ensures a * k <= b * k && k * a <= k * b
  {
    assert (b - a) * k >= 0;
    assert (b - a) * k == b * k - a * k;
  }

  lemma DivBounds(d: int, w: int)
    requires w > 0
    ensures d <= 0 ==> d <= d / w <= 0
    ensures d < 0 ==> d / w <= -1
    ensures d >= 0 ==> 0 <= d / w <= d
    ensures d >= w ==> d / w >= 1
  {
    var q, r := d / w, d % w;
    assert d == w * q + r;
    assert q >= 1 ==> w * q >= w;
    assert q <= -1 ==> w * q <= -w;
    if q >= 0 {
      MulMono(1, w, q);
    } else {
      MulMono(1, w, -(q + 1));
      assert w * -(q + 1) == -(w * q) - w;
    }
  }

  lemma DivMono(a: int, b: int, w: int)
    requires a <= b && w > 0
    ensures a / w <= b / w
  {
    var q, r := a / w, a % w + (b - a);
    assert b == q * w + r;
    QuotientOf(q, w, r);
    DivBounds(r, w);
  }

  lemma QuotientOf(q: int, w: int, r: int)
    requires w > 0
    ensures (q * w + r) / w == q + r / w
  {
    var x := q * w + r;
    var d := x / w - q - r / w;
    assert w * d == w * (x / w) - w * q - w * (r / w);
    assert w * d == r % w - x % w;
    assert d >= 1 ==> w * d >= w;
    assert d <= -1 ==> w * d <= -w;
  }
}
