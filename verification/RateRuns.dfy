/** Whole runs of the rate limiter: sends and observations of one rate class (state/session.go). */
module RateRuns {
  import opened RateLimit

  datatype RateState = RateState(
    params: RateClass, level: int, lastTime: int, status: Status, subscribed: bool, limitedNow: bool)

  /** The state `SetRateClasses` starts a class in. */
  function Initial(c: RateClass, now: int, subscribed: bool): RateState {
    RateState(c, c.maxLevel, now, Clear, subscribed, false)
  }

  /** `EvaluateRateLimit`: a send is measured and recorded. */
  function AfterSend(s: RateState, now: int): RateState
    requires s.params.windowSize > 0
  {
    var (status, level) := CheckRateLimit(s.lastTime, now, s.params, s.level, s.limitedNow);
    s.(level := level, status := status, lastTime := now, limitedNow := status.Limited?)
  }

  /** `ObserveRateChanges` of one class: only passing from limited to clear touches the level, and never the time. */
  function AfterObserve(s: RateState, now: int): RateState
    requires s.params.windowSize > 0
  {
    var (status, level) := CheckRateLimit(s.lastTime, now, s.params, s.level, s.limitedNow);
    if s.limitedNow && status.Clear? then s.(status := status, limitedNow := false, level := level)
    else s.(status := status)
  }

  datatype Event = Send(t: int) | Observe(t: int)

  function Sends(evs: seq<Event>): seq<Event> {
    if evs == [] then [] else (if evs[0].Send? then [evs[0]] else []) + Sends(evs[1..])
  }

  /** The states right after each send of a run. */
  function Trace(s: RateState, evs: seq<Event>): (tr: seq<RateState>)
    requires s.params.windowSize > 0
    ensures |tr| == |Sends(evs)|
    decreases |evs|
  {
    if evs == [] then []
    else if evs[0].Send? then
      var s' := AfterSend(s, evs[0].t);
      [s'] + Trace(s', evs[1..])
    else Trace(AfterObserve(s, evs[0].t), evs[1..])
  }

  /** Every event comes no earlier, and not too much later, than the send before it. */
  predicate Timely(last: int, limit: int, evs: seq<Event>)
    decreases |evs|
  {
    evs == [] ||
    (0 <= GapMs(last, evs[0].t) <= limit && Timely(if evs[0].Send? then evs[0].t else last, limit, evs[1..]))
  }

  predicate Sound(s: RateState) {
    Ordered(s.params) && 0 <= s.level <= s.params.maxLevel && (s.limitedNow ==> s.level < s.params.clearLevel)
  }

  predicate Refused(s: RateState) { s.status.Limited? || s.status.Disconnect? }

  predicate Accepted(s: RateState) { !Refused(s) }

  predicate IsLimited(s: RateState) { s.status.Limited? }

  lemma StepExact(s: RateState, now: int)
    requires Sound(s) && 0 <= GapMs(s.lastTime, now) <= GapLimit(s.params)
    ensures var next := Next(s.params, s.level, GapMs(s.lastTime, now));
            CheckRateLimit(s.lastTime, now, s.params, s.level, s.limitedNow) == (StatusAt(s.params, next, s.limitedNow), next)
    ensures Sound(AfterSend(s, now)) && Sound(AfterObserve(s, now))
    ensures AfterSend(s, now).params == AfterObserve(s, now).params == s.params
  {
    CheckIsExact(s.lastTime, now, s.params, s.level, s.limitedNow);
  }

  // ---------------------------------------------------------------- observers

  /** `b` is at least as well off as `a`: same clock, no lower level, limited only if `a` is. */
  predicate Ahead(b: RateState, a: RateState) {
    && Sound(a) && Sound(b)
    && b.params == a.params && b.lastTime == a.lastTime
    && a.level <= b.level
    && (b.limitedNow ==> a.limitedNow)
  }

  lemma SendKeepsAhead(b: RateState, a: RateState, now: int)
    requires Ahead(b, a) && 0 <= GapMs(a.lastTime, now) <= GapLimit(a.params)
    requires !AfterSend(a, now).status.Disconnect?
    ensures Ahead(AfterSend(b, now), AfterSend(a, now))
    ensures !AfterSend(b, now).status.Disconnect?
    ensures Refused(AfterSend(b, now)) ==> Refused(AfterSend(a, now))
  {
    StepExact(a, now);
    StepExact(b, now);
    NextMonotone(a.params, a.level, b.level, GapMs(a.lastTime, now));
  }

  lemma ObserveKeepsAhead(b: RateState, a: RateState, now: int)
    requires Ahead(b, a) && 0 <= GapMs(a.lastTime, now) <= GapLimit(a.params)
    ensures Ahead(AfterObserve(b, now), a)
  {
    StepExact(b, now);
  }

  lemma {:induction false} ObserversKeepAhead(b: RateState, a: RateState, evs: seq<Event>, i: nat)
    requires Ahead(b, a) && Timely(a.lastTime, GapLimit(a.params), evs) && i < |Sends(evs)|
    requires |Trace(b, evs)| == |Trace(a, Sends(evs))| == |Sends(evs)|
    requires forall j | 0 <= j <= i :: !Trace(a, Sends(evs))[j].status.Disconnect?
    ensures Ahead(Trace(b, evs)[i], Trace(a, Sends(evs))[i])
    ensures !Trace(b, evs)[i].status.Disconnect?
    ensures Refused(Trace(b, evs)[i]) ==> Refused(Trace(a, Sends(evs))[i])
    decreases |evs|
  {
    var e, rest := evs[0], evs[1..];
    if e.Send? {
      assert Sends(evs) == [e] + Sends(rest) && Sends(evs)[1..] == Sends(rest);
      var a', b' := AfterSend(a, e.t), AfterSend(b, e.t);
      assert Trace(a, Sends(evs)) == [a'] + Trace(a', Sends(rest));
      assert Trace(a, Sends(evs))[0] == a';
      SendKeepsAhead(b, a, e.t);
      if i > 0 {
        SendsIdempotent(rest);
        forall j | 0 <= j <= i - 1 ensures !Trace(a', Sends(rest))[j].status.Disconnect? {
          assert Trace(a, Sends(evs))[j + 1] == Trace(a', Sends(rest))[j];
        }
        ObserversKeepAhead(b', a', rest, i - 1);
      }
    } else {
      assert Sends(evs) == Sends(rest);
      ObserveKeepsAhead(b, a, e.t);
      ObserversKeepAhead(AfterObserve(b, e.t), a, rest, i);
    }
  }

  lemma {:induction false} SendsIdempotent(evs: seq<Event>)
    ensures Sends(Sends(evs)) == Sends(evs)
    decreases |evs|
  {
    if evs != [] {
      SendsIdempotent(evs[1..]);
      if evs[0].Send? {
        assert Sends(evs)[1..] == Sends(evs[1..]);
        assert Sends(Sends(evs)) == [evs[0]] + Sends(Sends(evs)[1..]);
      } else {
        assert Sends(evs) == Sends(evs[1..]);
      }
    }
  }

  /**
   What observing may not do. Up to any disconnect of the unobserved run, send i
   of the run with observations finds at least the level the run without them
   finds, and is refused only if that one refuses it too.
   */
  predicate NotHurt(s: RateState, evs: seq<Event>, i: nat)
    requires s.params.windowSize > 0
  {
    var with, without := Trace(s, evs), Trace(s, Sends(evs));
    && i < |with| == |without|
    && ((forall j | 0 <= j <= i :: !without[j].status.Disconnect?) ==>
          && with[i].level >= without[i].level && (with[i].limitedNow ==> without[i].limitedNow)
          && (Refused(with[i]) ==> Refused(without[i])))
  }

  /** Watching a client never hurts it, while no gap exceeds `GapLimit`. */
  lemma ObserversNeverHurt(s: RateState, evs: seq<Event>, i: nat)
    requires Sound(s) && Timely(s.lastTime, GapLimit(s.params), evs) && i < |Sends(evs)|
    ensures NotHurt(s, evs, i)
  {
    SendsIdempotent(evs);
    if forall j | 0 <= j <= i :: !Trace(s, Sends(evs))[j].status.Disconnect? {
      ObserversKeepAhead(s, s, evs, i);
    }
  }

  /** Observing never hurts any run of a class whose gaps stay within a limit. */
  ghost predicate NeverHurtWithin(c: RateClass, limit: int) {
    forall s: RateState, evs, i: nat | Sound(s) && s.params == c && Timely(s.lastTime, limit, evs) && i < |Sends(evs)| ::
      NotHurt(s, evs, i)
  }

  /** `GapLimit` is the largest gap within which observing never hurts. */
  lemma GapLimitIsSharp(c: RateClass, limit: int)
    requires Ordered(c) && c.windowSize >= 2 && c.clearLevel >= 1 && c.maxLevel * c.windowSize <= GapLimit(c)
    ensures NeverHurtWithin(c, limit) <==> limit <= GapLimit(c)
  {
    if limit <= GapLimit(c) {
      forall s: RateState, evs, i: nat | Sound(s) && s.params == c && Timely(s.lastTime, limit, evs) && i < |Sends(evs)|
        ensures NotHurt(s, evs, i)
      {
        TimelyWithin(s.lastTime, limit, GapLimit(c), evs);
        ObserversNeverHurt(s, evs, i);
      }
    } else {
      var s, evs := HurtRun(c, limit);
    }
  }

  lemma DefaultClassesSharp()
    ensures forall c <- DEFAULT_CLASSES :: c.windowSize >= 2 && c.clearLevel >= 1 && c.maxLevel * c.windowSize <= GapLimit(c)
  {
  }

  lemma {:induction false} TimelyWithin(last: int, limit: int, limit': int, evs: seq<Event>)
    requires Timely(last, limit, evs) && limit <= limit'
    ensures Timely(last, limit', evs)
    decreases |evs|
  {
    if evs != [] {
      TimelyWithin(if evs[0].Send? then evs[0].t else last, limit, limit', evs[1..]);
    }
  }

  /**
   A limited client is observed once it is clear, which lifts it to the maximum
   level, and sends one millisecond past the limit: the sum overflows. At its old
   level the sum would have fit.
   */
  lemma HurtRun(c: RateClass, limit: int) returns (s: RateState, evs: seq<Event>)
    requires Ordered(c) && c.windowSize >= 2 && c.clearLevel >= 1 && c.maxLevel * c.windowSize <= GapLimit(c) < limit
    ensures Sound(s) && s.params == c && Timely(s.lastTime, limit, evs) && |Sends(evs)| == 1 && !NotHurt(s, evs, 0)
  {
    var w, max := c.windowSize, c.maxLevel;
    s := RateState(c, c.clearLevel - 1, 0, Limited, true, true);
    var watch, send := max * w * MILLISECOND, (GapLimit(c) + 1) * MILLISECOND;
    evs := [Observe(watch), Send(send)];
    MulMono(0, max, w);
    assert GapMs(0, watch) == max * w && GapMs(0, send) == GapLimit(c) + 1;
    WatchLifts(c, s, watch);
    var high := AfterObserve(s, watch);
    OneSend(s, evs[0], evs[1]);
    TwoTimely(0, limit, evs[0], evs[1]);
    WrapDisconnects(c, send);
    LowLevelFits(c, send);
  }

  lemma LastSend(s: RateState, e: Event)
    requires s.params.windowSize > 0 && e.Send?
    ensures Sends([e]) == [e] && Trace(s, [e]) == [AfterSend(s, e.t)]
  {
    assert [e][1..] == [];
  }

  lemma OneSend(s: RateState, watch: Event, send: Event)
    requires s.params.windowSize > 0 && watch.Observe? && send.Send?
    ensures var evs := [watch, send];
            && Sends(evs) == [send] && Trace(s, [send]) == [AfterSend(s, send.t)]
            && Trace(s, evs) == [AfterSend(AfterObserve(s, watch.t), send.t)]
  {
    var evs := [watch, send];
    assert evs[1..] == [send];
    LastSend(s, send);
    LastSend(AfterObserve(s, watch.t), send);
  }

  lemma TwoTimely(last: int, limit: int, watch: Event, send: Event)
    requires watch.Observe? && send.Send? && 0 <= GapMs(last, watch.t) <= limit && 0 <= GapMs(last, send.t) <= limit
    ensures Timely(last, limit, [watch, send])
  {
    assert [watch, send][1..] == [send] && [send][1..] == [];
    assert Timely(send.t, limit, []);
    assert Timely(last, limit, [send]);
  }

  lemma WatchLifts(c: RateClass, s: RateState, watch: int)
    requires Ordered(c) && s.params == c && 0 <= s.level < c.clearLevel && s.limitedNow
    requires c.maxLevel * c.windowSize == GapMs(s.lastTime, watch) <= GapLimit(c)
    ensures AfterObserve(s, watch) == s.(level := c.maxLevel, status := Clear, limitedNow := false)
  {
    CheckIsExact(s.lastTime, watch, c, s.level, true);
    ReachesMax(c, s.level, c.maxLevel * c.windowSize);
  }

  lemma ReachesMax(c: RateClass, level: nat, gap: nat)
    requires Ordered(c) && gap >= c.maxLevel * c.windowSize
    ensures Next(c, level, gap) == c.maxLevel
  {
    MulMono(0, level, c.windowSize - 1);
    QuotientBelow(level * (c.windowSize - 1) + gap, c.windowSize, c.maxLevel);
  }

  lemma WrapDisconnects(c: RateClass, send: int)
    requires Ordered(c) && c.windowSize >= 2 && c.maxLevel >= 1
    requires c.maxLevel * c.windowSize <= GapLimit(c) && GapMs(0, send) == GapLimit(c) + 1
    ensures CheckRateLimit(0, send, c, c.maxLevel, false).0.Disconnect?
  {
    var w, gap := c.windowSize, GapLimit(c) + 1;
    MulMono(1, c.maxLevel, w - 1);
    ElapsedIsExact(0, send);
    LongPauseDisconnects(0, send, c, c.maxLevel, false);
    assert c.maxLevel * (w - 1) + gap == INT32_MAX + 1;
    MulMono(1, c.maxLevel, w);
    MulMono(0, c.maxLevel, w - 1);
    MulMono(0, c.disconnectLevel, w);
  }

  lemma LowLevelFits(c: RateClass, send: int)
    requires Ordered(c) && c.windowSize >= 2 && c.clearLevel >= 1
    requires c.maxLevel * c.windowSize <= GapLimit(c) && GapMs(0, send) == GapLimit(c) + 1
    ensures CheckRateLimit(0, send, c, c.clearLevel - 1, true).0.Clear?
  {
    var w, level := c.windowSize, c.clearLevel - 1;
    MulMono(level + 1, c.maxLevel, w - 1);
    assert (level + 1) * (w - 1) == level * (w - 1) + (w - 1);
    MulMono(0, level, w - 1);
    FitsExactly(0, send, c, level, true);
    ReachesMax(c, level, GapLimit(c) + 1);
  }

  lemma FitsExactly(last: int, now: int, c: RateClass, level: nat, limited: bool)
    requires Ordered(c) && level <= c.maxLevel
    requires 0 <= GapMs(last, now) && level * (c.windowSize - 1) + GapMs(last, now) <= INT32_MAX
    ensures var next := Next(c, level, GapMs(last, now));
            CheckRateLimit(last, now, c, level, limited) == (StatusAt(c, next, limited), next)
  {
    MulMono(0, level, c.windowSize - 1);
    ElapsedIsExact(last, now);
    ExactUnlessWrapped(last, now, c, level, limited);
    SumWraps(last, now, c, level, limited);
  }

  /** Class 2: the observation costs the client its session one millisecond past the limit, and long after it. */
  lemma ObserverHurtsPastLimit()
    ensures
      var s := RateState(DEFAULT_CLASSES[1], 1400, 0, Limited, true, true);
      && Sound(s) && GapLimit(s.params) == 2_146_298_647
      && AfterSend(AfterObserve(s, 1_100_000 * MILLISECOND), 2_146_298_648 * MILLISECOND).status.Disconnect?
      && AfterSend(s, 2_146_298_648 * MILLISECOND).status.Clear?
      && AfterSend(AfterObserve(s, 9400 * MILLISECOND), 2_147_370_000 * MILLISECOND).status.Disconnect?
      && AfterSend(s, 2_147_370_000 * MILLISECOND).status.Clear?
  {
    var s := RateState(DEFAULT_CLASSES[1], 1400, 0, Limited, true, true);
    assert AfterObserve(s, 1_100_000 * MILLISECOND) == s.(level := 15000, status := Clear, limitedNow := false);
    assert AfterObserve(s, 9400 * MILLISECOND) == s.(level := 1500, status := Clear, limitedNow := false);
  }

  /** A second look at the same instant has nothing to report. */
  lemma ObserveTwice(s: RateState, now: int)
    requires Sound(s) && 0 <= GapMs(s.lastTime, now) <= GapLimit(s.params)
    ensures AfterObserve(AfterObserve(s, now), now) == AfterObserve(s, now)
  {
    StepExact(s, now);
    var s' := AfterObserve(s, now);
    StepExact(s', now);
    if s.limitedNow && s'.status.Clear? {
      ClearStaysClear(s.params, s.level, GapMs(s.lastTime, now));
    }
  }

  lemma ClearStaysClear(c: RateClass, level: nat, gap: nat)
    requires Ordered(c) && level < c.clearLevel <= Next(c, level, gap)
    ensures StatusAt(c, Next(c, Next(c, level, gap), gap), false).Clear?
  {
    NextBetween(c, level, gap);
    NextBetween(c, Next(c, level, gap), gap);
  }

  // ---------------------------------------------------------------- constant gaps

  function Pow(b: int, k: nat): int {
    if k == 0 then 1 else b * Pow(b, k - 1)
  }

  /** The state after a send at each of the given times. */
  function After(s: RateState, times: seq<int>): (r: RateState)
    requires s.params.windowSize > 0
    ensures r.params == s.params
    decreases |times|
  {
    if times == [] then s else AfterSend(After(s, times[..|times| - 1]), times[|times| - 1])
  }

  function LastTime(s: RateState, times: seq<int>): int {
    if times == [] then s.lastTime else times[|times| - 1]
  }

  /** All gaps, in milliseconds, are the ones a predicate allows. */
  ghost predicate Gaps(s: RateState, times: seq<int>, ok: int -> bool)
    decreases |times|
  {
    times == [] ||
    var k := |times| - 1;
    var gap := GapMs(LastTime(s, times[..k]), times[k]);
    0 <= gap <= GapLimit(s.params) && ok(gap) && Gaps(s, times[..k], ok)
  }

  lemma {:induction false} AfterSound(s: RateState, times: seq<int>, ok: int -> bool)
    requires Sound(s) && Gaps(s, times, ok)
    ensures Sound(After(s, times)) && After(s, times).params == s.params
    ensures After(s, times).lastTime == LastTime(s, times)
    decreases |times|
  {
    if times != [] {
      var k := |times| - 1;
      AfterSound(s, times[..k], ok);
      StepExact(After(s, times[..k]), times[k]);
    }
  }

  /** A send k, seen from the state before it. */
  lemma LastStep(s: RateState, times: seq<int>, ok: int -> bool) returns (p: RateState, gap: int)
    requires Sound(s) && Gaps(s, times, ok) && times != []
    ensures p == After(s, times[..|times| - 1]) && Sound(p) && p.params == s.params
    ensures Gaps(s, times[..|times| - 1], ok) && ok(gap) && 0 <= gap <= GapLimit(s.params)
    ensures var level := Next(s.params, p.level, gap); var status := StatusAt(s.params, level, p.limitedNow);
            After(s, times) == p.(level := level, status := status, lastTime := times[|times| - 1], limitedNow := status.Limited?)
  {
    var k := |times| - 1;
    AfterSound(s, times[..k], ok);
    p := After(s, times[..k]);
    gap := GapMs(LastTime(s, times[..k]), times[k]);
    StepExact(p, times[k]);
  }

  /**
   Exponential decay with its rounding: sending at a constant gap g from a level
   a0 >= g, the level a after k sends keeps a - g between the geometric sequence
   with ratio (w-1)/w and the same sequence shifted by w - 1.
   */
  lemma {:induction false} DecayBounds(s: RateState, times: seq<int>, g: nat)
    requires Sound(s) && g <= s.level && Gaps(s, times, x => x == g)
    ensures var w, a, k := s.params.windowSize, After(s, times).level, |times|;
            g <= a <= s.level
            && (a - g) * Pow(w, k) <= (s.level - g) * Pow(w - 1, k)
            && (s.level - g + w - 1) * Pow(w - 1, k) <= (a - g + w - 1) * Pow(w, k)
    decreases |times|
  {
    if times != [] {
      var p, gap := LastStep(s, times, x => x == g);
      DecayBounds(s, times[..|times| - 1], g);
      var c, k := s.params, |times| - 1;
      var w, a := c.windowSize, Next(c, p.level, g);
      NextBetween(c, p.level, g);
      NextQuotient(c, p.level, g);
      PowPositive(w, k);
      PowPositive(w - 1, k);
      Scale(a - g, p.level - g, s.level - g, w, Pow(w, k), Pow(w - 1, k));
      Scale'(a - g + w - 1, p.level - g + w - 1, s.level - g + w - 1, w, Pow(w, k), Pow(w - 1, k));
    }
  }

  /** Unclamped, the new level is the quotient: w times it is within w - 1 of the weighted sum. */
  lemma NextQuotient(c: RateClass, level: nat, gap: nat)
    requires Ordered(c) && gap <= level <= c.maxLevel
    ensures var w, a := c.windowSize, Next(c, level, gap);
            w * (a - gap) <= (w - 1) * (level - gap)
            && (w - 1) * (level - gap + w - 1) <= w * (a - gap + w - 1)
  {
    NextBetween(c, level, gap);
    StepForm(level, gap, c.windowSize);
    DivBounds(gap - level, c.windowSize);
    QuotientDistances(c.windowSize, level, gap);
  }

  lemma QuotientDistances(w: int, level: int, gap: int)
    requires w >= 1
    ensures var a := (level * (w - 1) + gap) / w;
            w * (a - gap) <= (w - 1) * (level - gap)
            && (w - 1) * (level - gap + w - 1) <= w * (a - gap + w - 1)
  {
    var sum := level * (w - 1) + gap;
    DivMod(sum, w);
    Distances(w, sum / w, level, gap, sum % w);
    Squeeze(w, level - gap, sum / w - gap, sum % w);
  }

  lemma DivMod(x: int, w: int)
    requires w >= 1
    ensures w * (x / w) + x % w == x && 0 <= x % w < w
  {
  }

  lemma Distances(w: int, a: int, level: int, gap: int, r: int)
    requires w * a + r == level * (w - 1) + gap
    ensures w * (a - gap) + r == (w - 1) * (level - gap)
  {
    assert w * (a - gap) == w * a - w * gap;
    assert (w - 1) * (level - gap) == (w - 1) * level - (w - 1) * gap;
    assert (w - 1) * gap == w * gap - gap;
  }

  lemma Squeeze(w: int, d: int, e: int, r: int)
    requires w >= 1 && 0 <= r < w && w * e + r == (w - 1) * d
    ensures w * e <= (w - 1) * d && (w - 1) * (d + w - 1) <= w * (e + w - 1)
  {
    var v := w - 1;
    assert v * (d + v) == v * d + v * v;
    assert w * (e + v) == w * e + w * v;
    assert w * v == v * v + v;
  }

  lemma {:induction false} PowPositive(b: int, k: nat)
    requires b >= 0
    ensures Pow(b, k) >= 0
  {
    if k > 0 {
      PowPositive(b, k - 1);
      MulMono(0, b, Pow(b, k - 1));
    }
  }

  lemma Scale(a: int, p: int, s: int, w: int, pw: int, pv: int)
    requires w * a <= (w - 1) * p && p * pw <= s * pv && w >= 1 && pw >= 0 && pv >= 0
    ensures a * (w * pw) <= s * ((w - 1) * pv)
  {
    MulMono(w * a, (w - 1) * p, pw);
    MulMono(p * pw, s * pv, w - 1);
    assert a * (w * pw) == w * a * pw;
    assert (w - 1) * p * pw == (w - 1) * (p * pw);
    assert s * ((w - 1) * pv) == (w - 1) * (s * pv);
  }

  lemma Scale'(a: int, p: int, s: int, w: int, pw: int, pv: int)
    requires (w - 1) * p <= w * a && s * pv <= p * pw && w >= 1 && pw >= 0 && pv >= 0
    ensures s * ((w - 1) * pv) <= a * (w * pw)
  {
    MulMono((w - 1) * p, w * a, pw);
    MulMono(s * pv, p * pw, w - 1);
    assert a * (w * pw) == w * a * pw;
    assert (w - 1) * p * pw == (w - 1) * (p * pw);
    assert s * ((w - 1) * pv) == (w - 1) * (s * pv);
  }

  // ---------------------------------------------------------------- thresholds over runs

  /** Gaps at or above the limit level never limit a client that starts at or above it. */
  lemma {:induction false} SlowSendersAreNeverLimited(s: RateState, times: seq<int>)
    requires Sound(s) && !s.limitedNow && s.level >= s.params.limitLevel
    requires Gaps(s, times, g => g >= s.params.limitLevel)
    ensures var r := After(s, times);
            r.level >= s.params.limitLevel && !r.limitedNow && (times != [] ==> !Refused(r))
    decreases |times|
  {
    if times != [] {
      var p, gap := LastStep(s, times, g => g >= s.params.limitLevel);
      SlowSendersAreNeverLimited(s, times[..|times| - 1]);
      var c := s.params;
      NextMonotone(c, c.limitLevel, p.level, gap);
      NextBetween(c, c.limitLevel, gap);
    }
  }

  /** Every send of the run, the last first, leaves a state the predicate allows. */
  ghost predicate All(s: RateState, times: seq<int>, ok: RateState -> bool)
    requires s.params.windowSize > 0
    decreases |times|
  {
    times == [] || (ok(After(s, times)) && All(s, times[..|times| - 1], ok))
  }

  /** The first send that does not. */
  lemma {:induction false} FirstBreak(s: RateState, times: seq<int>, ok: RateState -> bool) returns (k: nat)
    requires s.params.windowSize > 0 && !All(s, times, ok)
    ensures 0 < k <= |times| && All(s, times[..k - 1], ok) && !ok(After(s, times[..k]))
    decreases |times|
  {
    var n := |times|;
    if All(s, times[..n - 1], ok) {
      assert times[..n] == times;
      k := n;
    } else {
      k := FirstBreak(s, times[..n - 1], ok);
      assert times[..n - 1][..k - 1] == times[..k - 1] && times[..n - 1][..k] == times[..k];
    }
  }

  lemma {:induction false} GapsPrefix(s: RateState, times: seq<int>, ok: int -> bool, k: nat)
    requires Gaps(s, times, ok) && k <= |times|
    ensures Gaps(s, times[..k], ok)
    decreases |times|
  {
    if k == |times| {
      assert times[..k] == times;
    } else {
      GapsPrefix(s, times[..|times| - 1], ok, k);
      assert times[..|times| - 1][..k] == times[..k];
    }
  }

  /** Gaps below the limit level bring an unlimited client down by at least one per accepted send. */
  lemma {:induction false} FastSendersSink(s: RateState, times: seq<int>)
    requires Sound(s) && !s.limitedNow && Gaps(s, times, g => g < s.params.limitLevel)
    requires All(s, times, Accepted)
    ensures After(s, times).level <= s.level - |times| && !After(s, times).limitedNow
    ensures times != [] ==> After(s, times).level >= s.params.limitLevel
    decreases |times|
  {
    if times != [] {
      var p, gap := LastStep(s, times, g => g < s.params.limitLevel);
      FastSendersSink(s, times[..|times| - 1]);
      NextBetween(s.params, p.level, gap);
    }
  }

  /** So one of the first maxLevel - limitLevel + 1 sends is limited or disconnects. */
  lemma FastSendersAreRefused(s: RateState, times: seq<int>) returns (k: nat)
    requires Sound(s) && !s.limitedNow && Gaps(s, times, g => g < s.params.limitLevel)
    requires |times| == s.params.maxLevel - s.params.limitLevel + 1
    ensures 0 < k <= |times| && Refused(After(s, times[..k]))
  {
    if All(s, times, Accepted) {
      FastSendersSink(s, times);
      assert false;
    }
    k := FirstBreak(s, times, Accepted);
  }

  /** A limited client is told nothing but Limited or Disconnect until its level reaches the clear level. */
  lemma LimitedUntilClear(s: RateState, now: int)
    requires Sound(s) && s.limitedNow && 0 <= GapMs(s.lastTime, now) <= GapLimit(s.params)
    ensures var r := AfterSend(s, now);
            if r.level >= s.params.clearLevel then r.status.Clear? && !r.limitedNow
            else Refused(r) && (r.limitedNow || r.status.Disconnect?)
  {
    StepExact(s, now);
  }

  /** With gaps of clearLevel + windowSize - 1 or more, each refused send of a limited client lifts it by at least one. */
  lemma {:induction false} PatientSendersRise(s: RateState, times: seq<int>)
    requires Sound(s) && s.limitedNow && Gaps(s, times, g => g >= s.params.clearLevel + s.params.windowSize - 1)
    requires All(s, times, IsLimited)
    ensures After(s, times).level >= s.level + |times| && After(s, times).limitedNow
    decreases |times|
  {
    if times != [] {
      var p, gap := LastStep(s, times, g => g >= s.params.clearLevel + s.params.windowSize - 1);
      PatientSendersRise(s, times[..|times| - 1]);
      NextBetween(s.params, p.level, gap);
    }
  }

  /** So within clearLevel sends it is clear again, unless one of them disconnects it. */
  lemma PatientSendersAreCleared(s: RateState, times: seq<int>) returns (k: nat)
    requires Sound(s) && s.limitedNow && Gaps(s, times, g => g >= s.params.clearLevel + s.params.windowSize - 1)
    requires |times| == s.params.clearLevel
    ensures 0 < k <= |times| && All(s, times[..k - 1], IsLimited)
    ensures var r := After(s, times[..k]); (r.status.Clear? && !r.limitedNow) || r.status.Disconnect?
  {
    var patient := (g: int) => g >= s.params.clearLevel + s.params.windowSize - 1;
    if All(s, times, IsLimited) {
      AfterSound(s, times, patient);
      PatientSendersRise(s, times);
      assert false;
    }
    k := FirstBreak(s, times, IsLimited);
    GapsPrefix(s, times, patient, k);
    var p, gap := LastStep(s, times[..k], patient);
    assert times[..k][..k - 1] == times[..k - 1];
    PatientSendersRise(s, times[..k - 1]);
  }
}
