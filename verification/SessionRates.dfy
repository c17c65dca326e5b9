/** The rate limiting part of a session (state/session.go): five classes, updated in place under the session's lock. */
module SessionRates {
  import opened RateLimit
  import opened RateRuns

  /** Go's zero value, except that its status is none of the four. */
  const ZERO_STATE: RateState := RateState(RateClass(0, 0, 0, 0, 0, 0, 0), 0, 0, Clear, false, false)

  /** One class after `ObserveRateChanges`: unsubscribed classes are not looked at. */
  function Watched(s: RateState, now: int): RateState
    requires s.subscribed ==> s.params.windowSize > 0
  {
    if s.subscribed then AfterObserve(s, now) else s
  }

  predicate Observable(ss: seq<RateState>) {
    forall s <- ss :: s.subscribed ==> s.params.windowSize > 0
  }

  function WatchedAll(ss: seq<RateState>, now: int): (r: seq<RateState>)
    requires Observable(ss)
    ensures |r| == |ss| && forall i | 0 <= i < |ss| :: r[i] == Watched(ss[i], now)
  {
    seq(|ss|, i requires 0 <= i < |ss| => Watched(ss[i], now))
  }

  /** What the next observation will compare with: the new states of the classes that were looked at. */
  function Remembered(ss: seq<RateState>, seen: seq<RateState>, now: int): (r: seq<RateState>)
    requires Observable(ss) && |seen| == |ss|
    ensures |r| == |ss| && forall i | 0 <= i < |ss| :: r[i] == if ss[i].subscribed then Watched(ss[i], now) else seen[i]
  {
    seq(|ss|, i requires 0 <= i < |ss| => if ss[i].subscribed then Watched(ss[i], now) else seen[i])
  }

  /** The subscribed classes whose parameters differ from the last observed ones, in class order. */
  function ClassDelta(ss: seq<RateState>, seen: seq<RateState>, now: int): seq<RateState>
    requires Observable(ss) && |seen| == |ss|
  {
    if ss == [] then [] else
    (if ss[0].subscribed && ss[0].params != seen[0].params then [Watched(ss[0], now)] else [])
    + ClassDelta(ss[1..], seen[1..], now)
  }

  /** The subscribed classes whose status differs from the last observed one, in class order. */
  function StateDelta(ss: seq<RateState>, seen: seq<RateState>, now: int): seq<RateState>
    requires Observable(ss) && |seen| == |ss|
  {
    if ss == [] then [] else
    (if ss[0].subscribed && Watched(ss[0], now).status != seen[0].status then [Watched(ss[0], now)] else [])
    + StateDelta(ss[1..], seen[1..], now)
  }

  /** Each change is reported once: looking again at the same instant reports nothing and changes nothing. */
  lemma {:induction false} ReportedOnce(ss: seq<RateState>, seen: seq<RateState>, now: int)
    requires |seen| == |ss|
    requires forall s <- ss :: Sound(s) && 0 <= GapMs(s.lastTime, now) <= GapLimit(s.params)
    ensures Observable(ss) && Observable(WatchedAll(ss, now))
    ensures WatchedAll(WatchedAll(ss, now), now) == WatchedAll(ss, now)
    ensures ClassDelta(WatchedAll(ss, now), Remembered(ss, seen, now), now) == []
    ensures StateDelta(WatchedAll(ss, now), Remembered(ss, seen, now), now) == []
    decreases |ss|
  {
    forall i | 0 <= i < |ss| ensures Watched(Watched(ss[i], now), now) == Watched(ss[i], now) {
      ObserveTwice(ss[i], now);
    }
    if ss != [] {
      ReportedOnce(ss[1..], seen[1..], now);
      assert WatchedAll(ss, now)[1..] == WatchedAll(ss[1..], now);
      assert Remembered(ss, seen, now)[1..] == Remembered(ss[1..], seen[1..], now);
    }
  }

  lemma DeltaStep(ss: seq<RateState>, seen: seq<RateState>, i: nat, now: int)
    requires Observable(ss) && |seen| == |ss| && i < |ss|
    ensures ClassDelta(ss[i..], seen[i..], now)
         == (if ss[i].subscribed && ss[i].params != seen[i].params then [Watched(ss[i], now)] else [])
            + ClassDelta(ss[i + 1..], seen[i + 1..], now)
    ensures StateDelta(ss[i..], seen[i..], now)
         == (if ss[i].subscribed && Watched(ss[i], now).status != seen[i].status then [Watched(ss[i], now)] else [])
            + StateDelta(ss[i + 1..], seen[i + 1..], now)
  {
    assert ss[i..][1..] == ss[i + 1..] && seen[i..][1..] == seen[i + 1..];
  }

  /** One class: the status is updated, and on passing from limited to clear the flag and the level too. */
  method Look(params: RateState, now: int) returns (s: RateState)
    requires params.subscribed && params.params.windowSize > 0
    ensures s == Watched(params, now) && s.params == params.params
  {
    var checked := CheckRateLimit(params.lastTime, now, params.params, params.level, params.limitedNow);
    s := params.(status := checked.0);
    if s.limitedNow && checked.0.Clear? {
      s := s.(limitedNow := false, level := checked.1);
    }
  }

  lemma SplitUpdate<T>(a: seq<T>, b: seq<T>, i: nat)
    requires i < |a| == |b|
    ensures (a[..i] + b[i..])[i] == b[i]
    ensures (a[..i] + b[i..])[i := a[i]] == a[..i + 1] + b[i + 1..]
  {
  }

  lemma Regroup<T>(done: seq<T>, hit: bool, x: T, rest: seq<T>)
    ensures done + ((if hit then [x] else []) + rest) == done + (if hit then [x] else []) + rest
  {
  }

  // ---------------------------------------------------------------- the session as a value

  datatype Rates = Rates(states: seq<RateState>, seen: seq<RateState>)

  const FRESH: Rates := Rates(seq(5, _ => ZERO_STATE), seq(5, _ => ZERO_STATE))

  predicate Shaped(r: Rates) { |r.states| == |r.seen| == 5 }

  function Evaluated(r: Rates, now: int, classID: int): Rates
    requires Shaped(r) && 1 <= classID <= 5 && r.states[classID - 1].params.windowSize > 0
  {
    r.(states := r.states[classID - 1 := AfterSend(r.states[classID - 1], now)])
  }

  function Observed(r: Rates, now: int): Rates
    requires Shaped(r) && Observable(r.states)
  {
    Rates(WatchedAll(r.states, now), Remembered(r.states, r.seen, now))
  }

  /** New classes start full and unlimited, with the subscriptions of the last observed states. */
  function Reset(r: Rates, now: int, classes: seq<RateClass>): (r': Rates)
    requires Shaped(r) && |classes| == 5
    ensures Shaped(r')
  {
    var states := seq(5, i requires 0 <= i < 5 => Initial(classes[i], now, r.seen[i].subscribed));
    Rates(states, if r.seen[0].params.id == 0 then states else r.states)
  }

  function Subscribed(r: Rates, ids: seq<int>): (r': Rates)
    requires Shaped(r)
    ensures Shaped(r')
  {
    r.(states := seq(5, i requires 0 <= i < 5 => r.states[i].(subscribed := r.states[i].subscribed || i + 1 in ids)))
  }

  datatype Action =
    | SetClasses(now: int, classes: seq<RateClass>)
    | SubscribeTo(ids: seq<int>)
    | Evaluate(now: int, classID: int)
    | ObserveAll(now: int)

  predicate Proper(a: Action) {
    match a
    case SetClasses(_, classes) => |classes| == 5 && classes[0].id != 0 && (forall c <- classes :: c.windowSize > 0)
    case Evaluate(_, classID) => 1 <= classID <= 5
    case _ => true
  }

  /** A session whose classes have been set. */
  predicate Armed(r: Rates) {
    && Shaped(r) && r.states[0].params.id != 0 && r.seen[0].params.id != 0
    && (forall s <- r.states :: s.params.windowSize > 0)
  }

  function Do(r: Rates, a: Action): (r': Rates)
    requires Armed(r) && Proper(a)
    ensures Armed(r')
  {
    match a
    case SetClasses(now, classes) => Reset(r, now, classes)
    case SubscribeTo(ids) => Subscribed(r, ids)
    case Evaluate(now, classID) => Evaluated(r, now, classID)
    case ObserveAll(now) =>
      assert forall i | 0 <= i < 5 :: r.states[i].params.windowSize > 0;
      Observed(r, now)
  }

  function Run(r: Rates, acts: seq<Action>): (r': Rates)
    requires Armed(r) && forall a <- acts :: Proper(a)
    ensures Armed(r')
    decreases |acts|
  {
    if acts == [] then r else Do(Run(r, acts[..|acts| - 1]), acts[|acts| - 1])
  }

  // ---------------------------------------------------------------- how long a subscription lasts

  predicate Names(a: Action, i: int) { a.SubscribeTo? && i + 1 in a.ids }

  function Sets(acts: seq<Action>): nat
    decreases |acts|
  {
    if acts == [] then 0
    else Sets(acts[..|acts| - 1]) + (if acts[|acts| - 1].SetClasses? then 1 else 0)
  }

  /** Action k names class i, and an odd, or an even, number of `SetRateClasses` follows it. */
  predicate SinceAt(acts: seq<Action>, i: int, odd: bool, k: nat)
    requires k < |acts|
  {
    Names(acts[k], i) && (Sets(acts[k..]) % 2 == 1) == odd
  }

  /** Some subscription to class i has been followed by an odd, or an even, number of `SetRateClasses`. */
  ghost predicate Since(acts: seq<Action>, i: int, odd: bool) {
    exists k | 0 <= k < |acts| :: SinceAt(acts, i, odd, k)
  }

  /** Some observation came an even number of `SetRateClasses` after a subscription to class i. */
  ghost predicate Confirmed(acts: seq<Action>, i: int) {
    exists j | 0 <= j < |acts| :: acts[j].ObserveAll? && Since(acts[..j], i, false)
  }

  lemma SetsSnoc(acts: seq<Action>, a: Action, k: nat)
    requires k <= |acts|
    ensures Sets((acts + [a])[k..]) == Sets(acts[k..]) + (if a.SetClasses? then 1 else 0)
  {
    assert (acts + [a])[k..] == acts[k..] + [a];
    assert (acts[k..] + [a])[..|acts| - k] == acts[k..];
  }

  lemma SinceAtSnoc(acts: seq<Action>, a: Action, i: int, odd: bool, k: nat)
    requires k < |acts|
    ensures SinceAt(acts + [a], i, odd, k) <==> SinceAt(acts, i, if a.SetClasses? then !odd else odd, k)
  {
    SetsSnoc(acts, a, k);
  }

  lemma SinceAtLast(acts: seq<Action>, a: Action, i: int, odd: bool)
    ensures SinceAt(acts + [a], i, odd, |acts|) <==> Names(a, i) && !odd
  {
    SetsSnoc(acts, a, |acts|);
  }

  lemma SinceSnoc(acts: seq<Action>, a: Action, i: int, odd: bool)
    ensures Since(acts + [a], i, odd)
            <==> (if a.SetClasses? then Since(acts, i, !odd) else Since(acts, i, odd) || (Names(a, i) && !odd))
  {
    var before := if a.SetClasses? then !odd else odd;
    forall k | 0 <= k < |acts| ensures SinceAt(acts + [a], i, odd, k) <==> SinceAt(acts, i, before, k) {
      SinceAtSnoc(acts, a, i, odd, k);
    }
    SinceAtLast(acts, a, i, odd);
  }

  lemma ConfirmedSnoc(acts: seq<Action>, a: Action, i: int)
    ensures Confirmed(acts + [a], i) <==> Confirmed(acts, i) || (a.ObserveAll? && Since(acts, i, false))
  {
    var after := acts + [a];
    assert forall j | 0 <= j < |acts| :: after[j] == acts[j] && after[..j] == acts[..j];
    assert after[|acts|] == a && after[..|acts|] == acts;
  }

  /** What one action does to the two subscription flags of a class: `SetRateClasses` swaps them. */
  lemma FlagsAfter(r: Rates, a: Action, i: nat)
    requires Armed(r) && Proper(a) && i < 5
    ensures Do(r, a).states[i].subscribed
            == if a.SetClasses? then r.seen[i].subscribed else r.states[i].subscribed || Names(a, i)
    ensures Do(r, a).seen[i].subscribed
            == if a.SetClasses? then r.states[i].subscribed
               else r.seen[i].subscribed || (a.ObserveAll? && r.states[i].subscribed)
  {
  }

  /** The subscription flags of a class, now and as last observed, after a run that starts with neither. */
  function Flags(acts: seq<Action>, i: int): (bool, bool)
    decreases |acts|
  {
    if acts == [] then (false, false) else
    var (sub, seen) := Flags(acts[..|acts| - 1], i);
    var a := acts[|acts| - 1];
    if a.SetClasses? then (seen, sub) else (sub || Names(a, i), seen || (a.ObserveAll? && sub))
  }

  lemma {:induction false} FlagsOfRun(r: Rates, acts: seq<Action>, i: nat)
    requires Armed(r) && (forall a <- acts :: Proper(a)) && i < 5
    requires !r.states[i].subscribed && !r.seen[i].subscribed
    ensures Flags(acts, i) == (Run(r, acts).states[i].subscribed, Run(r, acts).seen[i].subscribed)
    decreases |acts|
  {
    if acts != [] {
      var init := acts[..|acts| - 1];
      FlagsOfRun(r, init, i);
      FlagsAfter(Run(r, init), acts[|acts| - 1], i);
    }
  }

  lemma {:induction false} FlagsAre(acts: seq<Action>, i: int)
    ensures Flags(acts, i).0 <==> Since(acts, i, false) || Confirmed(acts, i)
    ensures Flags(acts, i).1 <==> Since(acts, i, true) || Confirmed(acts, i)
    decreases |acts|
  {
    if acts != [] {
      var init, a := acts[..|acts| - 1], acts[|acts| - 1];
      FlagsAre(init, i);
      FlagsSnoc(init, a, i);
      assert acts == init + [a];
    }
  }

  lemma FlagsSnoc(acts: seq<Action>, a: Action, i: int)
    ensures Since(acts + [a], i, false) <==> if a.SetClasses? then Since(acts, i, true) else Since(acts, i, false) || Names(a, i)
    ensures Since(acts + [a], i, true) <==> if a.SetClasses? then Since(acts, i, false) else Since(acts, i, true)
    ensures Confirmed(acts + [a], i) <==> Confirmed(acts, i) || (a.ObserveAll? && Since(acts, i, false))
  {
    SinceSnoc(acts, a, i, false);
    SinceSnoc(acts, a, i, true);
    ConfirmedSnoc(acts, a, i);
  }

  /**
   Over every run from a state in which class i is not subscribed: it is
   subscribed at the end exactly if some subscription to it has been followed by
   an even number of `SetRateClasses`, or was observed an even number of them
   later.
   */
  lemma SubscribedIff(r: Rates, acts: seq<Action>, i: nat)
    requires Armed(r) && (forall a <- acts :: Proper(a)) && i < 5
    requires !r.states[i].subscribed && !r.seen[i].subscribed
    ensures Run(r, acts).states[i].subscribed <==> Since(acts, i, false) || Confirmed(acts, i)
    ensures Run(r, acts).seen[i].subscribed <==> Since(acts, i, true) || Confirmed(acts, i)
  {
    FlagsOfRun(r, acts, i);
    FlagsAre(acts, i);
  }

  /**
   What the server does: it sets the classes of a session once, when it makes it.
   From then on a class is subscribed exactly if some subscription has named it.
   */
  lemma SubscribedAfterOnlySet(r: Rates, now: int, classes: seq<RateClass>, acts: seq<Action>, i: nat)
    requires Shaped(r) && r.seen == FRESH.seen && Proper(SetClasses(now, classes)) && i < 5
    requires forall a <- acts :: Proper(a) && !a.SetClasses?
    ensures Armed(Reset(r, now, classes))
    ensures Run(Reset(r, now, classes), acts).states[i].subscribed <==> exists k | 0 <= k < |acts| :: Names(acts[k], i)
  {
    FirstSetForgets(r, now, classes);
    var r' := Reset(r, now, classes);
    SubscribedIff(r', acts, i);
    NamedWithoutSets(acts, i);
  }

  lemma NamedWithoutSets(acts: seq<Action>, i: nat)
    requires forall a <- acts :: !a.SetClasses?
    ensures Since(acts, i, false) || Confirmed(acts, i) <==> exists k | 0 <= k < |acts| :: Names(acts[k], i)
  {
    if k :| 0 <= k < |acts| && Names(acts[k], i) {
      NoSets(acts[k..]);
      assert SinceAt(acts, i, false, k);
    }
    if Since(acts, i, false) {
      var k :| 0 <= k < |acts| && SinceAt(acts, i, false, k);
      assert Names(acts[k], i);
    }
    if Confirmed(acts, i) {
      var j :| 0 <= j < |acts| && acts[j].ObserveAll? && Since(acts[..j], i, false);
      var k :| 0 <= k < j && SinceAt(acts[..j], i, false, k);
      assert Names(acts[k], i);
    }
  }

  lemma {:induction false} NoSets(acts: seq<Action>)
    requires forall a <- acts :: !a.SetClasses?
    ensures Sets(acts) == 0
    decreases |acts|
  {
    if acts != [] {
      NoSets(acts[..|acts| - 1]);
    }
  }

  /** The first `SetRateClasses` of a session arms it and drops every subscription made before. */
  lemma FirstSetForgets(r: Rates, now: int, classes: seq<RateClass>)
    requires Shaped(r) && r.seen == FRESH.seen && Proper(SetClasses(now, classes))
    ensures var r' := Reset(r, now, classes);
            Armed(r') && forall i | 0 <= i < 5 :: !r'.states[i].subscribed && !r'.seen[i].subscribed
  {
  }

  /**
   What a second call on one session would do, which no caller makes: lose a
   subscription that was not observed. A third would bring it back.
   */
  lemma SubscriptionLost(now: int)
    ensures Proper(SetClasses(now, DEFAULT_CLASSES))
    ensures var r := Reset(FRESH, now, DEFAULT_CLASSES);
            var again, sub := SetClasses(now, DEFAULT_CLASSES), SubscribeTo([1]);
            && Armed(r)
            && Run(r, [sub]).states[0].subscribed
            && !Run(r, [sub, again]).states[0].subscribed
            && Run(r, [sub, again, again]).states[0].subscribed
  {
    var r := Reset(FRESH, now, DEFAULT_CLASSES);
    var again, sub := SetClasses(now, DEFAULT_CLASSES), SubscribeTo([1]);
    FirstSetForgets(FRESH, now, DEFAULT_CLASSES);
    var r1, r2 := Do(r, sub), Do(Do(r, sub), again);
    assert [sub][..0] == [] && [sub, again][..1] == [sub] && [sub, again, again][..2] == [sub, again];
    assert Run(r, []) == r;
    assert Run(r, [sub]) == r1;
    assert Run(r, [sub, again]) == r2;
    FlagsAfter(r, sub, 0);
    FlagsAfter(r1, again, 0);
    FlagsAfter(r2, again, 0);
  }

  class Session {
    var rateLimitStates: seq<RateState>
    var lastObservedStates: seq<RateState>
    var closed: bool

    ghost predicate Valid()
      reads this
    {
      Shaped(Value())
    }

    ghost function Value(): Rates
      reads this
    {
      Rates(rateLimitStates, lastObservedStates)
    }

    constructor ()
      ensures Valid() && !closed
      ensures Value() == FRESH
    {
      rateLimitStates := seq(5, _ => ZERO_STATE);
      lastObservedStates := seq(5, _ => ZERO_STATE);
      closed := false;
    }

    /** Bots pass unmeasured. A disconnect closes the session. */
    method EvaluateRateLimit(now: int, classID: int, bot: bool) returns (status: Status)
      requires Valid() && 1 <= classID <= 5
      requires !bot ==> rateLimitStates[classID - 1].params.windowSize > 0
      modifies this
      ensures Valid()
      ensures Value() == if bot then old(Value()) else Evaluated(old(Value()), now, classID)
      ensures status == if bot then Clear else rateLimitStates[classID - 1].status
      ensures closed == (old(closed) || status.Disconnect?)
    {
      if bot {
        return Clear;
      }
      var i := classID - 1;
      var c := rateLimitStates[i];
      var newLevel;
      var checked := CheckRateLimit(c.lastTime, now, c.params, c.level, c.limitedNow);
      status, newLevel := checked.0, checked.1;
      rateLimitStates := rateLimitStates[i := rateLimitStates[i].(level := newLevel)];
      rateLimitStates := rateLimitStates[i := rateLimitStates[i].(status := status)];
      rateLimitStates := rateLimitStates[i := rateLimitStates[i].(lastTime := now)];
      rateLimitStates := rateLimitStates[i := rateLimitStates[i].(limitedNow := status.Limited?)];
      if status.Disconnect? {
        closed := true;
      }
    }

    /** The loop body of `ObserveRateChanges`. */
    method ObserveOne(i: nat, now: int, classDelta: seq<RateState>, stateDelta: seq<RateState>)
      returns (classDelta': seq<RateState>, stateDelta': seq<RateState>)
      requires Valid() && i < 5 && (rateLimitStates[i].subscribed ==> rateLimitStates[i].params.windowSize > 0)
      modifies this`rateLimitStates, this`lastObservedStates
      ensures var s, seen := old(rateLimitStates)[i], old(lastObservedStates)[i];
        var w := Watched(s, now);
        && rateLimitStates == old(rateLimitStates)[i := w]
        && lastObservedStates == old(lastObservedStates)[i := if s.subscribed then w else seen]
        && classDelta' == classDelta + (if s.subscribed && s.params != seen.params then [w] else [])
        && stateDelta' == stateDelta + (if s.subscribed && w.status != seen.status then [w] else [])
    {
      classDelta', stateDelta' := classDelta, stateDelta;
      var params := rateLimitStates[i];
      if !params.subscribed {
        return;
      }
      var s := Look(params, now);
      rateLimitStates := rateLimitStates[i := s];
      if params.params != lastObservedStates[i].params {
        classDelta' := classDelta' + [s];
      }
      if lastObservedStates[i].status != s.status {
        stateDelta' := stateDelta' + [s];
      }
      lastObservedStates := lastObservedStates[i := s];
    }

    method ObserveRateChanges(now: int) returns (classDelta: seq<RateState>, stateDelta: seq<RateState>)
      requires Valid() && Observable(rateLimitStates)
      modifies this`rateLimitStates, this`lastObservedStates
      ensures Valid()
      ensures Value() == Observed(old(Value()), now)
      ensures classDelta == ClassDelta(old(rateLimitStates), old(lastObservedStates), now)
      ensures stateDelta == StateDelta(old(rateLimitStates), old(lastObservedStates), now)
    {
      classDelta, stateDelta := [], [];
      ghost var ss, seen := rateLimitStates, lastObservedStates;
      ghost var ws, rs := WatchedAll(ss, now), Remembered(ss, seen, now);
      ghost var cs, ds := ClassDelta(ss, seen, now), StateDelta(ss, seen, now);
      for i := 0 to 5
        invariant rateLimitStates == ws[..i] + ss[i..]
        invariant lastObservedStates == rs[..i] + seen[i..]
        invariant classDelta + ClassDelta(ss[i..], seen[i..], now) == cs
        invariant stateDelta + StateDelta(ss[i..], seen[i..], now) == ds
      {
        DeltaStep(ss, seen, i, now);
        SplitUpdate(ws, ss, i);
        SplitUpdate(rs, seen, i);
        Regroup(classDelta, ss[i].subscribed && ss[i].params != seen[i].params, ws[i], ClassDelta(ss[i + 1..], seen[i + 1..], now));
        Regroup(stateDelta, ss[i].subscribed && ws[i].status != seen[i].status, ws[i], StateDelta(ss[i + 1..], seen[i + 1..], now));
        classDelta, stateDelta := ObserveOne(i, now, classDelta, stateDelta);
      }
    }

    /** New classes start full and unlimited. Which subscriptions survive is `SubscribedIff`. */
    method SetRateClasses(now: int, classes: seq<RateClass>)
      requires Valid() && |classes| == 5
      modifies this`rateLimitStates, this`lastObservedStates
      ensures Valid()
      ensures Value() == Reset(old(Value()), now, classes)
    {
      var newStates: seq<RateState> := [];
      for i := 0 to 5
        invariant |newStates| == i
        invariant forall j | 0 <= j < i :: newStates[j] == Initial(classes[j], now, lastObservedStates[j].subscribed)
      {
        newStates := newStates + [Initial(classes[i], now, lastObservedStates[i].subscribed)];
      }
      if lastObservedStates[0].params.id == 0 {
        lastObservedStates := newStates;
      } else {
        lastObservedStates := rateLimitStates;
      }
      rateLimitStates := newStates;
    }

    method SubscribeRateLimits(classes: seq<int>)
      requires Valid() && forall c <- classes :: 1 <= c <= 5
      modifies this`rateLimitStates
      ensures Valid()
      ensures Value() == Subscribed(old(Value()), classes)
    {
      for k := 0 to |classes|
        invariant Valid()
        invariant forall i | 0 <= i < 5 ::
          rateLimitStates[i] == old(rateLimitStates)[i].(subscribed := old(rateLimitStates)[i].subscribed || i + 1 in classes[..k])
      {
        assert classes[k] in classes;
        var i := classes[k] - 1;
        rateLimitStates := rateLimitStates[i := rateLimitStates[i].(subscribed := true)];
        assert classes[..k + 1] == classes[..k] + [classes[k]];
      }
      assert classes[..|classes|] == classes;
    }
  }
}
