/** Whole runs of a session, class by class: what the runs of one class promise holds of the session. */
module SessionRuns {
  import opened RateLimit
  import opened RateRuns
  import opened SessionRates

  // ---------------------------------------------------------------- what each action does to a class

  /** The exact clamped average after a gap in whole milliseconds. */
  function Average(s: RateState, now: int): int
    requires s.params.windowSize > 0
  {
    var avg := (s.level * (s.params.windowSize - 1) + (now - s.lastTime) / 1_000_000) / s.params.windowSize;
    if avg > s.params.maxLevel then s.params.maxLevel else avg
  }

  predicate WithinLimit(s: RateState, now: int) {
    s.lastTime <= now && (now - s.lastTime) / 1_000_000 + s.params.maxLevel * (s.params.windowSize - 1) <= 0x7fff_ffff
  }

  /** The status of a level: a limited client stays limited up to the clear level, any other below the limit level. */
  predicate HasStatus(c: RateClass, level: int, limited: bool, status: Status) {
    && (status.Disconnect? <==> level < c.disconnectLevel)
    && (status.Limited? <==> level >= c.disconnectLevel && if limited then level < c.clearLevel else level < c.limitLevel)
    && (status.Alert? <==> level >= c.disconnectLevel && level >= c.limitLevel && level < c.alertLevel && !limited)
    && (status.Clear? <==> level >= c.disconnectLevel && if limited then level >= c.clearLevel else level >= c.limitLevel && level >= c.alertLevel)
  }

  lemma StatusOf(c: RateClass, level: int, limited: bool)
    ensures HasStatus(c, level, limited, StatusAt(c, level, limited))
  {
  }

  lemma CheckedIs(s: RateState, now: int)
    requires Sound(s) && WithinLimit(s, now)
    ensures var (status, level) := CheckRateLimit(s.lastTime, now, s.params, s.level, s.limitedNow);
      level == Average(s, now) && HasStatus(s.params, level, s.limitedNow, status)
  {
    StepExact(s, now);
    StatusOf(s.params, Average(s, now), s.limitedNow);
  }

  /** A send is measured: the level becomes the average, the flag says whether it is limited, and the clock starts again. */
  lemma SendOutcome(r: Rates, now: int, classID: int)
    requires Armed(r) && 1 <= classID <= 5 && Sound(r.states[classID - 1]) && WithinLimit(r.states[classID - 1], now)
    ensures var r' := Do(r, Evaluate(now, classID));
      var s, s' := r.states[classID - 1], r'.states[classID - 1];
      && r'.seen == r.seen && (forall i | 0 <= i < 5 && i != classID - 1 :: r'.states[i] == r.states[i])
      && s'.params == s.params && s'.subscribed == s.subscribed && s'.lastTime == now
      && s'.level == Average(s, now) && HasStatus(s.params, s'.level, s.limitedNow, s'.status)
      && (s'.limitedNow <==> s'.status.Limited?)
  {
    CheckedIs(r.states[classID - 1], now);
  }

  /**
   An observation of a class: if it is not subscribed nothing changes. Otherwise
   its status is that of the average, and a limited class that has reached the
   clear level is limited no more and keeps the average as its level; the clock is
   never touched. It is reported exactly if its status is not the one last seen.
   */
  lemma ObservationOutcome(r: Rates, now: int, i: nat)
    requires Armed(r) && i < 5 && Sound(r.states[i]) && WithinLimit(r.states[i], now)
    ensures var r' := Do(r, ObserveAll(now));
      var s, s' := r.states[i], r'.states[i];
      if !s.subscribed then s' == s && r'.seen[i] == r.seen[i]
      else
        var avg := Average(s, now);
        var clears := s.limitedNow && avg >= s.params.clearLevel && avg >= s.params.disconnectLevel;
        && HasStatus(s.params, avg, s.limitedNow, s'.status)
        && s' == s.(status := s'.status, limitedNow := s.limitedNow && !clears, level := if clears then avg else s.level)
        && (clears ==> s'.status.Clear?)
        && r'.seen[i] == s'
  {
    var s := r.states[i];
    CheckedIs(s, now);
  }

  /** The reports: exactly the subscribed classes whose status, or whose parameters, differ from those last seen. */
  lemma {:induction false} ReportsAre(ss: seq<RateState>, seen: seq<RateState>, now: int, x: RateState)
    requires Observable(ss) && |seen| == |ss|
    ensures x in StateDelta(ss, seen, now) <==>
      exists i | 0 <= i < |ss| :: ss[i].subscribed && WatchedAll(ss, now)[i] == x && x.status != seen[i].status
    ensures x in ClassDelta(ss, seen, now) <==>
      exists i | 0 <= i < |ss| :: ss[i].subscribed && WatchedAll(ss, now)[i] == x && ss[i].params != seen[i].params
    decreases |ss|
  {
    if ss != [] {
      ReportsAre(ss[1..], seen[1..], now, x);
      var rest := WatchedAll(ss[1..], now);
      assert forall i | 1 <= i < |ss| :: ss[1..][i - 1] == ss[i] && seen[1..][i - 1] == seen[i] && rest[i - 1] == WatchedAll(ss, now)[i];
      assert forall i | 0 <= i < |ss| - 1 :: ss[1..][i] == ss[i + 1] && seen[1..][i] == seen[i + 1] && rest[i] == WatchedAll(ss, now)[i + 1];
    }
  }

  /** A limited client that has waited long enough is told: clear, at the average, and in the report. */
  lemma LimitedIsCleared(r: Rates, now: int, i: nat)
    requires Armed(r) && i < 5 && Sound(r.states[i]) && WithinLimit(r.states[i], now)
    requires r.states[i].subscribed && r.states[i].limitedNow && !r.seen[i].status.Clear?
    requires Average(r.states[i], now) >= r.states[i].params.clearLevel
    ensures var s' := Do(r, ObserveAll(now)).states[i];
      && s'.status.Clear? && !s'.limitedNow && s'.level == Average(r.states[i], now)
      && Observable(r.states) && s' in StateDelta(r.states, r.seen, now)
  {
    ObservationOutcome(r, now, i);
    assert Observable(r.states) by {
      assert forall s <- r.states :: s.params.windowSize > 0;
    }
    ReportsAre(r.states, r.seen, now, Do(r, ObserveAll(now)).states[i]);
  }

  /** New classes: full, clear and unlimited, their clocks started; and what the next observation compares with. */
  lemma ResetOutcome(r: Rates, now: int, classes: seq<RateClass>, i: nat)
    requires Shaped(r) && |classes| == 5 && i < 5
    ensures var r' := Reset(r, now, classes);
      && r'.states[i] == RateState(classes[i], classes[i].maxLevel, now, Clear, r.seen[i].subscribed, false)
      && r'.seen == if r.seen[0].params.id == 0 then r'.states else r.states
  {
  }

  /** A subscription changes nothing but the flag of the classes it names. */
  lemma SubscribeOutcome(r: Rates, ids: seq<int>, i: nat)
    requires Shaped(r) && i < 5
    ensures var r' := Subscribed(r, ids);
      r'.seen == r.seen && r'.states[i] == r.states[i].(subscribed := r.states[i].subscribed || i + 1 in ids)
  {
  }

  // ---------------------------------------------------------------- the events of one class

  /** The class's own events in a run: its sends, and the observations made while it is subscribed. */
  function EventsOf(acts: seq<Action>, i: int, subscribed: bool): seq<Event>
    decreases |acts|
  {
    if acts == [] then [] else
    var front, a := acts[..|acts| - 1], acts[|acts| - 1];
    EventsOf(front, i, subscribed)
    + if a.Evaluate? && a.classID == i + 1 then [Send(a.now)]
      else if a.ObserveAll? && (subscribed || NamedIn(front, i)) then [Observe(a.now)]
      else []
  }

  predicate NamedIn(acts: seq<Action>, i: int)
    decreases |acts|
  {
    acts != [] && (NamedIn(acts[..|acts| - 1], i) || Names(acts[|acts| - 1], i))
  }

  predicate Ordinary(acts: seq<Action>) {
    forall a <- acts :: Proper(a) && !a.SetClasses?
  }

  /** The states of the class right after its sends. */
  function SendStates(r: Rates, acts: seq<Action>, i: nat): seq<RateState>
    requires Armed(r) && Ordinary(acts) && i < 5
    decreases |acts|
  {
    if acts == [] then [] else
    var a := acts[|acts| - 1];
    SendStates(r, acts[..|acts| - 1], i) + if a.Evaluate? && a.classID == i + 1 then [Unflagged(Run(r, acts).states[i])] else []
  }

  /** Whether a class is subscribed plays no part in its own events. */
  function Unflagged(s: RateState): RateState { s.(subscribed := false) }

  function EndState(s: RateState, evs: seq<Event>): (e: RateState)
    requires s.params.windowSize > 0
    ensures e.params == s.params
    decreases |evs|
  {
    if evs == [] then s
    else EndState(if evs[0].Send? then AfterSend(s, evs[0].t) else AfterObserve(s, evs[0].t), evs[1..])
  }

  lemma {:induction false} TraceSnoc(s: RateState, evs: seq<Event>, e: Event)
    requires s.params.windowSize > 0
    ensures var end := EndState(s, evs);
      && EndState(s, evs + [e]) == (if e.Send? then AfterSend(end, e.t) else AfterObserve(end, e.t))
      && Trace(s, evs + [e]) == Trace(s, evs) + (if e.Send? then [AfterSend(end, e.t)] else [])
    decreases |evs|
  {
    if evs == [] {
      assert evs + [e] == [e] && [e][1..] == [];
    } else {
      var s' := if evs[0].Send? then AfterSend(s, evs[0].t) else AfterObserve(s, evs[0].t);
      TraceSnoc(s', evs[1..], e);
      assert (evs + [e])[1..] == evs[1..] + [e];
    }
  }

  lemma UnflaggedSteps(s: RateState, now: int)
    requires s.params.windowSize > 0
    ensures AfterSend(Unflagged(s), now) == Unflagged(AfterSend(s, now))
    ensures AfterObserve(Unflagged(s), now) == Unflagged(AfterObserve(s, now))
  {
  }

  lemma {:induction false} SubscribedNow(r: Rates, acts: seq<Action>, i: nat)
    requires Armed(r) && Ordinary(acts) && i < 5
    ensures Run(r, acts).states[i].subscribed <==> r.states[i].subscribed || NamedIn(acts, i)
    decreases |acts|
  {
    if acts != [] {
      var front, a := acts[..|acts| - 1], acts[|acts| - 1];
      SubscribedNow(r, front, i);
      assert a in acts;
      FlagsAfter(Run(r, front), a, i);
    }
  }

  /** What one action does to a class is what its own event does, or nothing. */
  lemma StepOfClass(r: Rates, a: Action, i: nat)
    requires Armed(r) && Proper(a) && !a.SetClasses? && i < 5
    ensures var s, s' := r.states[i], Unflagged(Do(r, a).states[i]);
      s' == if a.Evaluate? && a.classID == i + 1 then AfterSend(Unflagged(s), a.now)
            else if a.ObserveAll? && s.subscribed then AfterObserve(Unflagged(s), a.now)
            else Unflagged(s)
  {
    if a.Evaluate? || a.ObserveAll? {
      UnflaggedSteps(r.states[i], a.now);
    }
  }

  /** Over every run the class goes through exactly the states of its own events. */
  lemma {:induction false} ClassFollowsItsEvents(r: Rates, acts: seq<Action>, i: nat)
    requires Armed(r) && Ordinary(acts) && i < 5
    ensures var s, evs := Unflagged(r.states[i]), EventsOf(acts, i, r.states[i].subscribed);
      && s.params.windowSize > 0
      && SendStates(r, acts, i) == Trace(s, evs)
      && Unflagged(Run(r, acts).states[i]) == EndState(s, evs)
    decreases |acts|
  {
    assert r.states[i] in r.states;
    if acts != [] {
      var front, a := acts[..|acts| - 1], acts[|acts| - 1];
      ClassFollowsItsEvents(r, front, i);
      assert a in acts;
      SubscribedNow(r, front, i);
      StepOfClass(Run(r, front), a, i);
      var s, evs := Unflagged(r.states[i]), EventsOf(front, i, r.states[i].subscribed);
      if a.Evaluate? && a.classID == i + 1 {
        TraceSnoc(s, evs, Send(a.now));
      } else if a.ObserveAll? && Run(r, front).states[i].subscribed {
        TraceSnoc(s, evs, Observe(a.now));
      } else {
        assert evs + [] == evs;
      }
    }
  }

  // ---------------------------------------------------------------- with and without observers

  /** The same run, unobserved. */
  function Unobserved(acts: seq<Action>): (r: seq<Action>)
    ensures Ordinary(acts) ==> Ordinary(r)
    decreases |acts|
  {
    if acts == [] then [] else
    var a := acts[|acts| - 1];
    assert Ordinary(acts) ==> Ordinary(acts[..|acts| - 1]) && a in acts;
    Unobserved(acts[..|acts| - 1]) + if a.ObserveAll? then [] else [a]
  }

  lemma {:induction false} SendsSnoc(evs: seq<Event>, e: Event)
    ensures Sends(evs + [e]) == Sends(evs) + (if e.Send? then [e] else [])
    decreases |evs|
  {
    if evs == [] {
      assert evs + [e] == [e] && [e][1..] == [];
    } else {
      SendsSnoc(evs[1..], e);
      assert (evs + [e])[1..] == evs[1..] + [e];
    }
  }

  lemma EventsSnoc(acts: seq<Action>, a: Action, i: int, subscribed: bool)
    requires !a.ObserveAll?
    ensures EventsOf(acts + [a], i, subscribed)
         == EventsOf(acts, i, subscribed) + if a.Evaluate? && a.classID == i + 1 then [Send(a.now)] else []
  {
    assert (acts + [a])[..|acts|] == acts;
  }

  lemma {:induction false} UnobservedEvents(acts: seq<Action>, i: int, subscribed: bool)
    ensures EventsOf(Unobserved(acts), i, subscribed) == Sends(EventsOf(acts, i, subscribed))
    decreases |acts|
  {
    if acts != [] {
      var front, a := acts[..|acts| - 1], acts[|acts| - 1];
      UnobservedEvents(front, i, subscribed);
      var evs := EventsOf(front, i, subscribed);
      if a.ObserveAll? {
        SendsSnoc(evs, Observe(a.now));
        assert Unobserved(front) + [] == Unobserved(front) && Sends(evs) + [] == Sends(evs) && evs + [] == evs;
      } else {
        EventsSnoc(Unobserved(front), a, i, subscribed);
        if a.Evaluate? && a.classID == i + 1 {
          SendsSnoc(evs, Send(a.now));
        } else {
          assert Sends(evs) + [] == Sends(evs) && evs + [] == evs;
        }
      }
    }
  }

  /**
   Watching a session never hurts its client: run it with and without the
   observations, and in every class each send, up to a disconnect of the
   unobserved run, finds at least the same level, is limited only if it was
   limited there, and is refused only if it was refused there.
   */
  lemma SessionObserversNeverHurt(r: Rates, acts: seq<Action>, i: nat, k: nat)
    requires Armed(r) && Ordinary(acts) && i < 5 && Sound(r.states[i])
    requires Timely(r.states[i].lastTime, GapLimit(r.states[i].params), EventsOf(acts, i, r.states[i].subscribed))
    requires k < |SendStates(r, acts, i)|
    ensures var with, without := SendStates(r, acts, i), SendStates(r, Unobserved(acts), i);
      && |with| == |without|
      && ((forall j | 0 <= j <= k :: !without[j].status.Disconnect?) ==>
            && with[k].level >= without[k].level && (with[k].limitedNow ==> without[k].limitedNow)
            && (Refused(with[k]) ==> Refused(without[k])))
  {
    var s, evs := Unflagged(r.states[i]), EventsOf(acts, i, r.states[i].subscribed);
    ClassFollowsItsEvents(r, acts, i);
    ClassFollowsItsEvents(r, Unobserved(acts), i);
    UnobservedEvents(acts, i, r.states[i].subscribed);
    ObserversNeverHurt(s, evs, k);
  }
}
