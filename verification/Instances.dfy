/** The instances of one session (state/session.go): numbered, kept in a map and in the order they joined. */
module Instances {
  import opened Wrappers
  import opened Counting

  /** A connection; `id` is the object's identity, `num` the number it was given. */
  datatype Inst = Inst(id: nat, num: nat)

  /** The two collections a session keeps. */
  datatype Table = Table(byNum: map<nat, Inst>, ordered: seq<Inst>)

  /** Both hold the same instances, each under its own number between 1 and 255. */
  ghost predicate Consistent(t: Table) {
    && (forall i, j | 0 <= i < j < |t.ordered| :: t.ordered[i].num != t.ordered[j].num)
    && (forall x <- t.ordered :: 1 <= x.num <= 255 && x.num in t.byNum && t.byNum[x.num] == x)
    && (forall n <- t.byNum :: t.byNum[n].num == n && t.byNum[n] in t.ordered)
  }

  // ---------------------------------------------------------------- numbers

  /** The smallest number between 1 and 255 that is not taken, if there is one. */
  ghost function FreeNum(byNum: map<nat, Inst>): (n: Option<nat>)
    ensures n.Some? ==> 1 <= n.value <= 255 && n.value !in byNum && forall m | 1 <= m < n.value :: m in byNum
    ensures n.None? <==> forall m | 1 <= m <= 255 :: m in byNum
  {
    if m :| 1 <= m <= 255 && m !in byNum then
      LeastFree(byNum, m);
      var n :| 1 <= n <= m && n !in byNum && forall k | 1 <= k < n :: k in byNum;
      Some(n)
    else None
  }

  lemma {:induction false} LeastFree(byNum: map<nat, Inst>, m: nat)
    requires 1 <= m && m !in byNum
    ensures exists n :: 1 <= n <= m && n !in byNum && forall k | 1 <= k < n :: k in byNum
    decreases m
  {
    if k :| 1 <= k < m && k !in byNum {
      LeastFree(byNum, k);
    }
  }

  /** The search fails exactly when the session has 255 instances. */
  lemma NumberAvailableIff(t: Table)
    requires Consistent(t)
    ensures FreeNum(t.byNum).Some? <==> |t.ordered| < 255
  {
    SameSize(t);
    forall n | n in t.byNum ensures 1 <= n <= 255 {
      assert t.byNum[n] in t.ordered;
    }
    NumbersTaken(t.byNum.Keys, 255);
  }

  /** A set of numbers from 1 to k has k elements only if it has them all. */
  lemma NumbersTaken(keys: set<nat>, k: nat)
    requires forall n <- keys :: 1 <= n <= k
    ensures |keys| <= k && (|keys| == k <==> forall n | 1 <= n <= k :: n in keys)
  {
    SubsetSize(keys, UpTo(k));
    if forall n | 1 <= n <= k :: n in keys {
      SubsetSize(UpTo(k), keys);
    }
  }

  lemma SameSize(t: Table)
    requires Consistent(t)
    ensures |t.byNum| == |t.ordered|
  {
    var nums := seq(|t.ordered|, i requires 0 <= i < |t.ordered| => t.ordered[i].num);
    forall n | n in t.byNum ensures n in nums {
      var i :| 0 <= i < |t.ordered| && t.ordered[i] == t.byNum[n];
      assert nums[i] == n;
    }
    DistinctSize(nums, t.byNum.Keys);
  }

  // ---------------------------------------------------------------- the operations on the table

  function Added(t: Table, x: Inst): Table {
    Table(t.byNum[x.num := x], t.ordered + [x])
  }

  function Without(xs: seq<Inst>, x: Inst): seq<Inst> {
    if xs == [] then [] else if xs[0] == x then xs[1..] else [xs[0]] + Without(xs[1..], x)
  }

  lemma {:induction false} WithoutAt(xs: seq<Inst>, x: Inst, i: nat)
    requires i < |xs| && xs[i] == x && x !in xs[..i]
    ensures Without(xs, x) == xs[..i] + xs[i + 1..]
    decreases i
  {
    if i > 0 {
      assert xs[..i][0] == xs[0];
      assert xs[1..][..i - 1] == xs[1..i];
      WithoutAt(xs[1..], x, i - 1);
      assert xs[1..][i..] == xs[i + 1..];
      assert xs[..i] == [xs[0]] + xs[1..i];
    }
  }

  lemma {:induction false} WithoutAbsent(xs: seq<Inst>, x: Inst)
    requires x !in xs
    ensures Without(xs, x) == xs
    decreases |xs|
  {
    if xs != [] {
      WithoutAbsent(xs[1..], x);
    }
  }

  /** `RemoveInstance`: whatever has the number leaves the map, the instance itself leaves the order. */
  function Detached(t: Table, x: Inst): Table {
    Table(t.byNum - {x.num}, Without(t.ordered, x))
  }

  lemma {:induction false} WithoutFacts(xs: seq<Inst>, x: Inst)
    requires forall i, j | 0 <= i < j < |xs| :: xs[i].num != xs[j].num
    ensures var ys := Without(xs, x);
            (forall y :: y in ys <==> y in xs && y != x)
            && (forall i, j | 0 <= i < j < |ys| :: ys[i].num != ys[j].num)
            && |ys| == |xs| - (if x in xs then 1 else 0)
    decreases |xs|
  {
    if xs != [] {
      WithoutFacts(xs[1..], x);
      assert xs == [xs[0]] + xs[1..];
      assert forall y | y in xs[1..] :: y.num != xs[0].num;
    }
  }

  lemma AddKeepsConsistent(t: Table, x: Inst)
    requires Consistent(t) && FreeNum(t.byNum) == Some(x.num)
    ensures Consistent(Added(t, x))
  {
    var t' := Added(t, x);
    assert forall y <- t'.ordered :: y == x || y in t.ordered;
    assert t'.ordered[|t.ordered|] == x;
    forall n | n in t'.byNum ensures t'.byNum[n].num == n && t'.byNum[n] in t'.ordered {
      if n != x.num {
        assert t.byNum[n] in t.ordered;
      }
    }
  }

  /**
   Removing an instance keeps the map and the order together exactly when the
   instance is still listed, or its number has not been given to another one.
   */
  lemma DetachKeepsConsistentIff(t: Table, x: Inst)
    requires Consistent(t)
    ensures Consistent(Detached(t, x)) <==> x in t.ordered || x.num !in t.byNum
  {
    if x !in t.ordered && x.num in t.byNum {
      WithoutAbsent(t.ordered, x);
      assert t.byNum[x.num] in Detached(t, x).ordered;
    } else {
      DetachKeepsConsistent(t, x);
    }
  }

  lemma DetachKeepsConsistent(t: Table, x: Inst)
    requires Consistent(t) && (x in t.ordered || x.num !in t.byNum)
    ensures Consistent(Detached(t, x))
  {
    WithoutFacts(t.ordered, x);
    var t' := Detached(t, x);
    forall n | n in t'.byNum ensures t'.byNum[n].num == n && t'.byNum[n] in t'.ordered {
      assert t.byNum[n] in t.ordered;
    }
  }

  // ---------------------------------------------------------------- closes and adds interleaved

  /** `detaching` are the instances between setting their closed flag and being removed. */
  datatype State = State(table: Table, closed: set<Inst>, detaching: set<Inst>, nextId: nat)

  datatype Step =
    | Add                // AddInstance
    | Mark(x: Inst)      // CloseInstance or closeOnly: the guard, and the flag
    | Detach(x: Inst)    // the RemoveInstance after it

  ghost predicate Enabled(s: State, step: Step) {
    match step
    case Add => FreeNum(s.table.byNum).Some?
    case Mark(x) => x.id < s.nextId
    case Detach(x) => x in s.detaching
  }

  /** A second close of the same instance returns at the flag. */
  ghost function Apply(s: State, step: Step): State
    requires Enabled(s, step)
  {
    match step
    case Add => s.(table := Added(s.table, Inst(s.nextId, FreeNum(s.table.byNum).value)), nextId := s.nextId + 1)
    case Mark(x) => if x in s.closed then s else s.(closed := s.closed + {x}, detaching := s.detaching + {x})
    case Detach(x) => s.(table := Detached(s.table, x), detaching := s.detaching - {x})
  }

  ghost function Run(steps: seq<Step>): Option<State>
    decreases |steps|
  {
    if steps == [] then Some(State(Table(map[], []), {}, {}, 0)) else
    var prev := Run(steps[..|steps| - 1]);
    var step := steps[|steps| - 1];
    // only an instance that was handed out can be closed
    if prev.Some? && Enabled(prev.value, step) && (step.Mark? ==> step.x in prev.value.table.ordered || step.x in prev.value.closed)
    then Some(Apply(prev.value, step)) else None
  }

  ghost predicate Inv(s: State) {
    && Consistent(s.table)
    && (forall x <- s.table.ordered :: x.id < s.nextId && (x in s.closed <==> x in s.detaching))
    && (forall x <- s.closed :: x.id < s.nextId)
    && (forall x <- s.detaching :: x in s.table.ordered)
  }

  /** Every instance handed out is listed or closed. */
  ghost predicate NoneLost(s: State) {
    forall id | 0 <= id < s.nextId :: Listed(s, id) || Closed(s, id)
  }

  ghost predicate Listed(s: State, id: nat) { exists x <- s.table.ordered :: x.id == id }

  ghost predicate Closed(s: State, id: nat) { exists x <- s.closed :: x.id == id }

  lemma StepKeepsInv(s: State, step: Step)
    requires Inv(s) && Enabled(s, step) && (step.Mark? ==> step.x in s.table.ordered || step.x in s.closed)
    ensures Inv(Apply(s, step))
  {
    match step
    case Add =>
      var x := Inst(s.nextId, FreeNum(s.table.byNum).value);
      AddKeepsConsistent(s.table, x);
      assert forall y <- Added(s.table, x).ordered :: y == x || y in s.table.ordered;
    case Mark(x) =>
    case Detach(x) =>
      DetachKeepsConsistentIff(s.table, x);
      WithoutFacts(s.table.ordered, x);
  }

  lemma StepLosesNone(s: State, step: Step)
    requires Inv(s) && NoneLost(s) && Enabled(s, step)
    ensures NoneLost(Apply(s, step))
  {
    var s' := Apply(s, step);
    if step.Detach? { WithoutFacts(s.table.ordered, step.x); }
    forall id | 0 <= id < s'.nextId ensures Listed(s', id) || Closed(s', id) {
      if step.Add? && id == s.nextId {
        var x := Inst(s.nextId, FreeNum(s.table.byNum).value);
        assert x in s'.table.ordered;
      } else if Listed(s, id) {
        var x :| x in s.table.ordered && x.id == id;
        if step == Detach(x) {
          assert x in s'.closed;
        } else {
          assert x in s'.table.ordered;
        }
      } else {
        var x :| x in s.closed && x.id == id;
        assert x in s'.closed;
      }
    }
  }

  /**
   However closes interleave with adds, the map and the order hold the same
   instances under distinct numbers, and every instance that was handed out and
   not closed is still in both.
   */
  lemma {:induction false} AlwaysConsistent(steps: seq<Step>)
    requires Run(steps).Some?
    ensures Inv(Run(steps).value) && |Run(steps).value.table.byNum| == |Run(steps).value.table.ordered|
    ensures NoneLost(Run(steps).value)
    decreases |steps|
  {
    if steps != [] {
      AlwaysConsistent(steps[..|steps| - 1]);
      StepKeepsInv(Run(steps[..|steps| - 1]).value, steps[|steps| - 1]);
      StepLosesNone(Run(steps[..|steps| - 1]).value, steps[|steps| - 1]);
    }
    SameSize(Run(steps).value.table);
  }

  // ---------------------------------------------------------------- the end of a session

  /** `counting` are the instances between their removal and the count that follows it; `callbacks` are the calls of the session's since it last became empty. */
  datatype Closing = Closing(s: State, counting: set<Inst>, callbacks: nat)

  datatype Move = Plain(step: Step) | Count(x: Inst)

  ghost predicate Possible(c: Closing, m: Move) {
    match m
    case Plain(step) => Enabled(c.s, step) && (step.Mark? ==> step.x in c.s.table.ordered || step.x in c.s.closed)
    case Count(x) => x in c.counting
  }

  ghost function Moved(c: Closing, m: Move): Closing
    requires Possible(c, m)
  {
    match m
    case Plain(step) =>
      var s := Apply(c.s, step);
      if step.Detach? then Closing(s, c.counting + {step.x}, if s.table.ordered == [] then 0 else c.callbacks) else c.(s := s)
    case Count(x) => c.(counting := c.counting - {x}, callbacks := c.callbacks + if |c.s.table.byNum| == 0 then 1 else 0)
  }

  ghost function Closings(moves: seq<Move>): Option<Closing>
    decreases |moves|
  {
    if moves == [] then Some(Closing(State(Table(map[], []), {}, {}, 0), {}, 0)) else
    var prev := Closings(moves[..|moves| - 1]);
    var m := moves[|moves| - 1];
    if prev.Some? && Possible(prev.value, m) then Some(Moved(prev.value, m)) else None
  }

  /** While a session is empty again, its callback has run since then, or somebody is about to count. */
  ghost predicate EndSeen(c: Closing) {
    c.s.table.ordered == [] && c.s.nextId > 0 ==> c.callbacks > 0 || c.counting != {}
  }

  lemma MoveKeepsEnd(c: Closing, m: Move)
    requires Inv(c.s) && EndSeen(c) && Possible(c, m)
    ensures Inv(Moved(c, m).s) && EndSeen(Moved(c, m))
  {
    if m.Plain? {
      StepKeepsInv(c.s, m.step);
    } else {
      SameSize(c.s.table);
    }
  }

  /**
   When every instance a session ever had is closed and gone, and no close is
   under way, the session's callback has run since the last of them went: at
   least once, however the closes and joins interleaved.
   */
  lemma {:induction false} SessionCloseIsCalled(moves: seq<Move>)
    requires Closings(moves).Some?
    ensures var c := Closings(moves).value;
      Inv(c.s) && EndSeen(c) && (c.s.nextId > 0 && c.s.table.ordered == [] && c.counting == {} ==> c.callbacks >= 1)
    decreases |moves|
  {
    if moves != [] {
      SessionCloseIsCalled(moves[..|moves| - 1]);
      MoveKeepsEnd(Closings(moves[..|moves| - 1]).value, moves[|moves| - 1]);
    }
  }

  /**
   But not only once: two closes that are both past their removal when they
   count both run it, from every state with exactly these two instances.
   */
  lemma SessionCloseIsCalledTwice(c: Closing, x: Inst, y: Inst)
    requires Inv(c.s) && c.counting == {} && c.s.table.ordered == [x, y] && x !in c.s.closed && y !in c.s.closed
    ensures
      var c1 := Moved(Moved(c, Plain(Mark(x))), Plain(Mark(y)));
      var c2 := Moved(Moved(c1, Plain(Detach(x))), Plain(Detach(y)));
      var c3 := Moved(Moved(c2, Count(x)), Count(y));
      c3.s.table.ordered == [] && c3.counting == {} && c3.callbacks == 2
  {
    var c1 := Moved(Moved(c, Plain(Mark(x))), Plain(Mark(y)));
    BothMarked(c, x, y);
    BothGone(c.s.table, x, y);
    var c2 := Moved(Moved(c1, Plain(Detach(x))), Plain(Detach(y)));
    assert c2.s.table == Detached(Detached(c.s.table, x), y);
    assert c2.counting == {x, y} && c2.callbacks == 0;
    BothCount(c2, x, y);
  }

  lemma BothCount(c: Closing, x: Inst, y: Inst)
    requires c.counting == {x, y} && x != y && |c.s.table.byNum| == 0
    ensures Possible(c, Count(x)) && Possible(Moved(c, Count(x)), Count(y))
    ensures var c' := Moved(Moved(c, Count(x)), Count(y));
      c'.s == c.s && c'.counting == {} && c'.callbacks == c.callbacks + 2
  {
  }

  lemma BothMarked(c: Closing, x: Inst, y: Inst)
    requires Inv(c.s) && c.s.table.ordered == [x, y] && x !in c.s.closed && y !in c.s.closed
    ensures x != y && Possible(c, Plain(Mark(x))) && Possible(Moved(c, Plain(Mark(x))), Plain(Mark(y)))
    ensures var c1 := Moved(Moved(c, Plain(Mark(x))), Plain(Mark(y)));
      c1 == c.(s := c.s.(closed := c.s.closed + {x} + {y}, detaching := c.s.detaching + {x} + {y}))
  {
    assert [x, y][0] == x && [x, y][1] == y;
    assert x.num != y.num;
    assert x in c.s.table.ordered && y in c.s.table.ordered;
  }

  lemma BothGone(t: Table, x: Inst, y: Inst)
    requires Consistent(t) && t.ordered == [x, y]
    ensures var t' := Detached(Detached(t, x), y); t'.ordered == [] && |t'.byNum| == 0
  {
    var mid := Detached(t, x);
    assert x in t.ordered;
    DetachKeepsConsistentIff(t, x);
    assert mid.ordered == [y] by { assert [x, y][1..] == [y]; }
    assert y in mid.ordered;
    DetachKeepsConsistentIff(mid, y);
    assert [y][1..] == [];
    SameSize(Detached(mid, y));
  }

  /** Without the closed flag the second removal of an instance would unlist the successor with its number. */
  lemma UnguardedRemovalExample()
    ensures var first, second := Inst(0, 1), Inst(1, 1);
            var t := Added(Detached(Added(Table(map[], []), first), first), second);
            Consistent(t) && !Consistent(Detached(t, first))
  {
    var first, second := Inst(0, 1), Inst(1, 1);
    var t := Added(Detached(Added(Table(map[], []), first), first), second);
    assert t.ordered == [second] && t.byNum == map[1 := second];
    assert second in t.ordered;
    DetachKeepsConsistentIff(t, first);
  }

  /** A close that nothing interrupts. */
  lemma CloseKeepsInv(t: Table, closed: set<Inst>, nextId: nat, x: Inst)
    requires Inv(State(t, closed, {}, nextId)) && x in t.ordered
    ensures Inv(State(Detached(t, x), closed + {x}, {}, nextId)) && x !in Detached(t, x).ordered
  {
    var s := State(t, closed, {}, nextId);
    StepKeepsInv(s, Mark(x));
    StepKeepsInv(Apply(s, Mark(x)), Detach(x));
    WithoutFacts(t.ordered, x);
    assert {x} - {x} == {} && {} + {x} == {x};
  }

  // ---------------------------------------------------------------- the session object

  /** The callback a close ends with. */
  datatype Callback = NoCallback | OnSessionClose | OnInstanceClose

  class Session {
    var instances: map<nat, Inst>
    var instancesOrdered: seq<Inst>
    var closed: set<Inst>
    var nextId: nat

    function View(): Table
      reads this
    {
      Table(instances, instancesOrdered)
    }

    /** Open instances are listed; nothing closed is. */
    ghost predicate Valid()
      reads this
    {
      Inv(State(View(), closed, {}, nextId))
    }

    constructor ()
      ensures Valid() && View() == Table(map[], []) && closed == {}
    {
      instances, instancesOrdered, closed, nextId := map[], [], {}, 0;
    }

    /** `None` is the panic when all 255 numbers are taken. */
    method GenerateInstanceNum() returns (num: Option<nat>)
      ensures num == FreeNum(instances)
    {
      var n := 1;
      while n != 0
        invariant 0 <= n <= 255
        invariant forall m | 1 <= m < (if n == 0 then 256 else n) :: m in instances
        decreases if n == 0 then 0 else 256 - n
      {
        if n !in instances {
          return Some(n);
        }
        n := (n + 1) % 256;
      }
      num := None;
    }

    method AddInstance() returns (x: Option<Inst>)
      requires Valid()
      modifies this
      ensures Valid() && closed == old(closed)
      ensures x.Some? <==> |old(instancesOrdered)| < 255
      ensures x.Some? ==>
        && Some(x.value.num) == FreeNum(old(instances))
        && x.value !in old(instancesOrdered) && x.value !in closed
        && View() == Added(old(View()), x.value)
      ensures x.None? ==> View() == old(View())
    {
      NumberAvailableIff(View());
      var num := GenerateInstanceNum();
      if num.None? {
        return None;
      }
      var inst := Inst(nextId, num.value);
      AddKeepsConsistent(View(), inst);
      instances := instances[inst.num := inst];
      instancesOrdered := instancesOrdered + [inst];
      nextId := nextId + 1;
      x := Some(inst);
    }

    method RemoveInstance(x: Inst)
      modifies this`instances, this`instancesOrdered
      ensures View() == Detached(old(View()), x)
    {
      instances := instances - {x.num};
      for i := 0 to |instancesOrdered|
        invariant instancesOrdered == old(instancesOrdered)
        invariant x !in instancesOrdered[..i]
      {
        if instancesOrdered[i] == x {
          WithoutAt(instancesOrdered, x, i);
          instancesOrdered := instancesOrdered[..i] + instancesOrdered[i + 1..];
          return;
        }
      }
      WithoutAbsent(instancesOrdered, x);
    }

    /** Closing twice does nothing; the last instance to close runs the session's callback, others their own. */
    method CloseInstance(x: Inst) returns (callback: Callback)
      requires Valid() && (x in instancesOrdered || x in closed)
      modifies this
      ensures Valid()
      ensures x in old(closed) ==> callback == NoCallback && View() == old(View()) && closed == old(closed)
      ensures x !in old(closed) ==>
        && closed == old(closed) + {x} && x !in instancesOrdered
        && View() == Detached(old(View()), x)
        && callback == if instancesOrdered == [] then OnSessionClose else OnInstanceClose
    {
      if x in closed {
        return NoCallback;
      }
      CloseKeepsInv(View(), closed, nextId, x);
      closed := closed + {x};
      RemoveInstance(x);
      SameSize(View());
      callback := if |instances| == 0 then OnSessionClose else OnInstanceClose;
    }
  }
}
