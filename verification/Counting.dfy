/** Sizes of finite sets of numbers: what the pigeonhole arguments need. */
module Counting {

  /** The numbers from 1 to k. */
  function UpTo(k: nat): (s: set<nat>)
    ensures |s| == k && forall n :: n in s <==> 1 <= n <= k
  {
    if k == 0 then {} else UpTo(k - 1) + {k}
  }

  lemma {:induction false} SubsetSize<T>(a: set<T>, b: set<T>)
    requires a <= b
    ensures |a| <= |b| && (|a| == |b| ==> a == b)
    decreases |a|
  {
    if x :| x in a {
      SubsetSize(a - {x}, b - {x});
      assert a == (a - {x}) + {x} && b == (b - {x}) + {x};
    } else if y :| y in b {
      assert |b - {y}| == |b| - 1;
    }
  }

  /** A list without repetitions is as long as its set is large. */
  lemma {:induction false} DistinctSize<T>(xs: seq<T>, s: set<T>)
    requires forall i, j | 0 <= i < j < |xs| :: xs[i] != xs[j]
    requires forall x :: x in xs <==> x in s
    ensures |xs| == |s|
    decreases |xs|
  {
    if xs == [] {
      assert s == {};
    } else {
      var x := xs[0];
      assert forall y :: y in xs[1..] <==> y in s - {x};
      DistinctSize(xs[1..], s - {x});
    }
  }
}
