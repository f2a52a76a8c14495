/** Sizes of finite sets of positions. */
module Counting {

  ghost function Interval(lo: int, hi: int): (r: set<int>)
    ensures forall k :: k in r <==> lo <= k < hi
    ensures |r| == if lo <= hi then hi - lo else 0
    decreases hi - lo
  {
    if lo >= hi then {} else Interval(lo, hi - 1) + {hi - 1}
  }

  ghost predicate Distinct(q: seq<int>) {
    forall a, b :: 0 <= a < b < |q| ==> q[a] != q[b]
  }

  lemma {:induction false} DistinctFits(q: seq<int>, n: nat)
    requires Distinct(q) && forall a :: 0 <= a < |q| ==> 0 <= q[a] < n
    ensures |q| <= n
  {
    DistinctSize(q);
    SubsetSize((set x | x in q), Interval(0, n));
  }

  lemma {:induction false} DistinctSize(q: seq<int>)
    requires Distinct(q)
    ensures |set x | x in q| == |q|
  {
    if q != [] {
      var front := q[..|q| - 1];
      DistinctSize(front);
      assert (set x | x in q) == (set x | x in front) + {q[|q| - 1]};
    }
  }

  lemma {:induction false} SubsetSize(a: set<int>, b: set<int>)
    requires a <= b
    ensures |a| <= |b|
  {
    assert b == a + (b - a);
  }
}
