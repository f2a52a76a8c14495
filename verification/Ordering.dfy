/** The ordering algorithms of the C++ standard library the numeric code relies on. */
module Ordering {

  ghost predicate Sorted(s: seq<real>) {
    forall i, j :: 0 <= i < j < |s| ==> s[i] <= s[j]
  }

  ghost predicate SortedBy<T>(s: seq<T>, key: T -> real) {
    forall i, j :: 0 <= i < j < |s| ==> key(s[i]) <= key(s[j])
  }

  /** Puts `x` after the last element whose key is not above its own. */
  method Insert<T>(xs: seq<T>, x: T, key: T -> real) returns (s: seq<T>)
    requires SortedBy(xs, key)
    ensures SortedBy(s, key)
    ensures multiset(s) == multiset(xs) + multiset{x}
  {
    var j := |xs|;
    while j > 0 && key(x) < key(xs[j - 1])
      invariant 0 <= j <= |xs|
      invariant j < |xs| ==> key(x) <= key(xs[j])
    {
      j := j - 1;
    }
    s := xs[..j] + [x] + xs[j..];
    InsertedSorted(xs, x, j, key);
    assert xs == xs[..j] + xs[j..];
  }

  lemma {:induction false} InsertedSorted<T>(xs: seq<T>, x: T, j: nat, key: T -> real)
    requires SortedBy(xs, key) && j <= |xs|
    requires j > 0 ==> key(xs[j - 1]) <= key(x)
    requires j < |xs| ==> key(x) <= key(xs[j])
    ensures SortedBy(xs[..j] + [x] + xs[j..], key)
  {
  }

  /** Sorting by a key. Like `std::sort`, the contract fixes no order among equal keys. */
  method Sort<T>(xs: seq<T>, key: T -> real) returns (s: seq<T>)
    ensures SortedBy(s, key)
    ensures multiset(s) == multiset(xs)
  {
    s := [];
    for k := 0 to |xs|
      invariant SortedBy(s, key)
      invariant multiset(s) == multiset(xs[..k])
    {
      assert xs[..k + 1] == xs[..k] + [xs[k]];
      s := Insert(s, xs[k], key);
    }
    assert xs[..|xs|] == xs;
  }

  /** First position whose value is not below `v`. */
  method LowerBound(p: seq<real>, v: real) returns (lo: nat)
    requires Sorted(p)
    ensures lo <= |p|
    ensures forall k :: 0 <= k < lo ==> p[k] < v
    ensures forall k :: lo <= k < |p| ==> v <= p[k]
  {
    lo := 0;
    var hi := |p|;
    while lo < hi
      invariant 0 <= lo <= hi <= |p|
      invariant forall k :: 0 <= k < lo ==> p[k] < v
      invariant forall k :: hi <= k < |p| ==> v <= p[k]
    {
      var mid := lo + (hi - lo) / 2;
      if p[mid] < v { lo := mid + 1; } else { hi := mid; }
    }
  }

  /** First position from `from` on whose value is above `v`. */
  method UpperBound(p: seq<real>, from: nat, v: real) returns (hi: nat)
    requires Sorted(p) && from <= |p|
    ensures from <= hi <= |p|
    ensures forall k :: from <= k < hi ==> p[k] <= v
    ensures forall k :: hi <= k < |p| ==> v < p[k]
  {
    hi := from;
    var end := |p|;
    while hi < end
      invariant from <= hi <= end <= |p|
      invariant forall k :: from <= k < hi ==> p[k] <= v
      invariant forall k :: end <= k < |p| ==> v < p[k]
    {
      var mid := hi + (end - hi) / 2;
      if p[mid] <= v { hi := mid + 1; } else { end := mid; }
    }
  }
}
