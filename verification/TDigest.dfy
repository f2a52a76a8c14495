/** The merging t-digest: centroids of weighted points, and the quantiles read off them. */
module TDigest {
  import opened Domain
  import opened Ordering

  datatype Centroid = Centroid(mean: real, weight: real)

  ghost predicate Positive(s: seq<Centroid>) {
    forall i :: 0 <= i < |s| ==> s[i].weight > 0.0
  }

  ghost predicate Ascending(s: seq<Centroid>) {
    forall i, j :: 0 <= i < j < |s| ==> s[i].mean <= s[j].mean
  }

  ghost predicate Within(s: seq<Centroid>, lo: real, hi: real) {
    forall i :: 0 <= i < |s| ==> lo <= s[i].mean <= hi
  }

  ghost function Part(w: real, x: real): real {
    w * x
  }

  ghost function Weight(s: seq<Centroid>, n: nat): real
    requires n <= |s|
  {
    if n == 0 then 0.0 else Weight(s, n - 1) + s[n - 1].weight
  }

  ghost function Moment(s: seq<Centroid>, n: nat): real
    requires n <= |s|
  {
    if n == 0 then 0.0 else Moment(s, n - 1) + Part(s[n - 1].weight, s[n - 1].mean)
  }

  // ---------------------------------------------------------------- sums over sequences

  lemma {:induction false} FrontSums(a: seq<Centroid>, b: seq<Centroid>, n: nat)
    requires n <= |a|
    ensures Weight(a + b, n) == Weight(a, n) && Moment(a + b, n) == Moment(a, n)
    decreases n
  {
    if n > 0 {
      FrontSums(a, b, n - 1);
    }
  }

  lemma {:induction false} JoinedSums(a: seq<Centroid>, b: seq<Centroid>, n: nat)
    requires n <= |b|
    ensures Weight(a + b, |a| + n) == Weight(a, |a|) + Weight(b, n)
    ensures Moment(a + b, |a| + n) == Moment(a, |a|) + Moment(b, n)
    decreases n
  {
    hide Part;
    if n == 0 {
      FrontSums(a, b, |a|);
    } else {
      JoinedSums(a, b, n - 1);
      assert (a + b)[|a| + n - 1] == b[n - 1];
    }
  }

  lemma {:induction false} AppendedSums(a: seq<Centroid>, c: Centroid)
    ensures Weight(a + [c], |a| + 1) == Weight(a, |a|) + c.weight
    ensures Moment(a + [c], |a| + 1) == Moment(a, |a|) + Part(c.weight, c.mean)
  {
    hide Part;
    FrontSums(a, [c], |a|);
  }

  lemma {:induction false} WeightGrows(s: seq<Centroid>, m: nat, n: nat)
    requires m <= n <= |s| && Positive(s)
    ensures 0.0 <= Weight(s, m) <= Weight(s, n)
    ensures m < n ==> Weight(s, m) < Weight(s, n)
    decreases n
  {
    if m < n {
      WeightGrows(s, m, n - 1);
    } else if m > 0 {
      WeightGrows(s, m - 1, m - 1);
    }
  }

  /** Taking out the element at `i` takes out its share of the sums. */
  lemma {:induction false} RemovedSums(s: seq<Centroid>, i: nat)
    requires i < |s|
    ensures var rest := s[..i] + s[i + 1..];
      && Weight(s, |s|) == Weight(rest, |rest|) + s[i].weight
      && Moment(s, |s|) == Moment(rest, |rest|) + Part(s[i].weight, s[i].mean)
  {
    hide Part;
    var a, b := s[..i], s[i + 1..];
    assert s == (a + [s[i]]) + b;
    JoinedSums(a + [s[i]], b, |b|);
    AppendedSums(a, s[i]);
    JoinedSums(a, b, |b|);
  }

  /** Rearranging the points, as sorting does, keeps both sums. */
  lemma {:induction false} RearrangedSums(s: seq<Centroid>, t: seq<Centroid>)
    requires multiset(s) == multiset(t)
    ensures |s| == |t| && Weight(s, |s|) == Weight(t, |t|) && Moment(s, |s|) == Moment(t, |t|)
    decreases |s|
  {
    SameSize(s, t);
    if s != [] {
      var i := Locate(s, t);
      var n := |s| - 1;
      RemovedSums(t, i);
      RemovedMultiset(s, t, i);
      RearrangedSums(s[..n], t[..i] + t[i + 1..]);
      RemovedSums(s, n);
      assert s[..n] + s[n + 1..] == s[..n];
    }
  }

  lemma {:induction false} SameSize(s: seq<Centroid>, t: seq<Centroid>)
    requires multiset(s) == multiset(t)
    ensures |s| == |t|
  {
    assert |multiset(s)| == |s| && |multiset(t)| == |t|;
  }

  lemma {:induction false} Locate(s: seq<Centroid>, t: seq<Centroid>) returns (i: nat)
    requires s != [] && multiset(s) == multiset(t)
    ensures i < |t| && t[i] == s[|s| - 1]
  {
    assert s[|s| - 1] in multiset(s);
    assert s[|s| - 1] in t;
    i :| 0 <= i < |t| && t[i] == s[|s| - 1];
  }

  lemma {:induction false} RemovedMultiset(s: seq<Centroid>, t: seq<Centroid>, i: nat)
    requires s != [] && multiset(s) == multiset(t) && i < |t| && t[i] == s[|s| - 1]
    ensures multiset(s[..|s| - 1]) == multiset(t[..i] + t[i + 1..])
  {
    WithoutOne(s, |s| - 1);
    assert s[..|s| - 1] + s[|s|..] == s[..|s| - 1];
    WithoutOne(t, i);
  }

  lemma {:induction false} WithoutOne(t: seq<Centroid>, i: nat)
    requires i < |t|
    ensures multiset(t[..i] + t[i + 1..]) == multiset(t) - multiset{t[i]}
  {
    assert t == t[..i] + [t[i]] + t[i + 1..];
  }

  lemma {:induction false} RearrangedMembers(s: seq<Centroid>, t: seq<Centroid>)
    requires multiset(s) == multiset(t) && Positive(s)
    ensures Positive(t)
    ensures forall lo, hi :: Within(s, lo, hi) ==> Within(t, lo, hi)
  {
    forall i | 0 <= i < |t| ensures t[i] in s {
      assert t[i] in multiset(t);
    }
  }

  // ---------------------------------------------------------------- merging two centroids

  function Blend(c: Centroid, d: Centroid): Centroid
    requires c.weight + d.weight != 0.0
  {
    Centroid((c.mean * c.weight + d.mean * d.weight) / (c.weight + d.weight), c.weight + d.weight)
  }

  lemma {:induction false} BlendBetween(c: Centroid, d: Centroid)
    requires c.weight > 0.0 && d.weight > 0.0 && c.mean <= d.mean
    ensures c.mean <= Blend(c, d).mean <= d.mean
    ensures Part(Blend(c, d).weight, Blend(c, d).mean) == Part(c.weight, c.mean) + Part(d.weight, d.mean)
  {
    BlendedMean(c.mean, c.weight, d.mean, d.weight, Blend(c, d).mean);
  }

  lemma {:induction false} BlendedMean(m: real, w: real, n: real, v: real, b: real)
    requires w > 0.0 && v > 0.0 && m <= n && b == (m * w + n * v) / (w + v)
    ensures m <= b <= n && (w + v) * b == w * m + v * n
  {
    var t := w + v;
    assert b * t == m * w + n * v;
    assert (b - m) * t == (n - m) * v && (n - b) * t == (n - m) * w;
    SignOf(n - m, v, b - m, t);
    SignOf(n - m, w, n - b, t);
  }

  lemma {:induction false} SignOf(p: real, v: real, q: real, t: real)
    requires p >= 0.0 && v > 0.0 && t > 0.0 && q * t == p * v
    ensures q >= 0.0
  {
  }

  /** The size limit the scale function sets, from the weight shares on both sides of the point. */
  function Limit(total: real, deltaInv: real, q0: real, q1: real): real {
    total * deltaInv * Min(q1 * (1.0 - q1), q0 * (1.0 - q0)) * 4.0
  }

  lemma {:induction false} LimitAtMost(total: real, deltaInv: real, q0: real, q1: real)
    requires total > 0.0 && deltaInv > 0.0
    ensures Limit(total, deltaInv, q0, q1) <= total * deltaInv
  {
    var m := Min(q1 * (1.0 - q1), q0 * (1.0 - q0));
    QuarterBound(q0);
    var k := total * deltaInv;
    assert k >= 0.0;
    assert k * m <= k * 0.25;
  }

  lemma {:induction false} QuarterBound(q: real)
    ensures q * (1.0 - q) <= 0.25
  {
  }

  // ---------------------------------------------------------------- quantiles

  /** The quantile walk from centroid `i`, with the weight before it. */
  ghost function Walk(cs: seq<Centroid>, target: real, i: nat, before: real): real
    requires cs != [] && i <= |cs| && Positive(cs)
    decreases |cs| - i
  {
    if i == |cs| then cs[|cs| - 1].mean
    else if before + cs[i].weight >= target then
      if i == 0 then cs[0].mean else Between(cs[i - 1].mean, cs[i].mean, target - before, cs[i].weight)
    else Walk(cs, target, i + 1, before + cs[i].weight)
  }

  function Between(a: real, b: real, part: real, whole: real): real
    requires whole != 0.0
  {
    a + (b - a) * part / whole
  }

  lemma {:induction false} BetweenBounds(a: real, b: real, part: real, whole: real)
    requires a <= b && whole > 0.0 && 0.0 <= part <= whole
    ensures a <= Between(a, b, part, whole) <= b
    ensures part == whole ==> Between(a, b, part, whole) == b
  {
  }

  lemma {:induction false} BetweenMonotone(a: real, b: real, p: real, q: real, whole: real)
    requires a <= b && whole > 0.0 && p <= q
    ensures Between(a, b, p, whole) <= Between(a, b, q, whole)
  {
  }

  lemma {:induction false} WalkBounds(cs: seq<Centroid>, target: real, i: nat, before: real)
    requires cs != [] && i <= |cs| && Positive(cs) && Ascending(cs) && (i > 0 ==> before <= target)
    ensures (if i == 0 then cs[0].mean else cs[i - 1].mean) <= Walk(cs, target, i, before) <= cs[|cs| - 1].mean
    decreases |cs| - i
  {
    hide Between;
    if i < |cs| {
      if before + cs[i].weight >= target {
        if i > 0 {
          assert cs[i - 1].mean <= cs[i].mean;
          BetweenBounds(cs[i - 1].mean, cs[i].mean, target - before, cs[i].weight);
        }
      } else {
        WalkBounds(cs, target, i + 1, before + cs[i].weight);
      }
    }
  }

  lemma {:induction false} WalkMonotone(cs: seq<Centroid>, s: real, t: real, i: nat, before: real)
    requires cs != [] && i <= |cs| && Positive(cs) && Ascending(cs) && (i > 0 ==> before <= s) && s <= t
    ensures Walk(cs, s, i, before) <= Walk(cs, t, i, before)
    decreases |cs| - i
  {
    hide Between;
    if i < |cs| {
      var next := before + cs[i].weight;
      if next < s {
        WalkMonotone(cs, s, t, i + 1, next);
      } else if next < t {
        WalkBounds(cs, t, i + 1, next);
        if i > 0 {
          assert cs[i - 1].mean <= cs[i].mean;
          BetweenBounds(cs[i - 1].mean, cs[i].mean, s - before, cs[i].weight);
        }
      } else if i > 0 {
        assert cs[i - 1].mean <= cs[i].mean;
        BetweenMonotone(cs[i - 1].mean, cs[i].mean, s - before, t - before, cs[i].weight);
      }
    }
  }

  function Target(q: real, total: real): real {
    q * total
  }

  /** The quantile of merged centroids; NaN is None. */
  ghost function QuantileOf(cs: seq<Centroid>, total: real, q: real): Option<real>
    requires Positive(cs)
  {
    if q < 0.0 || q > 1.0 || cs == [] then None
    else if |cs| == 1 then Some(cs[0].mean)
    else Some(Walk(cs, Target(q, total), 0, 0.0))
  }

  /** Quantiles never decrease in q and stay between the first and the last centroid. */
  lemma {:induction false} QuantileMonotone(cs: seq<Centroid>, total: real, p: real, q: real)
    requires cs != [] && Positive(cs) && Ascending(cs) && total >= 0.0 && 0.0 <= p <= q <= 1.0
    ensures var a, b := QuantileOf(cs, total, p), QuantileOf(cs, total, q);
      a.Some? && b.Some? && cs[0].mean <= a.value <= b.value <= cs[|cs| - 1].mean
  {
    ScaledOrder(p, q, total);
    WalkMonotone(cs, Target(p, total), Target(q, total), 0, 0.0);
    WalkBounds(cs, Target(p, total), 0, 0.0);
    WalkBounds(cs, Target(q, total), 0, 0.0);
    hide Walk;
  }

  lemma {:induction false} ScaledOrder(p: real, q: real, total: real)
    requires p <= q && total >= 0.0
    ensures Target(p, total) <= Target(q, total)
  {
  }

  lemma {:induction false} WalkToEnd(cs: seq<Centroid>, i: nat, before: real)
    requires cs != [] && i < |cs| && Positive(cs) && Ascending(cs) && before == Weight(cs, i)
    ensures Walk(cs, Weight(cs, |cs|), i, before) == cs[|cs| - 1].mean
    decreases |cs| - i
  {
    hide Between;
    WeightGrows(cs, i + 1, |cs|);
    if i + 1 < |cs| {
      WalkToEnd(cs, i + 1, before + cs[i].weight);
    } else if i > 0 {
      assert cs[i - 1].mean <= cs[i].mean;
      BetweenBounds(cs[i - 1].mean, cs[i].mean, cs[i].weight, cs[i].weight);
    }
  }

  /** The extreme quantiles are the extreme centroids. */
  lemma {:induction false} QuantileEnds(cs: seq<Centroid>)
    requires cs != [] && Positive(cs) && Ascending(cs)
    ensures QuantileOf(cs, Weight(cs, |cs|), 0.0) == Some(cs[0].mean)
    ensures QuantileOf(cs, Weight(cs, |cs|), 1.0) == Some(cs[|cs| - 1].mean)
  {
    assert 0.0 * Weight(cs, |cs|) == 0.0 && 1.0 * Weight(cs, |cs|) == Weight(cs, |cs|);
    WalkToEnd(cs, 0, 0.0);
  }

  // ---------------------------------------------------------------- the digest

  /** A centroid is one of the merged points, or no heavier than the size limit allows at most. */
  ghost predicate Fine(c: Centroid, all: seq<Centroid>, cap: real) {
    c in all || c.weight <= Max(1.0, cap)
  }

  class TDigest {
    const delta: real
    const deltaInv: real
    var centroids: seq<Centroid>
    var unmerged: seq<Centroid>
    var totalWeight: real
    var unmergedWeight: real
    /** Every point added so far, as a centroid of its own. */
    ghost var added: seq<Centroid>

    ghost predicate Valid()
      reads this
    {
      && delta != 0.0 && deltaInv == 1.0 / delta
      && Positive(added) && Positive(centroids) && Positive(unmerged)
      && totalWeight == Weight(added, |added|)
      && unmergedWeight == Weight(unmerged, |unmerged|)
      && Weight(centroids, |centroids|) + Weight(unmerged, |unmerged|) == totalWeight
      && Moment(centroids, |centroids|) + Moment(unmerged, |unmerged|) == Moment(added, |added|)
      && Ascending(centroids)
      && (forall lo, hi :: Within(added, lo, hi) ==> Within(centroids, lo, hi) && Within(unmerged, lo, hi))
    }

    constructor (delta: real)
      requires delta != 0.0
      ensures Valid() && this.delta == delta && added == []
    {
      this.delta, deltaInv := delta, 1.0 / delta;
      centroids, unmerged, added := [], [], [];
      totalWeight, unmergedWeight := 0.0, 0.0;
    }

    method Add(value: real, weight: real)
      requires Valid() && weight > 0.0
      modifies this
      ensures Valid() && added == old(added) + [Centroid(value, weight)]
    {
      var c := Centroid(value, weight);
      AppendedSums(unmerged, c);
      AppendedSums(added, c);
      WithinAppended(added, centroids, unmerged, c);
      hide Weight, Moment, Within;
      unmerged := unmerged + [c];
      unmergedWeight := unmergedWeight + weight;
      totalWeight := totalWeight + weight;
      added := added + [c];
      if |unmerged| as real >= delta * 10.0 {
        Merge();
      }
    }

    method Merge()
      requires Valid()
      modifies this
      ensures Valid() && added == old(added) && totalWeight == old(totalWeight) && unmerged == []
      ensures old(unmerged) == [] ==> centroids == old(centroids)
    {
      if unmerged == [] {
        return;
      }
      var key := (c: Centroid) => c.mean;
      var joined := centroids + unmerged;
      var all := Sort(joined, key);
      assert Ascending(all) by {
        forall i, j | 0 <= i < j < |all| ensures all[i].mean <= all[j].mean {
          assert key(all[i]) <= key(all[j]);
        }
      }
      JoinedSums(centroids, unmerged, |unmerged|);
      RearrangedSums(joined, all);
      RearrangedMembers(joined, all);
      hide Weight, Moment, Ascending, Positive;
      ghost var before := centroids;
      unmerged, unmergedWeight := [], 0.0;
      centroids := Compress(all, totalWeight, deltaInv);
      EmptySums();
      WithinCompressed(added, before, old(unmerged), all, centroids);
    }

    /** The accessor counts unmerged points twice: it is the true weight only when none are waiting. */
    method TotalWeight() returns (w: real)
      requires Valid()
      ensures w == Weight(added, |added|) + Weight(unmerged, |unmerged|)
      ensures w == Weight(added, |added|) <==> unmerged == []
    {
      WeightGrows(unmerged, 0, |unmerged|);
      w := totalWeight + unmergedWeight;
    }

    method Quantile(q: real) returns (r: Option<real>)
      requires Valid()
      modifies this
      ensures Valid() && added == old(added)
      ensures q < 0.0 || q > 1.0 ==> r == None && unchanged(this)
      ensures 0.0 <= q <= 1.0 ==> unmerged == [] && totalWeight == Weight(centroids, |centroids|)
      ensures r == QuantileOf(centroids, totalWeight, q)
    {
      if q < 0.0 || q > 1.0 {
        return None;
      }
      hide Walk, Weight, Moment, Ascending, Within, Positive, Target;
      Merge();
      if centroids == [] {
        return None;
      }
      if |centroids| == 1 {
        return Some(centroids[0].mean);
      }
      var v := WalkAlong(centroids, Target(q, totalWeight));
      return Some(v);
    }
  }

  /** The search for the centroid that reaches the target weight, and the interpolation there. */
  method WalkAlong(cs: seq<Centroid>, target: real) returns (v: real)
    requires cs != [] && Positive(cs)
    ensures v == Walk(cs, target, 0, 0.0)
  {
    var before := 0.0;
    for i := 0 to |cs|
      invariant Walk(cs, target, i, before) == Walk(cs, target, 0, 0.0)
    {
      hide Between;
      var next := before + cs[i].weight;
      if next >= target {
        if i == 0 {
          return cs[i].mean;
        }
        return Between(cs[i - 1].mean, cs[i].mean, target - before, cs[i].weight);
      }
      before := next;
    }
    return cs[|cs| - 1].mean;
  }

  lemma {:induction false} EmptySums()
    ensures Weight([], 0) == 0.0 && Moment([], 0) == 0.0
  {
  }

  lemma {:induction false} WithinAppended(added: seq<Centroid>, centroids: seq<Centroid>, unmerged: seq<Centroid>, c: Centroid)
    requires forall lo, hi :: Within(added, lo, hi) ==> Within(centroids, lo, hi) && Within(unmerged, lo, hi)
    ensures forall lo, hi :: Within(added + [c], lo, hi) ==> Within(centroids, lo, hi) && Within(unmerged + [c], lo, hi)
  {
    forall lo, hi | Within(added + [c], lo, hi) ensures Within(centroids, lo, hi) && Within(unmerged + [c], lo, hi) {
      assert forall i :: 0 <= i < |added| ==> added[i] == (added + [c])[i];
      assert (added + [c])[|added|] == c;
      assert Within(added, lo, hi);
    }
  }

  lemma {:induction false} WithinCompressed(added: seq<Centroid>, a: seq<Centroid>, b: seq<Centroid>, all: seq<Centroid>,
      out: seq<Centroid>)
    requires forall lo, hi :: Within(added, lo, hi) ==> Within(a, lo, hi) && Within(b, lo, hi)
    requires forall lo, hi :: Within(a + b, lo, hi) ==> Within(all, lo, hi)
    requires forall lo, hi :: Within(all, lo, hi) ==> Within(out, lo, hi)
    ensures forall lo, hi :: Within(added, lo, hi) ==> Within(out, lo, hi) && Within([], lo, hi)
  {
  }

  /** The merge pass over the sorted points. */
  method Compress(all: seq<Centroid>, total: real, deltaInv: real) returns (out: seq<Centroid>)
    requires all != [] && Positive(all) && Ascending(all) && total == Weight(all, |all|)
    ensures out != [] && Positive(out) && Ascending(out)
    ensures Weight(out, |out|) == Weight(all, |all|) && Moment(out, |out|) == Moment(all, |all|)
    ensures forall lo, hi :: Within(all, lo, hi) ==> Within(out, lo, hi)
    ensures deltaInv > 0.0 ==> forall i :: 0 <= i < |out| ==> Fine(out[i], all, total * deltaInv)
  {
    out := [];
    var cur := all[0];
    var soFar := cur.weight;
    ghost var low := cur.mean;
    for i := 1 to |all|
      invariant Stage(all, i, out, cur, low, total * deltaInv, deltaInv)
      invariant soFar == Weight(all, i)
    {
      var next := soFar + all[i].weight;
      WeightGrows(all, 1, |all|);
      var q0 := soFar / total;
      var q1 := next / total;
      var limit := Limit(total, deltaInv, q0, q1);
      if cur.weight + all[i].weight <= Max(1.0, limit) {
        StageBlends(all, i, out, cur, low, total, deltaInv, limit);
        cur := Blend(cur, all[i]);
      } else {
        StagePushes(all, i, out, cur, low, total * deltaInv, deltaInv);
        out := out + [cur];
        cur := all[i];
        low := all[i].mean;
      }
      soFar := next;
    }
    StageEnds(all, out, cur, low, total * deltaInv, deltaInv);
    out := out + [cur];
  }

  /**
   * Part-way through the pass: the finished centroids and the current one account for the first
   * `i` points, in ascending order; `low` separates the finished ones from the current.
   */
  ghost predicate Stage(all: seq<Centroid>, i: nat, out: seq<Centroid>, cur: Centroid, low: real, cap: real, deltaInv: real) {
    && 0 < i <= |all| && Positive(out) && Ascending(out) && cur.weight > 0.0
    && Weight(out, |out|) + cur.weight == Weight(all, i)
    && Moment(out, |out|) + Part(cur.weight, cur.mean) == Moment(all, i)
    && all[0].mean <= low <= cur.mean <= all[i - 1].mean
    && (forall k :: 0 <= k < |out| ==> all[0].mean <= out[k].mean <= low)
    && (deltaInv > 0.0 ==> Fine(cur, all, cap) && forall k :: 0 <= k < |out| ==> Fine(out[k], all, cap))
  }

  lemma {:induction false} StageBlends(all: seq<Centroid>, i: nat, out: seq<Centroid>, cur: Centroid, low: real,
                                       total: real, deltaInv: real, limit: real)
    requires Positive(all) && Ascending(all) && i < |all| && total > 0.0
    requires Stage(all, i, out, cur, low, total * deltaInv, deltaInv)
    requires cur.weight + all[i].weight <= Max(1.0, limit)
    requires exists q0, q1 :: limit == Limit(total, deltaInv, q0, q1)
    ensures Stage(all, i + 1, out, Blend(cur, all[i]), low, total * deltaInv, deltaInv)
  {
    assert all[i - 1].mean <= all[i].mean;
    BlendBetween(cur, all[i]);
    hide Part;
    if deltaInv > 0.0 {
      var q0, q1 :| limit == Limit(total, deltaInv, q0, q1);
      LimitAtMost(total, deltaInv, q0, q1);
    }
    hide Limit;
  }

  lemma {:induction false} StagePushes(all: seq<Centroid>, i: nat, out: seq<Centroid>, cur: Centroid, low: real,
      cap: real, deltaInv: real)
    requires Positive(all) && Ascending(all) && i < |all| && Stage(all, i, out, cur, low, cap, deltaInv)
    ensures Stage(all, i + 1, out + [cur], all[i], all[i].mean, cap, deltaInv)
  {
    AppendedSums(out, cur);
    hide Part;
    assert all[i - 1].mean <= all[i].mean;
    assert all[0].mean <= all[i].mean;
  }

  lemma {:induction false} StageEnds(all: seq<Centroid>, out: seq<Centroid>, cur: Centroid, low: real, cap: real,
      deltaInv: real)
    requires Positive(all) && Ascending(all) && all != [] && Stage(all, |all|, out, cur, low, cap, deltaInv)
    ensures var done := out + [cur];
      && Positive(done) && Ascending(done)
      && Weight(done, |done|) == Weight(all, |all|) && Moment(done, |done|) == Moment(all, |all|)
      && (forall lo, hi :: Within(all, lo, hi) ==> Within(done, lo, hi))
      && (deltaInv > 0.0 ==> forall k :: 0 <= k < |done| ==> Fine(done[k], all, cap))
  {
    AppendedSums(out, cur);
    hide Part;
  }
}
