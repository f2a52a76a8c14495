/** The weighted online mean and variance, and the two-pass weighted sums they stand for. */
module WeightedWelford {
  import opened Domain
  import opened Matrices

  datatype Sample = Sample(x: real, weight: real)

  ghost predicate Weighed(s: seq<Sample>) {
    forall i :: 0 <= i < |s| ==> s[i].weight > 0.0
  }

  ghost function Weight(s: seq<Sample>, n: nat): real
    requires n <= |s|
  {
    if n == 0 then 0.0 else Weight(s, n - 1) + s[n - 1].weight
  }

  ghost function Part(w: real, x: real): real {
    w * x
  }

  ghost function Moment(s: seq<Sample>, n: nat): real
    requires n <= |s|
  {
    if n == 0 then 0.0 else Moment(s, n - 1) + Part(s[n - 1].weight, s[n - 1].x)
  }

  ghost function Deviation(w: real, x: real, a: real): real {
    w * (x - a) * (x - a)
  }

  /** The weighted sum of squared deviations from `a`. */
  ghost function Deviations(s: seq<Sample>, n: nat, a: real): real
    requires n <= |s|
  {
    if n == 0 then 0.0 else Deviations(s, n - 1, a) + Deviation(s[n - 1].weight, s[n - 1].x, a)
  }

  lemma {:induction false} OfPrefix(s: seq<Sample>, t: Sample, n: nat, a: real)
    requires n <= |s|
    ensures Weight(s + [t], n) == Weight(s, n) && Moment(s + [t], n) == Moment(s, n)
    ensures Deviations(s + [t], n, a) == Deviations(s, n, a)
    decreases n
  {
    if n > 0 {
      OfPrefix(s, t, n - 1, a);
    }
  }

  lemma {:induction false} WeightPositive(s: seq<Sample>, n: nat)
    requires n <= |s| && Weighed(s)
    ensures if n == 0 then Weight(s, n) == 0.0 else Weight(s, n) > 0.0
    decreases n
  {
    if n > 0 {
      WeightPositive(s, n - 1);
    }
  }

  lemma {:induction false} DeviationsNonNegative(s: seq<Sample>, n: nat, a: real)
    requires n <= |s| && Weighed(s)
    ensures Deviations(s, n, a) >= 0.0
    decreases n
  {
    hide Deviation;
    if n > 0 {
      DeviationsNonNegative(s, n - 1, a);
      DeviationNonNegative(s[n - 1].weight, s[n - 1].x, a);
    }
  }

  lemma {:induction false} DeviationNonNegative(w: real, x: real, a: real)
    requires w > 0.0
    ensures Deviation(w, x, a) >= 0.0
  {
    SquareNonNegative(x - a);
    ProductNonNegative(w, (x - a) * (x - a));
    assert w * (x - a) * (x - a) == w * ((x - a) * (x - a));
  }

  ghost function Moved(c: real, weight: real, moment: real, a: real, b: real): real {
    c - 2.0 * (b - a) * (moment - weight * a) + weight * (b - a) * (b - a)
  }

  lemma {:induction false} MovedStep(c: real, weight: real, moment: real, w: real, x: real, a: real, b: real)
    ensures Moved(c + Deviation(w, x, a), weight + w, moment + Part(w, x), a, b) == Moved(c, weight, moment, a, b) + Deviation(w, x, b)
  {
  }

  lemma {:induction false} MovedNothing(a: real, b: real)
    ensures Moved(0.0, 0.0, 0.0, a, b) == 0.0
  {
  }

  lemma {:induction false} DeviationsMove(s: seq<Sample>, n: nat, a: real, b: real)
    requires n <= |s|
    ensures Deviations(s, n, b) == Moved(Deviations(s, n, a), Weight(s, n), Moment(s, n), a, b)
    decreases n
  {
    hide Moved, Deviation, Part;
    if n == 0 {
      MovedNothing(a, b);
    } else {
      DeviationsMove(s, n - 1, a, b);
      MovedStep(Deviations(s, n - 1, a), Weight(s, n - 1), Moment(s, n - 1), s[n - 1].weight, s[n - 1].x, a, b);
    }
  }

  /** The online update, with d the move of the mean. */
  lemma {:induction false} Growth(c: real, weight: real, moment: real, a: real, w: real, x: real, d: real)
    requires moment == weight * a && d * (weight + w) == (x - a) * w
    ensures moment + Part(w, x) == (weight + w) * (a + d)
    ensures Moved(c, weight, moment, a, a + d) + Deviation(w, x, a + d) == c + weight * (x - a) * d
  {
  }

  /** How far the mean moves. */
  function Share(delta: real, w: real, total: real): real
    requires total != 0.0
  {
    delta * w / total
  }

  function Gain(total: real, delta: real, r: real): real {
    total * delta * r
  }

  lemma {:induction false} SampleAdded(s: seq<Sample>, a: real, x: real, w: real, r: real)
    requires Weighed(s) && w > 0.0 && Moment(s, |s|) == Part(Weight(s, |s|), a)
    requires Weight(s, |s|) + w > 0.0 && r == Share(x - a, w, Weight(s, |s|) + w)
    ensures var s', n := s + [Sample(x, w)], |s| + 1;
      && Weight(s', n) == Weight(s, |s|) + w
      && Moment(s', n) == Part(Weight(s, |s|) + w, a + r)
      && Deviations(s', n, a + r) == Deviations(s, |s|, a) + Gain(Weight(s, |s|), x - a, r)
  {
    hide Deviation, Moved;
    var total := Weight(s, |s|);
    OfPrefix(s, Sample(x, w), |s|, a + r);
    DeviationsMove(s, |s|, a, a + r);
    ShareOf(r, (x - a) * w, total + w);
    Growth(Deviations(s, |s|, a), total, Moment(s, |s|), a, w, x, r);
  }

  lemma {:induction false} ShareOf(r: real, p: real, total: real)
    requires total > 0.0 && r == p / total
    ensures r * total == p
  {
  }

  class WeightedWelfordAccumulator {
    var weightSum: real
    var mean: real
    var m2: real
    ghost var samples: seq<Sample>

    /** The fields are the two-pass weighted sums over every sample of positive weight so far. */
    ghost predicate Valid()
      reads this
    {
      && Weighed(samples)
      && weightSum == Weight(samples, |samples|)
      && Moment(samples, |samples|) == Part(weightSum, mean)
      && m2 == Deviations(samples, |samples|, mean)
    }

    constructor ()
      ensures Valid() && samples == []
    {
      weightSum, mean, m2, samples := 0.0, 0.0, 0.0, [];
    }

    /** A sample whose weight is not positive changes nothing. */
    method Update(x: real, weight: real)
      requires Valid()
      modifies this
      ensures Valid()
      ensures samples == if weight <= 0.0 then old(samples) else old(samples) + [Sample(x, weight)]
      ensures weight <= 0.0 ==> unchanged(this)
    {
      if weight <= 0.0 {
        return;
      }
      var oldWeightSum := weightSum;
      weightSum := weightSum + weight;
      var delta := x - mean;
      WeightPositive(samples, |samples|);
      var r := Share(delta, weight, weightSum);
      SampleAdded(samples, mean, x, weight, r);
      hide Weight, Moment, Deviations, Part, Gain, Share;
      mean := mean + r;
      m2 := m2 + Gain(oldWeightSum, delta, r);
      samples := samples + [Sample(x, weight)];
    }

    method Variance() returns (v: real)
      requires Valid()
      ensures v >= 0.0
      ensures samples == [] ==> v == 0.0
      ensures v * weightSum == Deviations(samples, |samples|, mean)
    {
      WeightPositive(samples, |samples|);
      DeviationsNonNegative(samples, |samples|, mean);
      if weightSum <= 0.0 {
        return 0.0;
      }
      hide Deviations;
      var q := m2 / weightSum;
      assert q * weightSum == m2;
      v := Max(0.0, q);
    }
  }
}
