/** Online mean, variance and correlation, and the two-pass sums they stand for. */
module Welford {
  import opened Domain
  import opened Matrices

  ghost function Sum(xs: seq<real>, n: nat): real
    requires n <= |xs|
  {
    if n == 0 then 0.0 else Sum(xs, n - 1) + xs[n - 1]
  }

  ghost function Mean(xs: seq<real>): real {
    if xs == [] then 0.0 else Sum(xs, |xs|) / |xs| as real
  }

  ghost function Times(p: real, q: real): real {
    p * q
  }

  /** The sum of (x - a) * (y - b) over the first `n` pairs. */
  ghost function Cross(xs: seq<real>, ys: seq<real>, n: nat, a: real, b: real): real
    requires n <= |xs| && n <= |ys|
  {
    if n == 0 then 0.0 else Cross(xs, ys, n - 1, a, b) + Times(xs[n - 1] - a, ys[n - 1] - b)
  }

  /** The two-pass sum of products of deviations from the means. */
  ghost function TwoPass(xs: seq<real>, ys: seq<real>): real
    requires |xs| == |ys|
  {
    Cross(xs, ys, |xs|, Mean(xs), Mean(ys))
  }

  // ---------------------------------------------------------------- one more sample

  lemma {:induction false} SumOfPrefix(xs: seq<real>, x: real, n: nat)
    requires n <= |xs|
    ensures Sum(xs + [x], n) == Sum(xs, n)
    decreases n
  {
    if n > 0 {
      SumOfPrefix(xs, x, n - 1);
    }
  }

  lemma {:induction false} CrossOfPrefix(xs: seq<real>, ys: seq<real>, x: real, y: real, n: nat, a: real, b: real)
    requires n <= |xs| && n <= |ys|
    ensures Cross(xs + [x], ys + [y], n, a, b) == Cross(xs, ys, n, a, b)
    decreases n
  {
    if n > 0 {
      CrossOfPrefix(xs, ys, x, y, n - 1, a, b);
    }
  }

  lemma {:induction false} ScaledMean(xs: seq<real>)
    ensures Mean(xs) * |xs| as real == Sum(xs, |xs|)
  {
  }

  /** The running mean moves by the share of the new sample. */
  lemma {:induction false} MeanMoves(xs: seq<real>, x: real)
    ensures Mean(xs + [x]) == Mean(xs) + (x - Mean(xs)) / (|xs| + 1) as real
  {
    var k := |xs| as real;
    SumOfPrefix(xs, x, |xs|);
    ScaledMean(xs);
    ScaledMean(xs + [x]);
    SameQuotient(Mean(xs + [x]), Mean(xs), x, k);
  }

  lemma {:induction false} SameQuotient(m': real, m: real, x: real, k: real)
    requires k >= 0.0 && m' * (k + 1.0) == m * k + x
    ensures m' == m + (x - m) / (k + 1.0)
  {
  }

  /** Moving the reference point away from the means costs the product of the moves, n times. */
  lemma {:induction false} CrossMoves(xs: seq<real>, ys: seq<real>, n: nat, a: real, b: real, a': real, b': real)
    requires n <= |xs| && n <= |ys|
    ensures Cross(xs, ys, n, a', b') == Moved(Cross(xs, ys, n, a, b), Sum(xs, n), Sum(ys, n), n as real, a, b, a', b')
    decreases n
  {
    hide Moved, Times;
    if n == 0 {
      MovedNothing(a, b, a', b');
    } else {
      CrossMoves(xs, ys, n - 1, a, b, a', b');
      var c := Cross(xs, ys, n - 1, a, b);
      var sx, sy, x, y := Sum(xs, n - 1), Sum(ys, n - 1), xs[n - 1], ys[n - 1];
      MovedStep(c, sx, sy, (n - 1) as real, n as real, x, y, a, b, a', b');
    }
  }

  /** A sum of products of deviations, its reference point moved from (a, b) to (a', b'). */
  ghost function Moved(c: real, sx: real, sy: real, k: real, a: real, b: real, a': real, b': real): real {
    c - (b' - b) * (sx - k * a) - (a' - a) * (sy - k * b) + k * (a' - a) * (b' - b)
  }

  lemma {:induction false} MovedStep(c: real, sx: real, sy: real, k: real, k': real, x: real, y: real,
                                     a: real, b: real, a': real, b': real)
    requires k' == k + 1.0
    ensures Moved(c + Times(x - a, y - b), sx + x, sy + y, k', a, b, a', b') ==
      Moved(c, sx, sy, k, a, b, a', b') + Times(x - a', y - b')
  {
  }

  lemma {:induction false} MovedNothing(a: real, b: real, a': real, b': real)
    ensures Moved(0.0, 0.0, 0.0, 0.0, a, b, a', b') == 0.0
  {
  }

  /** One more pair adds (x - new mean of x) * (y - old mean of y): the online update is exact. */
  lemma {:induction false} TwoPassGrows(xs: seq<real>, ys: seq<real>, x: real, y: real)
    requires |xs| == |ys|
    ensures TwoPass(xs + [x], ys + [y]) == TwoPass(xs, ys) + Times(x - Mean(xs + [x]), y - Mean(ys))
  {
    hide Moved, Times;
    var n := |xs|;
    var a, b, a', b' := Mean(xs), Mean(ys), Mean(xs + [x]), Mean(ys + [y]);
    CrossOfPrefix(xs, ys, x, y, n, a', b');
    CrossMoves(xs, ys, n, a, b, a', b');
    ScaledMean(xs);
    ScaledMean(ys);
    MeanMoves(xs, x);
    MeanMoves(ys, y);
    assert TwoPass(xs + [x], ys + [y]) == Cross(xs, ys, n, a', b') + Times(x - a', y - b');
    Growth(TwoPass(xs, ys), n as real, Sum(xs, n), Sum(ys, n), a, b, a', b', x, y);
  }

  lemma {:induction false} Growth(c: real, k: real, sx: real, sy: real, a: real, b: real, a': real, b': real, x: real, y: real)
    requires k >= 0.0 && sx == a * k && sy == b * k
    requires a' == a + (x - a) / (k + 1.0) && b' == b + (y - b) / (k + 1.0)
    ensures Moved(c, sx, sy, k, a, b, a', b') + Times(x - a', y - b') == c + Times(x - a', y - b)
  {
  }

  // ---------------------------------------------------------------- what the sums satisfy

  /** Sums of squared combinations: the matrix of the three sums is a covariance. */
  lemma {:induction false} CrossForm(xs: seq<real>, ys: seq<real>, n: nat, a: real, b: real, u: real, v: real)
    requires n <= |xs| && n <= |ys|
    ensures SumsForm(Cross(xs, xs, n, a, a), Cross(xs, ys, n, a, b), Cross(ys, ys, n, b, b), u, v) >= 0.0
    decreases n
  {
    hide SumsForm, Times;
    if n == 0 {
      EmptyForm(u, v);
    } else {
      CrossForm(xs, ys, n - 1, a, b, u, v);
      SquaredTerm(Cross(xs, xs, n - 1, a, a), Cross(xs, ys, n - 1, a, b), Cross(ys, ys, n - 1, b, b),
                  xs[n - 1] - a, ys[n - 1] - b, u, v);
    }
  }

  ghost function SumsForm(a: real, b: real, d: real, u: real, v: real): real {
    u * u * a + u * v * b + u * v * b + v * v * d
  }

  lemma {:induction false} EmptyForm(u: real, v: real)
    ensures SumsForm(0.0, 0.0, 0.0, u, v) == 0.0
  {
  }

  /** One more pair adds the square of u * p + v * q. */
  lemma {:induction false} SquaredTerm(a: real, b: real, d: real, p: real, q: real, u: real, v: real)
    ensures SumsForm(a + Times(p, p), b + Times(p, q), d + Times(q, q), u, v) >= SumsForm(a, b, d, u, v)
  {
    SquareNonNegative(u * p + v * q);
    assert SumsForm(a + Times(p, p), b + Times(p, q), d + Times(q, q), u, v)
      == SumsForm(a, b, d, u, v) + (u * p + v * q) * (u * p + v * q);
  }

  /** Cauchy-Schwarz for the two-pass sums. */
  lemma {:induction false} CauchySchwarz(xs: seq<real>, ys: seq<real>)
    requires |xs| == |ys|
    ensures TwoPass(xs, xs) >= 0.0 && TwoPass(ys, ys) >= 0.0
    ensures TwoPass(xs, ys) * TwoPass(xs, ys) <= TwoPass(xs, xs) * TwoPass(ys, ys)
  {
    var m := Matrix(TwoPass(xs, xs), TwoPass(xs, ys), TwoPass(xs, ys), TwoPass(ys, ys));
    hide Cross;
    forall u: real, v: real ensures m.Form(u, v) >= 0.0 {
      CrossForm(xs, ys, |xs|, Mean(xs), Mean(ys), u, v);
    }
    CovarianceIffDeterminant(m);
  }

  // ---------------------------------------------------------------- the accumulators

  class WelfordAccumulator {
    var n: nat
    var mean: real
    var m2: real
    ghost var samples: seq<real>

    /** The fields are the two-pass statistics of every sample so far. */
    ghost predicate Valid()
      reads this
    {
      n == |samples| && mean == Mean(samples) && m2 == TwoPass(samples, samples)
    }

    constructor ()
      ensures Valid() && samples == []
    {
      n, mean, m2, samples := 0, 0.0, 0.0, [];
    }

    method Update(x: real)
      requires Valid()
      modifies this
      ensures Valid() && samples == old(samples) + [x]
    {
      n := n + 1;
      var delta := x - mean;
      mean := mean + delta / n as real;
      var delta2 := x - mean;
      m2 := m2 + delta * delta2;
      MeanMoves(samples, x);
      TwoPassGrows(samples, samples, x, x);
      samples := samples + [x];
    }

    /** The unbiased sample variance; the guard against negative values is never needed. */
    method Variance() returns (v: real)
      requires Valid()
      ensures v >= 0.0
      ensures n < 2 ==> v == 0.0
      ensures n >= 2 ==> v * (n - 1) as real == TwoPass(samples, samples)
    {
      if n < 2 {
        return 0.0;
      }
      CauchySchwarz(samples, samples);
      v := Max(0.0, m2 / (n - 1) as real);
    }
  }

  class WelfordCorrelation {
    var n: nat
    const accX: WelfordAccumulator
    const accY: WelfordAccumulator
    var cxy: real

    ghost predicate Valid()
      reads this, accX, accY
    {
      && accX != accY && accX.Valid() && accY.Valid() && n == accX.n == accY.n
      && cxy == TwoPass(accX.samples, accY.samples)
    }

    constructor ()
      ensures Valid() && fresh(accX) && fresh(accY) && accX.samples == [] && accY.samples == []
    {
      n, cxy := 0, 0.0;
      accX := new WelfordAccumulator();
      accY := new WelfordAccumulator();
    }

    method Update(x: real, y: real)
      requires Valid()
      modifies this, accX, accY
      ensures Valid()
      ensures accX.samples == old(accX.samples) + [x] && accY.samples == old(accY.samples) + [y]
    {
      n := n + 1;
      var dy := y - accY.mean;
      TwoPassGrows(accX.samples, accY.samples, x, y);
      accX.Update(x);
      accY.Update(y);
      cxy := cxy + (x - accX.mean) * dy;
    }

    /**
     * The correlation of the samples: the two-pass sum of products over the root of the product of
     * the two sums of squares. It lies between -1 and 1, and is 0 when a side does not vary.
     */
    method Correlation(sqrt: real -> real) returns (c: real, ghost root: real)
      requires Valid() && IsSquareRoot(sqrt)
      ensures -1.0 <= c <= 1.0
      ensures n < 2 || Spread(accX.samples) == 0.0 || Spread(accY.samples) == 0.0 ==> c == 0.0
      ensures n >= 2 && Spread(accX.samples) != 0.0 && Spread(accY.samples) != 0.0 ==>
        && root > 0.0 && Times(root, root) == Times(Spread(accX.samples), Spread(accY.samples))
        && Times(c, root) == TwoPass(accX.samples, accY.samples)
    {
      hide TwoPass, IsSquareRoot, Times;
      root := 0.0;
      if n < 2 {
        return 0.0, 0.0;
      }
      var varX := accX.Variance();
      varX := varX * (n - 1) as real;
      var varY := accY.Variance();
      varY := varY * (n - 1) as real;
      if varX == 0.0 || varY == 0.0 {
        return 0.0, 0.0;
      }
      var product := varX * varY;
      var r := sqrt(product);
      RootBounds(accX.samples, accY.samples, varX, varY, product, cxy, r, sqrt);
      return cxy / r, r;
    }
  }

  ghost function Spread(xs: seq<real>): real {
    TwoPass(xs, xs)
  }

  ghost predicate IsSquareRoot(sqrt: real -> real) {
    forall v: real :: v >= 0.0 ==> sqrt(v) >= 0.0 && Times(sqrt(v), sqrt(v)) == v
  }

  lemma {:induction false} RootBounds(xs: seq<real>, ys: seq<real>, x: real, y: real, product: real, c: real, root: real,
      sqrt: real -> real)
    requires |xs| == |ys| && IsSquareRoot(sqrt)
    requires x == TwoPass(xs, xs) != 0.0 && y == TwoPass(ys, ys) != 0.0 && c == TwoPass(xs, ys)
    requires product == x * y && root == sqrt(product)
    ensures root > 0.0 && -1.0 <= c / root <= 1.0
    ensures Times(root, root) == Times(x, y) && Times(c / root, root) == c
  {
    hide TwoPass;
    CauchySchwarz(xs, ys);
    ProductPositive(x, y);
    RatioWithinOne(c, root, x, y, product);
  }

  lemma {:induction false} SquareOrder(p: real, q: real)
    requires 0.0 <= p < q
    ensures p * p < q * q
  {
    ProductPositive(q - p, q + p);
    assert q * q - p * p == (q - p) * (q + p);
  }

  lemma {:induction false} ProductPositive(x: real, y: real)
    requires x > 0.0 && y > 0.0
    ensures x * y > 0.0
  {
  }

  lemma {:induction false} RatioWithinOne(c: real, root: real, x: real, y: real, product: real)
    requires x > 0.0 && y > 0.0 && root >= 0.0 && product == x * y > 0.0 && root * root == product && c * c <= product
    ensures root > 0.0 && -1.0 <= c / root <= 1.0
  {
    if c > root {
      SquareOrder(root, c);
    } else if -c > root {
      SquareOrder(root, -c);
      assert (-c) * (-c) == c * c;
    }
    var q := c / root;
    assert q * root == c;
    assert root * (1.0 - q) == root - c && root * (1.0 + q) == root + c;
    FactorNonNegative(root, 1.0 - q);
    FactorNonNegative(root, 1.0 + q);
  }
}
