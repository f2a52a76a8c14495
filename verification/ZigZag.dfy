/** Swing highs and lows of a price series. */
module ZigZag {
  import opened Domain
  import opened Matrices

  const BPS_BASE: real := 10000.0

  datatype Peak = Peak(price: real, index: nat, isHigh: bool)

  /** The candidate for the next pivot, the direction searched in, and the pivots found. */
  datatype Tracker = Tracker(rising: bool, price: real, index: nat, peaks: seq<Peak>)

  function DiffBps(last: real, cur: real): real {
    if last > 0.0 then Abs(cur - last) / last * BPS_BASE else 0.0
  }

  function Advance(t: Tracker, cur: real, i: nat, minSwingBps: real): Tracker {
    if t.rising then
      if cur > t.price then t.(price := cur, index := i)
      else if DiffBps(t.price, cur) >= minSwingBps then
        Tracker(false, cur, i, t.peaks + [Peak(t.price, t.index, true)])
      else t
    else
      if cur < t.price then t.(price := cur, index := i)
      else if DiffBps(t.price, cur) >= minSwingBps then
        Tracker(true, cur, i, t.peaks + [Peak(t.price, t.index, false)])
      else t
  }

  /** The tracker after the first `n` prices. */
  ghost function Track(prices: seq<real>, minSwingBps: real, n: nat): Tracker
    requires 1 <= n <= |prices| && |prices| >= 2
  {
    if n == 1 then Tracker(prices[1] >= prices[0], prices[0], 0, [])
    else Advance(Track(prices, minSwingBps, n - 1), prices[n - 1], n - 1, minSwingBps)
  }

  ghost function Pivots(prices: seq<real>, minSwingBps: real): seq<Peak> {
    if |prices| < 2 then [] else Track(prices, minSwingBps, |prices|).peaks
  }

  method Calculate(prices: seq<real>, minSwingBps: real) returns (peaks: seq<Peak>)
    ensures peaks == Pivots(prices, minSwingBps)
  {
    if |prices| < 2 {
      return [];
    }
    peaks := [];
    var lastPeakPrice := prices[0];
    var lastPeakIdx := 0;
    var findingHigh := prices[1] >= prices[0];
    for i := 1 to |prices|
      invariant Track(prices, minSwingBps, i) == Tracker(findingHigh, lastPeakPrice, lastPeakIdx, peaks)
    {
      var cur := prices[i];
      var diffBps := DiffBps(lastPeakPrice, cur);
      if findingHigh {
        if cur > lastPeakPrice {
          lastPeakPrice, lastPeakIdx := cur, i;
        } else if diffBps >= minSwingBps {
          peaks := peaks + [Peak(lastPeakPrice, lastPeakIdx, true)];
          lastPeakPrice, lastPeakIdx := cur, i;
          findingHigh := false;
        }
      } else {
        if cur < lastPeakPrice {
          lastPeakPrice, lastPeakIdx := cur, i;
        } else if diffBps >= minSwingBps {
          peaks := peaks + [Peak(lastPeakPrice, lastPeakIdx, false)];
          lastPeakPrice, lastPeakIdx := cur, i;
          findingHigh := true;
        }
      }
    }
  }

  // ---------------------------------------------------------------- order of the pivots

  /** Pivots are prices of the series, at strictly increasing positions, alternately high and low. */
  ghost predicate Alternating(prices: seq<real>, peaks: seq<Peak>) {
    && (forall k :: 0 <= k < |peaks| ==> peaks[k].index < |prices| && peaks[k].price == prices[peaks[k].index])
    && (forall k :: 1 <= k < |peaks| ==> peaks[k - 1].index < peaks[k].index && peaks[k - 1].isHigh != peaks[k].isHigh)
  }

  ghost predicate Shape(prices: seq<real>, t: Tracker, n: nat) {
    && t.index < n <= |prices| && t.price == prices[t.index]
    && Alternating(prices, t.peaks)
    && (t.peaks != [] ==> var p := t.peaks[|t.peaks| - 1]; p.index < t.index && p.isHigh != t.rising)
  }

  lemma {:induction false} AdvanceKeepsShape(prices: seq<real>, minSwingBps: real, t: Tracker, n: nat)
    requires n < |prices| && Shape(prices, t, n)
    ensures Shape(prices, Advance(t, prices[n], n, minSwingBps), n + 1)
  {
    hide DiffBps;
    PushedAlternates(prices, t, n);
    hide Alternating;
  }

  lemma {:induction false} PushedAlternates(prices: seq<real>, t: Tracker, n: nat)
    requires Shape(prices, t, n)
    ensures Alternating(prices, t.peaks + [Peak(t.price, t.index, t.rising)])
  {
  }

  lemma {:induction false} TrackKeepsShape(prices: seq<real>, minSwingBps: real, n: nat)
    requires 1 <= n <= |prices| && |prices| >= 2
    ensures Shape(prices, Track(prices, minSwingBps, n), n)
    ensures Alternating(prices, Track(prices, minSwingBps, n).peaks)
    decreases n
  {
    if n > 1 {
      TrackKeepsShape(prices, minSwingBps, n - 1);
      AdvanceKeepsShape(prices, minSwingBps, Track(prices, minSwingBps, n - 1), n - 1);
      hide Advance;
    }
  }

  /** For every input whatever, highs and lows alternate at strictly increasing positions. */
  lemma {:induction false} PivotsAlternate(prices: seq<real>, minSwingBps: real)
    ensures Alternating(prices, Pivots(prices, minSwingBps))
  {
    if |prices| >= 2 {
      TrackKeepsShape(prices, minSwingBps, |prices|);
    }
  }

  // ---------------------------------------------------------------- size of the swings

  ghost predicate AllPositive(prices: seq<real>) {
    forall i :: 0 <= i < |prices| ==> prices[i] > 0.0
  }

  /** `p` moved up by the fraction `f`, and down by it. */
  ghost function Up(p: real, f: real): real {
    p + p * f
  }

  ghost function Down(p: real, f: real): real {
    p - p * f
  }

  lemma {:induction false} DiffReaches(last: real, cur: real, minSwingBps: real)
    requires last > 0.0
    ensures var f := minSwingBps / BPS_BASE;
      DiffBps(last, cur) >= minSwingBps <==> cur >= Up(last, f) || cur <= Down(last, f)
  {
  }

  lemma {:induction false} UpDown(p: real, q: real, f: real)
    requires p > 0.0 && f > 0.0
    ensures Down(p, f) < p < Up(p, f)
    ensures q <= Down(p, f) && q > 0.0 ==> Up(q, f) < p
    ensures Down(Up(p, f), f) < p
  {
  }

  /** Falling short of a swing from above Up(l) stays above the product of both moves. */
  lemma {:induction false} DipBound(l: real, p: real, cur: real, f: real)
    requires l > 0.0 && f > 0.0 && p >= Up(l, f) && cur > 0.0 && cur > Down(p, f)
    ensures cur >= Down(Up(l, f), f)
  {
  }

  ghost function From(peaks: seq<Peak>): nat {
    if peaks == [] then 0 else peaks[|peaks| - 1].index
  }

  /** Where the candidate stands among the prices since the last pivot. */
  ghost predicate Extreme(prices: seq<real>, f: real, t: Tracker, n: nat)
    requires n <= |prices|
  {
    var from := From(t.peaks);
    if t.rising then
      && (forall j :: from <= j < n ==> prices[j] <= t.price)
      && (forall j :: t.index <= j < n ==> prices[j] > Down(t.price, f))
      && (t.peaks != [] ==>
          var low := t.peaks[|t.peaks| - 1].price;
          t.price >= Up(low, f) && forall j :: from <= j < n ==> prices[j] >= Down(Up(low, f), f))
    else
      && (forall j :: from <= j < n ==> prices[j] >= t.price)
      && (forall j :: t.index <= j < n ==> prices[j] < Up(t.price, f))
      && (t.peaks != [] ==>
          var high := t.peaks[|t.peaks| - 1].price;
          t.price <= Down(high, f) && forall j :: from <= j < n ==> prices[j] <= high)
  }

  ghost function Before(peaks: seq<Peak>, k: nat): nat
    requires k < |peaks|
  {
    if k == 0 then 0 else peaks[k - 1].index
  }

  ghost function After(peaks: seq<Peak>, k: nat): nat
    requires k < |peaks|
  {
    if k + 1 < |peaks| then peaks[k + 1].index else peaks[k].index
  }

  /** Pivot `k` against the prices from the pivot before it to the pivot after it. */
  ghost predicate PivotOk(prices: seq<real>, f: real, peaks: seq<Peak>, k: nat)
    requires k < |peaks| && Alternating(prices, peaks)
  {
    var p := peaks[k];
    && (k > 0 ==> if p.isHigh then p.price >= Up(peaks[k - 1].price, f) else p.price <= Down(peaks[k - 1].price, f))
    && if p.isHigh then
         forall j :: Before(peaks, k) <= j <= After(peaks, k) ==> prices[j] <= p.price
       else
         && (forall j :: Before(peaks, k) <= j <= p.index ==> prices[j] >= p.price)
         && (forall j :: p.index <= j <= After(peaks, k) ==> prices[j] >= Down(Up(p.price, f), f))
  }

  ghost predicate AllOk(prices: seq<real>, f: real, peaks: seq<Peak>)
    requires Alternating(prices, peaks)
  {
    forall k :: 0 <= k < |peaks| ==> PivotOk(prices, f, peaks, k)
  }

  lemma {:induction false} MoveKeepsExtreme(prices: seq<real>, f: real, t: Tracker, n: nat)
    requires AllPositive(prices) && f > 0.0 && n < |prices| && Shape(prices, t, n) && Extreme(prices, f, t, n)
    requires if t.rising then prices[n] > t.price else prices[n] < t.price
    ensures Extreme(prices, f, t.(price := prices[n], index := n), n + 1)
  {
    UpDown(prices[n], prices[n], f);
    if t.peaks != [] {
      UpDown(t.peaks[|t.peaks| - 1].price, t.price, f);
    }
    hide Up, Down, Alternating;
  }

  lemma {:induction false} StayKeepsExtreme(prices: seq<real>, f: real, t: Tracker, n: nat)
    requires AllPositive(prices) && f > 0.0 && n < |prices| && Shape(prices, t, n) && Extreme(prices, f, t, n)
    requires if t.rising then Down(t.price, f) < prices[n] <= t.price else t.price <= prices[n] < Up(t.price, f)
    ensures Extreme(prices, f, t, n + 1)
  {
    if t.peaks != [] {
      var last := t.peaks[|t.peaks| - 1];
      if t.rising {
        DipBound(last.price, t.price, prices[n], f);
      } else {
        UpDown(last.price, t.price, f);
      }
    }
    hide Up, Down, Alternating;
  }

  lemma {:induction false} PushKeepsExtreme(prices: seq<real>, f: real, t: Tracker, n: nat)
    requires AllPositive(prices) && f > 0.0 && n < |prices| && Shape(prices, t, n) && Extreme(prices, f, t, n)
    requires if t.rising then prices[n] <= Down(t.price, f) else prices[n] >= Up(t.price, f)
    ensures Extreme(prices, f, Tracker(!t.rising, prices[n], n, t.peaks + [Peak(t.price, t.index, t.rising)]), n + 1)
  {
    UpDown(prices[n], prices[n], f);
    UpDown(t.price, prices[n], f);
    hide Up, Down, Alternating;
  }

  lemma {:induction false} PushKeepsPivots(prices: seq<real>, f: real, t: Tracker, n: nat)
    requires AllPositive(prices) && f > 0.0 && n <= |prices| && Shape(prices, t, n) && Extreme(prices, f, t, n)
    requires AllOk(prices, f, t.peaks)
    ensures var peaks := t.peaks + [Peak(t.price, t.index, t.rising)];
      Alternating(prices, peaks) && AllOk(prices, f, peaks)
  {
    var peaks := t.peaks + [Peak(t.price, t.index, t.rising)];
    UpDown(t.price, t.price, f);
    PushedAlternates(prices, t, n);
    hide Up, Down, Alternating;
    forall k | 0 <= k < |peaks| ensures PivotOk(prices, f, peaks, k) {
      if k < |t.peaks| {
        assert PivotOk(prices, f, t.peaks, k);
        assert Before(peaks, k) == Before(t.peaks, k);
      }
    }
  }

  lemma {:induction false} AdvanceKeepsPivots(prices: seq<real>, minSwingBps: real, f: real, t: Tracker, n: nat)
    requires AllPositive(prices) && minSwingBps > 0.0 && f == minSwingBps / BPS_BASE && n < |prices|
    requires Shape(prices, t, n) && Extreme(prices, f, t, n) && AllOk(prices, f, t.peaks)
    ensures var t' := Advance(t, prices[n], n, minSwingBps);
      Alternating(prices, t'.peaks) && Extreme(prices, f, t', n + 1) && AllOk(prices, f, t'.peaks)
  {
    var cur := prices[n];
    DiffReaches(t.price, cur, minSwingBps);
    UpDown(t.price, cur, f);
    hide Up, Down, DiffBps, Extreme, AllOk, Alternating;
    if (t.rising && cur > t.price) || (!t.rising && cur < t.price) {
      MoveKeepsExtreme(prices, f, t, n);
    } else if DiffBps(t.price, cur) >= minSwingBps {
      PushKeepsExtreme(prices, f, t, n);
      PushKeepsPivots(prices, f, t, n);
    } else {
      StayKeepsExtreme(prices, f, t, n);
    }
  }

  lemma {:induction false} FirstOk(prices: seq<real>, minSwingBps: real, f: real)
    requires AllPositive(prices) && f > 0.0 && |prices| >= 2
    ensures var t := Track(prices, minSwingBps, 1); Extreme(prices, f, t, 1) && AllOk(prices, f, t.peaks)
  {
  }

  lemma {:induction false} TrackKeepsPivots(prices: seq<real>, minSwingBps: real, n: nat)
    requires AllPositive(prices) && minSwingBps > 0.0 && 1 <= n <= |prices| && |prices| >= 2
    ensures var t, f := Track(prices, minSwingBps, n), minSwingBps / BPS_BASE;
      Alternating(prices, t.peaks) && Extreme(prices, f, t, n) && AllOk(prices, f, t.peaks)
    decreases n
  {
    hide Shape, Extreme, AllOk, Advance, Alternating;
    var f := minSwingBps / BPS_BASE;
    TrackKeepsShape(prices, minSwingBps, n);
    if n == 1 {
      FirstOk(prices, minSwingBps, f);
    } else {
      TrackKeepsShape(prices, minSwingBps, n - 1);
      TrackKeepsPivots(prices, minSwingBps, n - 1);
      AdvanceKeepsPivots(prices, minSwingBps, f, Track(prices, minSwingBps, n - 1), n - 1);
    }
  }

  /**
   * For positive prices and a positive minimum swing, each pivot is at least that swing away from
   * the one before it. A high is the maximum of all prices from the low before it to the low after
   * it. A low is the minimum back to the high before it, and up to the high after it no price
   * falls below it by more than the square of the swing fraction.
   */
  lemma {:induction false} PivotsAreExtremes(prices: seq<real>, minSwingBps: real)
    requires AllPositive(prices) && minSwingBps > 0.0
    ensures Alternating(prices, Pivots(prices, minSwingBps))
    ensures AllOk(prices, minSwingBps / BPS_BASE, Pivots(prices, minSwingBps))
  {
    if |prices| >= 2 {
      TrackKeepsPivots(prices, minSwingBps, |prices|);
    }
  }

  /** A low need not be the minimum up to the next high: here 89.5 follows the low 90. */
  lemma {:induction false} LowsAreNotMinima()
    ensures Pivots([100.0, 110.0, 90.0, 99.0, 89.5, 120.0, 100.0], 1000.0) ==
      [Peak(110.0, 1, true), Peak(90.0, 2, false), Peak(120.0, 5, true)]
  {
    var prices, m := [100.0, 110.0, 90.0, 99.0, 89.5, 120.0, 100.0], 1000.0;
    assert Track(prices, m, 1) == Tracker(true, 100.0, 0, []);
    assert Track(prices, m, 2) == Tracker(true, 110.0, 1, []);
    assert DiffBps(110.0, 90.0) >= m && DiffBps(90.0, 99.0) >= m;
    assert DiffBps(99.0, 89.5) < m && DiffBps(120.0, 100.0) >= m;
    hide DiffBps;
    var high, low := Peak(110.0, 1, true), Peak(90.0, 2, false);
    assert Track(prices, m, 3) == Tracker(false, 90.0, 2, [high]);
    assert Track(prices, m, 4) == Tracker(true, 99.0, 3, [high, low]);
    assert Track(prices, m, 5) == Tracker(true, 99.0, 3, [high, low]);
    assert Track(prices, m, 6) == Tracker(true, 120.0, 5, [high, low]);
    assert Track(prices, m, 7) == Tracker(false, 100.0, 6, [high, low, Peak(120.0, 5, true)]);
  }

  // ---------------------------------------------------------------- when a low is a minimum

  lemma {:induction false} TrackOfLonger(prices: seq<real>, more: seq<real>, minSwingBps: real, n: nat)
    requires 1 <= n <= |prices| && |prices| >= 2
    ensures Track(prices + more, minSwingBps, n) == Track(prices, minSwingBps, n)
    decreases n
  {
    if n > 1 {
      TrackOfLonger(prices, more, minSwingBps, n - 1);
    }
  }

  /** Up to the next high, if it comes, no later price is below the last low found so far. */
  ghost predicate LowHolds(prices: seq<real>, more: seq<real>, minSwingBps: real, k: nat, low: real) {
    var peaks := Pivots(prices + more, minSwingBps);
    k + 1 < |peaks| ==> NoneBelow(prices + more, |prices|, peaks[k + 1].index + 1, low)
  }

  ghost predicate NoneBelow(prices: seq<real>, a: nat, b: nat, low: real) {
    forall j :: a <= j < b && j < |prices| ==> prices[j] >= low
  }

  /** Still no new pivot and nothing below the low; or the next high has come, and nothing was below until then. */
  ghost predicate Sheltered(all: seq<real>, t: Tracker, a: nat, n: nat, k: nat, low: real, floor: real) {
    if |t.peaks| == k + 1 then t.rising && t.price >= floor && t.index < n && NoneBelow(all, a, n, low)
    else |t.peaks| > k + 1 && NoneBelow(all, a, t.peaks[k + 1].index + 1, low)
  }

  lemma {:induction false} ShelterHolds(prices: seq<real>, more: seq<real>, minSwingBps: real, n: nat, k: nat, low: real,
      floor: real)
    requires |prices| >= 2 && AllPositive(prices) && AllPositive(more) && minSwingBps > 0.0
    requires |prices| <= n <= |prices| + |more|
    requires var t := Track(prices, minSwingBps, |prices|); t.rising && |t.peaks| == k + 1 && t.price >= floor > 0.0
    requires minSwingBps / BPS_BASE < 1.0 && Down(floor, minSwingBps / BPS_BASE) >= low
    ensures Sheltered(prices + more, Track(prices + more, minSwingBps, n), |prices|, n, k, low, floor)
    decreases n
  {
    hide Down, Up, DiffBps, NoneBelow;
    var all, f := prices + more, minSwingBps / BPS_BASE;
    if n == |prices| {
      TrackOfLonger(prices, more, minSwingBps, n);
      TrackKeepsShape(prices, minSwingBps, n);
      NothingThere(all, n, low);
    } else {
      ShelterHolds(prices, more, minSwingBps, n - 1, k, low, floor);
      var t, cur := Track(all, minSwingBps, n - 1), all[n - 1];
      if |t.peaks| == k + 1 {
        DiffReaches(t.price, cur, minSwingBps);
        UpDown(t.price, cur, f);
        DownGrows(floor, t.price, f);
        OneMoreAbove(all, |prices|, n - 1, low);
        FewerAbove(all, |prices|, t.index + 1, n - 1, low);
      }
    }
  }

  lemma {:induction false} NothingThere(prices: seq<real>, a: nat, low: real)
    ensures NoneBelow(prices, a, a, low)
  {
  }

  lemma {:induction false} OneMoreAbove(prices: seq<real>, a: nat, n: nat, low: real)
    requires n < |prices|
    ensures NoneBelow(prices, a, n, low) && prices[n] >= low ==> NoneBelow(prices, a, n + 1, low)
  {
  }

  lemma {:induction false} FewerAbove(prices: seq<real>, a: nat, b: nat, n: nat, low: real)
    requires b <= n
    ensures NoneBelow(prices, a, n, low) ==> NoneBelow(prices, a, b, low)
  {
  }

  lemma {:induction false} DownGrows(p: real, q: real, f: real)
    requires p <= q && f < 1.0
    ensures Down(p, f) <= Down(q, f)
  {
    ProductNonNegative(q - p, 1.0 - f);
    assert (q - p) * (1.0 - f) == Down(q, f) - Down(p, f);
  }

  lemma {:induction false} DownIsNegative(p: real, f: real)
    requires p > 0.0 && f >= 1.0
    ensures Down(p, f) <= 0.0
  {
    ProductNonNegative(p, f - 1.0);
    assert p * (f - 1.0) == -Down(p, f);
  }

  /** With a swing of the whole price no high can be confirmed. */
  lemma {:induction false} NoHighEver(prices: seq<real>, more: seq<real>, minSwingBps: real, n: nat, k: nat)
    requires |prices| >= 2 && AllPositive(prices) && AllPositive(more) && minSwingBps / BPS_BASE >= 1.0
    requires |prices| <= n <= |prices| + |more|
    requires var t := Track(prices, minSwingBps, |prices|); t.rising && |t.peaks| == k + 1 && t.price > 0.0
    ensures var t := Track(prices + more, minSwingBps, n); t.rising && |t.peaks| == k + 1 && t.price > 0.0
    decreases n
  {
    hide Up, Down, DiffBps;
    var all, f := prices + more, minSwingBps / BPS_BASE;
    if n == |prices| {
      TrackOfLonger(prices, more, minSwingBps, n);
    } else {
      NoHighEver(prices, more, minSwingBps, n - 1, k);
      var t, cur := Track(all, minSwingBps, n - 1), all[n - 1];
      DiffReaches(t.price, cur, minSwingBps);
      UpDown(t.price, cur, f);
      DownIsNegative(t.price, f);
    }
  }

  /** Half-way between the turning point and the low, then twice the candidate, then down by the swing. */
  lemma {:induction false} LowUndercut(prices: seq<real>, minSwingBps: real, t: Tracker, low: real) returns (more: seq<real>)
    requires |prices| >= 2 && AllPositive(prices) && minSwingBps > 0.0 && t == Track(prices, minSwingBps, |prices|)
    requires t.rising && t.peaks != [] && t.price > 0.0 && low < t.price
    requires minSwingBps / BPS_BASE < 1.0 && Down(t.price, minSwingBps / BPS_BASE) < low
    ensures AllPositive(more) && !LowHolds(prices, more, minSwingBps, |t.peaks| - 1, low)
  {
    hide DiffBps, Up, Down;
    var f, n := minSwingBps / BPS_BASE, |prices|;
    var dip, top := (Down(t.price, f) + low) / 2.0, t.price + t.price;
    var end := Down(top, f);
    more := [dip, top, end];
    var all := prices + more;
    DownIsPositive(t.price, f);
    DownIsPositive(top, f);
    TrackOfLonger(prices, more, minSwingBps, n);
    DiffReaches(t.price, dip, minSwingBps);
    UpDown(t.price, dip, f);
    assert all[n] == dip && all[n + 1] == top && all[n + 2] == end;
    assert Track(all, minSwingBps, n + 1) == t;
    assert Track(all, minSwingBps, n + 2) == t.(price := top, index := n + 1);
    DiffReaches(top, end, minSwingBps);
    UpDown(top, end, f);
    assert Track(all, minSwingBps, n + 3).peaks == t.peaks + [Peak(top, n + 1, true)];
    assert |all| == n + 3 && all[n] < low;
    assert !NoneBelow(all, n, n + 2, low);
  }

  lemma {:induction false} DownIsPositive(p: real, f: real)
    requires p > 0.0 && f < 1.0
    ensures Down(p, f) > 0.0
  {
    ProductPositive(p, 1.0 - f);
    assert p * (1.0 - f) == Down(p, f);
  }

  lemma {:induction false} ProductPositive(a: real, b: real)
    requires a > 0.0 && b > 0.0
    ensures a * b > 0.0
  {
  }

  /**
   * While a high is being looked for, the low before it is safe from every continuation exactly
   * when a whole swing down from the current candidate does not reach below it (or a swing is the
   * whole price, so that no high can follow).
   */
  lemma {:induction false} LowIsSafeIff(prices: seq<real>, minSwingBps: real)
    requires |prices| >= 2 && AllPositive(prices) && minSwingBps > 0.0
    requires var t := Track(prices, minSwingBps, |prices|); t.rising && t.peaks != []
    ensures var t, f := Track(prices, minSwingBps, |prices|), minSwingBps / BPS_BASE;
      var k := |t.peaks| - 1;
      (forall more :: AllPositive(more) ==> LowHolds(prices, more, minSwingBps, k, t.peaks[k].price)) <==>
        f >= 1.0 || Down(t.price, f) >= t.peaks[k].price
  {
    hide LowHolds, Down, Up, Extreme, Track, Alternating;
    var t, f := Track(prices, minSwingBps, |prices|), minSwingBps / BPS_BASE;
    var k := |t.peaks| - 1;
    var low := t.peaks[k].price;
    RisesAboveLow(prices, minSwingBps);
    if f >= 1.0 || Down(t.price, f) >= low {
      forall more | AllPositive(more) ensures LowHolds(prices, more, minSwingBps, k, low) {
        SafeFrom(prices, more, minSwingBps, t, low);
      }
    } else {
      var more := LowUndercut(prices, minSwingBps, t, low);
    }
  }

  lemma {:induction false} RisesAboveLow(prices: seq<real>, minSwingBps: real)
    requires |prices| >= 2 && AllPositive(prices) && minSwingBps > 0.0
    ensures var t := Track(prices, minSwingBps, |prices|); t.rising && t.peaks != [] ==>
      t.price > t.peaks[|t.peaks| - 1].price > 0.0
  {
    hide Track, Up, DiffBps;
    var t, f := Track(prices, minSwingBps, |prices|), minSwingBps / BPS_BASE;
    TrackKeepsShape(prices, minSwingBps, |prices|);
    TrackKeepsPivots(prices, minSwingBps, |prices|);
    if t.rising && t.peaks != [] {
      UpDown(t.peaks[|t.peaks| - 1].price, t.price, f);
    }
  }

  lemma {:induction false} SafeFrom(prices: seq<real>, more: seq<real>, minSwingBps: real, t: Tracker, low: real)
    requires |prices| >= 2 && AllPositive(prices) && AllPositive(more) && minSwingBps > 0.0
    requires t == Track(prices, minSwingBps, |prices|) && t.rising && t.peaks != [] && t.price > 0.0
    requires minSwingBps / BPS_BASE >= 1.0 || Down(t.price, minSwingBps / BPS_BASE) >= low
    ensures LowHolds(prices, more, minSwingBps, |t.peaks| - 1, low)
  {
    hide Track, Down, NoneBelow;
    if minSwingBps / BPS_BASE >= 1.0 {
      NoHighEver(prices, more, minSwingBps, |prices| + |more|, |t.peaks| - 1);
    } else {
      ShelterHolds(prices, more, minSwingBps, |prices| + |more|, |t.peaks| - 1, low, t.price);
    }
  }
}
