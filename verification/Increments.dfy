/** Sizes in whole increments of the exchange. */
module Increments {
  datatype TickerMeta = TickerMeta(priceIncrement: real, sizeIncrement: real, minSize: real)

  const DEFAULT_META := TickerMeta(0.01, 0.000001, 0.0)

  function Steps(k: int, inc: real): real {
    k as real * inc
  }

  ghost predicate WholeSteps(size: real, inc: real) {
    exists k :: size == Steps(k, inc)
  }

  /** Sizes are rounded only where price and size both come in increments. */
  predicate Stepped(meta: TickerMeta) {
    meta.priceIncrement > 0.0 && meta.sizeIncrement > 0.0
  }

  /** A billionth of an increment. */
  function Slack(meta: TickerMeta): real {
    if meta.sizeIncrement > 0.0 then 0.000000001 * meta.sizeIncrement else 0.0
  }

  /** Whole increments, forgiving a shortfall of one billionth of an increment. */
  function Whole(x: real, inc: real): real
    requires inc > 0.0
  {
    Steps((x / inc + 0.000000001).Floor, inc)
  }

  lemma {:induction false} Scale(y: real, c: real, inc: real)
    requires inc > 0.0 && y <= c
    ensures y * inc <= c * inc
  {
  }

  lemma {:induction false} ScaleStrictly(y: real, c: real, inc: real)
    requires inc > 0.0 && y < c
    ensures y * inc < c * inc
  {
  }

  lemma {:induction false} Quotient(x: real, inc: real)
    requires inc != 0.0
    ensures x / inc * inc == x
  {
  }

  lemma {:induction false} Spread(a: real, b: real, inc: real)
    ensures (a + b) * inc == a * inc + b * inc
  {
  }

  lemma {:induction false} SpreadLess(a: real, b: real, inc: real)
    ensures (a - b) * inc == a * inc - b * inc
  {
  }

  /** Rounding loses less than one increment and gains at most a billionth of one. */
  lemma {:induction false} WholeBounds(x: real, inc: real)
    requires inc > 0.0
    ensures x - inc < Whole(x, inc)
    ensures Whole(x, inc) <= x + 0.000000001 * inc
    ensures WholeSteps(Whole(x, inc), inc)
  {
    var q, e := x / inc, 0.000000001;
    var k := (q + e).Floor;
    Quotient(x, inc);
    Spread(q, e, inc);
    var r := k as real;
    Scale(r, q + e, inc);
    ScaleStrictly(q, r + 1.0, inc);
    Spread(r, 1.0, inc);
    assert Whole(x, inc) == Steps(k, inc) == r * inc;
  }

  /** Below a whole number of increments, rounding does not pass it. */
  lemma {:induction false} WholeStaysBelow(x: real, k: int, inc: real)
    requires inc > 0.0 && x < Steps(k, inc)
    ensures Whole(x, inc) <= Steps(k, inc)
  {
    QuotientBelow(x, k as real, inc);
    var j := (x / inc + 0.000000001).Floor;
    assert j <= k;
    Scale(j as real, k as real, inc);
  }

  lemma {:induction false} QuotientBelow(x: real, k: real, inc: real)
    requires inc > 0.0 && x < k * inc
    ensures x / inc < k
  {
  }

  lemma {:induction false} SlackOf(meta: TickerMeta)
    requires meta.sizeIncrement > 0.0
    ensures Slack(meta) == 0.000000001 * meta.sizeIncrement
  {
  }

  lemma {:induction false} SlackNonNegative(meta: TickerMeta, d: real)
    requires d >= 0.0
    ensures Slack(meta) * d >= 0.0
  {
  }
}
