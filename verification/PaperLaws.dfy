/** What holds over every run of the paper executor: nothing is lost, and every fill has its closes. */
module PaperLaws {
  import opened Domain
  import opened Trading
  import opened PaperModel

  // ---------------------------------------------------------------- totals of one ticker

  ghost function Bought(log: seq<Event>, ticker: Ticker, n: nat): real
    requires n <= |log|
  {
    if n == 0 then 0.0
    else
      var before := Bought(log, ticker, n - 1);
      if log[n - 1].Opened? && TickerOf(log[n - 1]) == ticker then before + log[n - 1].position.executedSize else before
  }

  ghost function Dismissed(log: seq<Event>, ticker: Ticker, n: nat): real
    requires n <= |log|
  {
    if n == 0 then 0.0
    else
      var before := Dismissed(log, ticker, n - 1);
      if log[n - 1].Dropped? && TickerOf(log[n - 1]) == ticker then before + log[n - 1].position.executedSize else before
  }

  /** Size closed and profit booked by a list of closed trades. */
  ghost function Sold(trades: seq<ClosedTrade>, ticker: Ticker, n: nat): real
    requires n <= |trades|
  {
    if n == 0 then 0.0
    else
      var before := Sold(trades, ticker, n - 1);
      if trades[n - 1].plan.ticker == ticker then before + trades[n - 1].sizeFilled else before
  }

  ghost function Profit(trades: seq<ClosedTrade>, ticker: Ticker, n: nat): real
    requires n <= |trades|
  {
    if n == 0 then 0.0
    else
      var before := Profit(trades, ticker, n - 1);
      if trades[n - 1].plan.ticker == ticker then before + trades[n - 1].pnlUsd else before
  }

  /** Money that goes out when this much is taken on; it comes in for a short. */
  ghost function Cost(side: Side, price: real, size: real): real {
    if side == Buy then Value(price, size) else -Value(price, size)
  }

  ghost function CostOf(p: Option<Position>): real {
    if p.Some? then Cost(p.value.plan.side, p.value.avgPrice, p.value.executedSize) else 0.0
  }

  ghost function SizeOf(p: Option<Position>): real {
    if p.Some? then p.value.executedSize else 0.0
  }

  /** Net money received from the fills of a ticker, by the prices they really had. */
  ghost function Cash(log: seq<Event>, ticker: Ticker, n: nat): real
    requires n <= |log|
  {
    if n == 0 then 0.0
    else
      var before := Cash(log, ticker, n - 1);
      if TickerOf(log[n - 1]) == ticker then before + CashOf(log[n - 1]) else before
  }

  ghost function CashOf(e: Event): real {
    match e
    case Opened(p) => -Cost(p.plan.side, p.avgPrice, p.executedSize)
    case Closing(t) => Cost(t.plan.side, t.exitPrice, t.sizeFilled)
    case Dropped(_) => 0.0
  }

  /** Cost basis of positions that were dropped without a fill. */
  ghost function WrittenOff(log: seq<Event>, ticker: Ticker, n: nat): real
    requires n <= |log|
  {
    if n == 0 then 0.0
    else
      var before := WrittenOff(log, ticker, n - 1);
      if log[n - 1].Dropped? && TickerOf(log[n - 1]) == ticker then before + CostOf(Some(log[n - 1].position)) else before
  }

  // ---------------------------------------------------------------- conservation

  lemma {:induction false} SoldPrefix(trades: seq<ClosedTrade>, t: ClosedTrade, ticker: Ticker, n: nat)
    requires n <= |trades|
    ensures Sold(trades + [t], ticker, n) == Sold(trades, ticker, n)
    ensures Profit(trades + [t], ticker, n) == Profit(trades, ticker, n)
  {
    if n > 0 {
      SoldPrefix(trades, t, ticker, n - 1);
    }
  }

  lemma {:induction false} EventMoves(p: Option<Position>, e: Event)
    requires Fits(p, e)
    ensures e.Opened? ==> SizeOf(After(p, e)) == SizeOf(p) + e.position.executedSize
    ensures e.Closing? ==> SizeOf(After(p, e)) == SizeOf(p) - e.trade.sizeFilled
    ensures e.Dropped? ==> SizeOf(After(p, e)) == SizeOf(p) - e.position.executedSize
  {
  }

  lemma {:induction false} EventPays(p: Option<Position>, e: Event)
    requires Fits(p, e)
    ensures CostOf(After(p, e)) == CostOf(p) - CashOf(e)
      + (if e.Closing? then e.trade.pnlUsd else 0.0) - (if e.Dropped? then CostOf(p) else 0.0)
  {
  }

  /**
   * In every run, per ticker: size filled is size closed, dropped and still open; booked profit is
   * net cash plus the cost basis of what is still open or was dropped.
   */
  lemma {:induction false} Conservation(log: seq<Event>, ticker: Ticker, n: nat)
    requires Lawful(log) && n <= |log|
    ensures var trades, p := Trades(log, n), Held(log, ticker, n);
      && Bought(log, ticker, n) == Sold(trades, ticker, |trades|) + Dismissed(log, ticker, n) + SizeOf(p)
      && Profit(trades, ticker, |trades|) == Cash(log, ticker, n) + WrittenOff(log, ticker, n) + CostOf(p)
  {
    hide CashOf, CostOf, SizeOf, Fits, After, Lawful;
    if n == 0 {
      NothingHeld();
    } else {
      var e, p := log[n - 1], Held(log, ticker, n - 1);
      Conservation(log, ticker, n - 1);
      LawfulAt(log, n - 1);
      if TickerOf(e) == ticker {
        EventMoves(p, e);
        EventPays(p, e);
      }
      if e.Closing? {
        SoldPrefix(Trades(log, n - 1), e.trade, ticker, |Trades(log, n - 1)|);
      }
      if e.Dropped? && TickerOf(e) == ticker {
        DroppedIsHeld(p, e);
      }
    }
  }

  lemma {:induction false} NothingHeld()
    ensures SizeOf(None) == 0.0 && CostOf(None) == 0.0
  {
  }

  lemma {:induction false} LawfulAt(log: seq<Event>, i: nat)
    requires Lawful(log) && i < |log|
    ensures Fits(Held(log, TickerOf(log[i]), i), log[i])
  {
  }

  lemma {:induction false} DroppedIsHeld(p: Option<Position>, e: Event)
    requires Fits(p, e) && e.Dropped?
    ensures p == Some(e.position)
  {
  }

  // ---------------------------------------------------------------- the life of a fill

  /** Closes of a ticker among the events from `a` up to `b`. */
  ghost function Closes(log: seq<Event>, ticker: Ticker, a: nat, b: nat): seq<ClosedTrade>
    requires b <= |log|
    decreases b
  {
    if b <= a then []
    else
      var before := Closes(log, ticker, a, b - 1);
      if log[b - 1].Closing? && TickerOf(log[b - 1]) == ticker then before + [log[b - 1].trade] else before
  }

  /** Whole, or reduced once at the target, or gone after one or two closes. */
  ghost predicate Life(start: Position, closes: seq<ClosedTrade>, p: Option<Position>) {
    || (closes == [] && p == Some(start))
    || (|closes| == 1 && Partial(closes[0].plan, closes[0].reason)
        && closes[0].sizeFilled == start.executedSize * start.plan.tp1SizeRatio
        && p == Some(Rest(start, closes[0].sizeFilled)))
    || (|closes| == 1 && closes[0].sizeFilled == start.executedSize && p == None)
    || (|closes| == 2 && Partial(closes[0].plan, closes[0].reason) && closes[1].reason != ByTarget
        && closes[0].sizeFilled + closes[1].sizeFilled == start.executedSize && p == None)
  }

  lemma {:induction false} LifeGoesOn(start: Position, closes: seq<ClosedTrade>, p: Option<Position>, t: ClosedTrade)
    requires Life(start, closes, p) && Fits(p, Closing(t))
    ensures Life(start, closes + [t], After(p, Closing(t)))
  {
  }

  /**
   * From a fill on, until the ticker is filled again or dropped: at most two closes, the first of
   * two a partial target exit and the second no target exit, of sizes that sum to the filled size.
   */
  lemma {:induction false} FillHasItsCloses(log: seq<Event>, i: nat, j: nat)
    requires Lawful(log) && i < j <= |log| && log[i].Opened?
    requires forall k :: i < k < j && TickerOf(log[k]) == TickerOf(log[i]) ==> log[k].Closing?
    ensures Life(log[i].position, Closes(log, TickerOf(log[i]), i + 1, j), Held(log, TickerOf(log[i]), j))
    decreases j
  {
    hide Fits, After, Life, Lawful;
    var ticker := TickerOf(log[i]);
    if j == i + 1 {
      LifeStarts(Held(log, ticker, i), log[i]);
    } else {
      FillHasItsCloses(log, i, j - 1);
      if TickerOf(log[j - 1]) == ticker {
        LawfulAt(log, j - 1);
        assert log[j - 1] == Closing(log[j - 1].trade);
        LifeGoesOn(log[i].position, Closes(log, ticker, i + 1, j - 1), Held(log, ticker, j - 1), log[j - 1].trade);
      }
    }
  }

  lemma {:induction false} LifeStarts(p: Option<Position>, e: Event)
    requires e.Opened?
    ensures Life(e.position, [], After(p, e))
  {
  }

  /** A ticker is filled again only once its last position is gone. */
  lemma {:induction false} NeverOverwritten(log: seq<Event>, i: nat, j: nat)
    requires Lawful(log) && i < j < |log| && log[i].Opened? && log[j].Opened? && TickerOf(log[i]) == TickerOf(log[j])
    requires forall k :: i < k < j && TickerOf(log[k]) == TickerOf(log[i]) ==> log[k].Closing?
    ensures Sold(Closes(log, TickerOf(log[i]), i + 1, j), TickerOf(log[i]), |Closes(log, TickerOf(log[i]), i + 1, j)|)
      == log[i].position.executedSize
  {
    var c, ticker := Closes(log, TickerOf(log[i]), i + 1, j), TickerOf(log[i]);
    FillHasItsCloses(log, i, j);
    LawfulAt(log, j);
    ClosesOfTicker(log, ticker, i + 1, j);
    assert |c| == 1 || |c| == 2;
    assert Sold(c, ticker, 1) == c[0].sizeFilled;
  }

  lemma {:induction false} ClosesOfTicker(log: seq<Event>, ticker: Ticker, a: nat, b: nat)
    requires b <= |log|
    ensures forall t :: t in Closes(log, ticker, a, b) ==> t.plan.ticker == ticker
    decreases b
  {
    if a < b {
      ClosesOfTicker(log, ticker, a, b - 1);
    }
  }

  // ---------------------------------------------------------------- prices

  /** A fill moves stop and targets with the entry: distances in price survive slippage and gaps. */
  lemma {:induction false} FillKeepsDistances(plan: TradePlan, price: real, now: int)
    ensures var p := Opening(plan, price, now).plan;
      && p.entryPrice - p.stopPrice == plan.entryPrice - plan.stopPrice
      && (plan.tp1Price > 0.0 ==> p.tp1Price - p.entryPrice == plan.tp1Price - plan.entryPrice)
      && (plan.tp2Price.Some? ==> p.tp2Price.Some? && p.tp2Price.value - p.entryPrice == plan.tp2Price.value - plan.entryPrice)
  {
  }

  predicate WithinLimit(plan: TradePlan, q: Quote) {
    (plan.side == Buy && q.ask <= plan.entryPrice) || (plan.side == Sell && q.bid >= plan.entryPrice)
  }

  predicate StopReached(p: Position, q: Quote) {
    if p.plan.side == Buy then q.bid <= p.plan.stopPrice else q.ask >= p.plan.stopPrice
  }

  predicate TargetReached(p: Position, q: Quote) {
    p.plan.tp1Price > 0.0 && if p.plan.side == Buy then q.ask >= p.plan.tp1Price else q.bid <= p.plan.tp1Price
  }

  /** Every fill is at the touch: the protection against gaps never finds a better price than the limit allows. */
  lemma {:induction false} FillsAtTheTouch(plan: TradePlan, q: Quote)
    ensures var touch, price := if plan.side == Buy then q.ask else q.bid, FillPrice(plan, q);
      && (price.Some? ==> price.value == touch)
      && (price.Some? <==> (plan.entryType == Market || WithinLimit(plan, q)))
  {
  }

  /**
   * A long leaves at the bid and a short at the ask, except at the target, where the order is taken
   * to be filled by the other side; a stop that is reached goes before everything else.
   */
  lemma {:induction false} ExitsAtTheQuote(p: Position, books: Quotes, now: int)
    ensures var exit := Due(p, books, now);
      exit.Some? ==>
        var q := books[p.plan.ticker];
        && exit.value.price == (if (p.plan.side == Buy) == (exit.value.reason != ByTarget) then q.bid else q.ask)
        && (exit.value.reason == ByStop <==> StopReached(p, q))
        && (exit.value.reason == ByTarget <==> !StopReached(p, q) && TargetReached(p, q))
  {
    hide NoProgress, TooLittleFollowThrough, Seconds;
  }

  /** Once the target has paid, the stop of the rest never books a profit. */
  lemma {:induction false} RestNeverGainsAtStop(p: Position, sold: real, books: Quotes, now: int, bps: real)
    requires bps >= 0.0 && p.executedSize - sold >= 0.0
    ensures var rest := Rest(p, sold); var exit := Due(rest, books, now);
      exit.Some? && exit.value.reason == ByStop ==>
        Settle(rest, exit.value, bps).pnlUsd <= 0.0 && Settle(rest, exit.value, bps).sizeFilled == rest.executedSize
  {
    var rest := Rest(p, sold);
    var exit := Due(rest, books, now);
    if exit.Some? && exit.value.reason == ByStop {
      ExitsAtTheQuote(rest, books, now);
      var t := Settle(rest, exit.value, bps);
      SlippageHurts(exit.value.price, bps);
      hide Due, Slipped;
      NoGain(if rest.plan.side == Buy then t.exitPrice - t.entryPrice else t.entryPrice - t.exitPrice, rest.executedSize);
    }
  }

  lemma {:induction false} SlippageHurts(price: real, bps: real)
    requires price >= 0.0 && bps >= 0.0
    ensures Slipped(price, bps, false) <= price <= Slipped(price, bps, true)
  {
    assert price * (bps / 10000.0) >= 0.0;
  }

  lemma {:induction false} NoGain(perCoin: real, size: real)
    requires perCoin <= 0.0 && size >= 0.0
    ensures Value(perCoin, size) <= 0.0
  {
  }
}
