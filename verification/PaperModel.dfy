/** What paper trading computes, and the ledger that explains its positions. */
module PaperModel {
  import opened Domain
  import opened Trading

  datatype Position = Position(plan: TradePlan, executedSize: real, avgPrice: real, openedAt: int)

  datatype Reason = ByStop | ByTarget | ByNoProgress | ByFollowThrough | Requested(text: string)

  datatype ClosedTrade = ClosedTrade(
    plan: TradePlan, entryPrice: real, exitPrice: real, sizeFilled: real, pnlUsd: real, reason: Reason)

  /** Best prices of a book, 0 where a side is empty. */
  datatype Quote = Quote(bid: real, ask: real)

  type Quotes = map<Ticker, Quote>

  type Positions = map<Ticker, Position>

  function Lookup<V>(m: map<Ticker, V>, ticker: Ticker): Option<V> {
    if ticker in m then Some(m[ticker]) else None
  }

  /** Only this ticker's entry may differ. */
  ghost predicate OnlyAt(ticker: Ticker, before: Positions, after: Positions) {
    forall t :: t != ticker ==> Lookup(after, t) == Lookup(before, t)
  }

  // ---------------------------------------------------------------- entries

  function Slipped(price: real, bps: real, up: bool): real {
    var slip := price * (bps / 10000.0);
    if up then price + slip else price - slip
  }

  /** The price before slippage at which a plan fills now, if it does. */
  function FillPrice(plan: TradePlan, q: Quote): Option<real> {
    if plan.entryType == Market then Some(if plan.side == Buy then q.ask else q.bid)
    else if plan.side == Buy && q.ask <= plan.entryPrice then Some(Min(plan.entryPrice, q.ask))
    else if plan.side == Sell && q.bid >= plan.entryPrice then Some(Max(plan.entryPrice, q.bid))
    else None
  }

  function Filled(plan: TradePlan, books: Quotes): Option<real> {
    if plan.ticker in books && books[plan.ticker].bid != 0.0 && books[plan.ticker].ask != 0.0
    then FillPrice(plan, books[plan.ticker]) else None
  }

  /** The position a fill opens; stop and targets move with the fill. */
  function Opening(plan: TradePlan, price: real, now: int): Position {
    var shift := price - plan.entryPrice;
    var adjusted := if shift == 0.0 then plan else plan.(
      entryPrice := price, stopPrice := plan.stopPrice + shift,
      tp1Price := if plan.tp1Price > 0.0 then plan.tp1Price + shift else plan.tp1Price,
      tp2Price := if plan.tp2Price.Some? then Some(plan.tp2Price.value + shift) else None);
    Position(adjusted, plan.sizeCoin, price, now)
  }

  /** A plan leaves the queue when it has expired or fills. */
  predicate Leaves(plan: TradePlan, now: int, books: Quotes) {
    now > plan.validUntil || Filled(plan, books).Some?
  }

  /** Plans of these tickers that leave are gone; the others stay in their order. */
  function Waiting(plans: seq<TradePlan>, tickers: set<Ticker>, now: int, books: Quotes, n: nat): (r: seq<TradePlan>)
    requires n <= |plans|
    ensures |r| <= n
  {
    if n == 0 then []
    else
      var p, rest := plans[n - 1], Waiting(plans, tickers, now, books, n - 1);
      if p.ticker in tickers && Leaves(p, now, books) then rest else rest + [p]
  }

  lemma {:induction false} WaitingAre(plans: seq<TradePlan>, tickers: set<Ticker>, now: int, books: Quotes, n: nat,
      p: TradePlan)
    requires n <= |plans|
    ensures p in Waiting(plans, tickers, now, books, n) <==> p in plans[..n] && !(p.ticker in tickers && Leaves(p, now, books))
  {
    hide Leaves;
    if n > 0 {
      WaitingAre(plans, tickers, now, books, n - 1, p);
      assert plans[..n] == plans[..n - 1] + [plans[n - 1]];
    }
  }

  /** The position of a ticker after its queued plans had their turn: the first fill wins, if there was none. */
  function Entered(before: Option<Position>, plans: seq<TradePlan>, ticker: Ticker, now: int, books: Quotes, bps: real, n: nat):
    Option<Position>
    requires n <= |plans|
  {
    if n == 0 then before
    else
      var p, sofar := plans[n - 1], Entered(before, plans, ticker, now, books, bps, n - 1);
      if sofar.Some? || p.ticker != ticker || now > p.validUntil || Filled(p, books) == None then sofar
      else Some(Opening(p, Slipped(Filled(p, books).value, bps, p.side == Buy), now))
  }

  lemma {:induction false} WaitingTwice(plans: seq<TradePlan>, s: set<Ticker>, t: set<Ticker>, now: int, books: Quotes, n: nat)
    requires n <= |plans|
    ensures var r := Waiting(plans, s, now, books, n);
      Waiting(r, t, now, books, |r|) == Waiting(plans, s + t, now, books, n)
  {
    hide Leaves;
    if n > 0 {
      var p, q, r := plans[n - 1], Waiting(plans, s, now, books, n - 1), Waiting(plans, s, now, books, n);
      WaitingTwice(plans, s, t, now, books, n - 1);
      if !(p.ticker in s && Leaves(p, now, books)) {
        WaitingPrefix(q, p, t, now, books, |q|);
        assert r == q + [p] && |r| == |q| + 1 && r[|q|] == p;
        assert Waiting(r, t, now, books, |q|) == Waiting(q, t, now, books, |q|);
      }
    }
  }

  lemma {:induction false} WaitingPrefix(plans: seq<TradePlan>, p: TradePlan, t: set<Ticker>, now: int, books: Quotes, n: nat)
    requires n <= |plans|
    ensures Waiting(plans + [p], t, now, books, n) == Waiting(plans, t, now, books, n)
  {
    hide Leaves;
    if n > 0 {
      WaitingPrefix(plans, p, t, now, books, n - 1);
    }
  }

  lemma {:induction false} WaitingForNobody(plans: seq<TradePlan>, now: int, books: Quotes, n: nat)
    requires n <= |plans|
    ensures Waiting(plans, {}, now, books, n) == plans[..n]
  {
    if n > 0 {
      WaitingForNobody(plans, now, books, n - 1);
    }
  }

  function Erase<T>(s: seq<T>, i: nat): seq<T>
    requires i < |s|
  {
    s[..i] + s[i + 1..]
  }

  /** The queue half-way: of the first `k` plans those that stay are in its first `i` places, the rest follows. */
  ghost predicate HalfWay(queue: seq<TradePlan>, i: nat, plans: seq<TradePlan>, k: nat, tickers: set<Ticker>, now: int,
      books: Quotes) {
    && k <= |plans| && |queue| - i == |plans| - k
    && i == |Waiting(plans, tickers, now, books, k)|
    && queue == Waiting(plans, tickers, now, books, k) + plans[k..]
  }

  lemma {:induction false} QueueStep(queue: seq<TradePlan>, i: nat, plans: seq<TradePlan>, k: nat, tickers: set<Ticker>,
      now: int, books: Quotes)
    requires HalfWay(queue, i, plans, k, tickers, now, books) && i < |queue|
    ensures k < |plans| && queue[i] == plans[k] && |Erase(queue, i)| == |queue| - 1
    ensures queue[i].ticker in tickers && Leaves(queue[i], now, books) ==> HalfWay(Erase(queue, i), i, plans, k + 1, tickers, now, books)
    ensures !(queue[i].ticker in tickers && Leaves(queue[i], now, books)) ==> HalfWay(queue, i + 1, plans, k + 1, tickers, now, books)
  {
  }

  lemma {:induction false} QueueDone(queue: seq<TradePlan>, i: nat, plans: seq<TradePlan>, k: nat, tickers: set<Ticker>,
      now: int, books: Quotes)
    requires HalfWay(queue, i, plans, k, tickers, now, books) && i == |queue|
    ensures k == |plans| && queue == Waiting(plans, tickers, now, books, k)
  {
  }

  /** The position of the ticker is what the first `k` plans made of it. */
  ghost predicate SoFar(positions: Positions, before: Option<Position>, plans: seq<TradePlan>, k: nat, ticker: Ticker,
      now: int, books: Quotes, bps: real)
  {
    k <= |plans| && Lookup(positions, ticker) == Entered(before, plans, ticker, now, books, bps, k)
  }

  lemma {:induction false} SoFarStep(positions: Positions, positions': Positions, before: Option<Position>,
      plans: seq<TradePlan>, k: nat, ticker: Ticker, now: int, books: Quotes, bps: real)
    requires SoFar(positions, before, plans, k, ticker, now, books, bps) && k < |plans|
    ensures (plans[k].ticker != ticker || now > plans[k].validUntil || Filled(plans[k], books) == None) ==>
      SoFar(positions, before, plans, k + 1, ticker, now, books, bps)
    ensures (plans[k].ticker == ticker && now <= plans[k].validUntil && Filled(plans[k], books).Some? && Lookup(positions', ticker) ==
      (if ticker in positions then Lookup(positions, ticker)
       else Some(Opening(plans[k], Slipped(Filled(plans[k], books).value, bps, plans[k].side == Buy), now)))) ==>
      SoFar(positions', before, plans, k + 1, ticker, now, books, bps)
  {
  }

  lemma {:induction false} SoFarIs(positions: Positions, before: Option<Position>, plans: seq<TradePlan>, k: nat,
      ticker: Ticker,
      now: int, books: Quotes, bps: real)
    requires SoFar(positions, before, plans, k, ticker, now, books, bps)
    ensures k <= |plans| && Lookup(positions, ticker) == Entered(before, plans, ticker, now, books, bps, k)
  {
  }

  /** Turns of other tickers do not change what a ticker's plans do. */
  lemma {:induction false} EnteredAmongWaiting(before: Option<Position>, plans: seq<TradePlan>, others: set<Ticker>,
      ticker: Ticker,
      now: int, books: Quotes, bps: real, n: nat)
    requires n <= |plans| && ticker !in others
    ensures var r := Waiting(plans, others, now, books, n);
      Entered(before, r, ticker, now, books, bps, |r|) == Entered(before, plans, ticker, now, books, bps, n)
  {
    hide Leaves, Opening, Slipped, Filled;
    if n > 0 {
      var p, q, r := plans[n - 1], Waiting(plans, others, now, books, n - 1), Waiting(plans, others, now, books, n);
      EnteredAmongWaiting(before, plans, others, ticker, now, books, bps, n - 1);
      if !(p.ticker in others && Leaves(p, now, books)) {
        EnteredPrefix(before, q, p, ticker, now, books, bps, |q|);
        assert r == q + [p] && |r| == |q| + 1 && r[|q|] == p;
        assert Entered(before, r, ticker, now, books, bps, |q|) == Entered(before, q, ticker, now, books, bps, |q|);
      }
    }
  }

  lemma {:induction false} EnteredPrefix(before: Option<Position>, plans: seq<TradePlan>, p: TradePlan, ticker: Ticker,
      now: int, books: Quotes, bps: real, n: nat)
    requires n <= |plans|
    ensures Entered(before, plans + [p], ticker, now, books, bps, n) == Entered(before, plans, ticker, now, books, bps, n)
  {
    hide Opening, Slipped, Filled;
    if n > 0 {
      EnteredPrefix(before, plans, p, ticker, now, books, bps, n - 1);
    }
  }

  lemma {:induction false} NobodyEnters(before: Option<Position>, plans: seq<TradePlan>, ticker: Ticker,
      now: int, books: Quotes, bps: real, n: nat)
    requires n <= |plans| && forall i :: 0 <= i < n ==> plans[i].ticker != ticker
    ensures Entered(before, plans, ticker, now, books, bps, n) == before
  {
    hide Opening, Slipped, Filled;
    if n > 0 {
      NobodyEnters(before, plans, ticker, now, books, bps, n - 1);
    }
  }

  // ---------------------------------------------------------------- exits

  datatype Exit = Exit(price: real, reason: Reason)

  function Stopped(p: Position, q: Quote): Option<Exit> {
    if p.plan.side == Buy then
      if q.bid <= p.plan.stopPrice then Some(Exit(Min(p.plan.stopPrice, q.bid), ByStop)) else None
    else
      if q.ask >= p.plan.stopPrice then Some(Exit(Max(p.plan.stopPrice, q.ask), ByStop)) else None
  }

  function Targeted(p: Position, q: Quote): Option<Exit> {
    if p.plan.tp1Price <= 0.0 then None
    else if p.plan.side == Buy then
      if q.ask >= p.plan.tp1Price then Some(Exit(Max(p.plan.tp1Price, q.ask), ByTarget)) else None
    else
      if q.bid <= p.plan.tp1Price then Some(Exit(Min(p.plan.tp1Price, q.bid), ByTarget)) else None
  }

  function Invalidated(p: Position, q: Quote, now: int): Option<Exit> {
    var mid, elapsed := (q.bid + q.ask) * 0.5, Seconds(now - p.openedAt);
    var price := if p.plan.side == Buy then q.bid else q.ask;
    if elapsed > p.plan.noProgressTimeout && NoProgress(p.plan.side, p.avgPrice, mid) then Some(Exit(price, ByNoProgress))
    else if elapsed > p.plan.postEntryGrace && p.plan.minFollowThrough > 0.0
      && TooLittleFollowThrough(p.plan.side, p.avgPrice, mid, p.plan.minFollowThrough) then Some(Exit(price, ByFollowThrough))
    else None
  }

  /** The exit due now; the stop goes before the target, the target before the timeouts. */
  function Due(p: Position, books: Quotes, now: int): Option<Exit> {
    if p.plan.ticker !in books || books[p.plan.ticker].bid <= 0.0 || books[p.plan.ticker].ask <= 0.0 then None
    else
      var q := books[p.plan.ticker];
      if Stopped(p, q).Some? then Stopped(p, q)
      else if Targeted(p, q).Some? then Targeted(p, q)
      else Invalidated(p, q, now)
  }

  /** Only a target exit with a proper fraction leaves something open. */
  predicate Partial(plan: TradePlan, reason: Reason) {
    reason == ByTarget && 0.0 < plan.tp1SizeRatio < 1.0
  }

  function Settle(p: Position, exit: Exit, bps: real): ClosedTrade {
    var price := Slipped(exit.price, bps, p.plan.side != Buy);
    var size := if Partial(p.plan, exit.reason) then p.executedSize * p.plan.tp1SizeRatio else p.executedSize;
    ClosedTrade(p.plan, p.avgPrice, price, size, Pnl(p.plan.side, p.avgPrice, price, size), exit.reason)
  }

  /** What a partial exit leaves: less of it, the stop at break-even, no target. */
  function Rest(p: Position, sold: real): Position {
    p.(executedSize := p.executedSize - sold, plan := p.plan.(stopPrice := p.avgPrice, tp1Price := 0.0))
  }

  function Exited(p: Option<Position>, books: Quotes, now: int, bps: real): Option<Position> {
    if p == None || Due(p.value, books, now) == None then p
    else
      var trade := Settle(p.value, Due(p.value, books, now).value, bps);
      if Partial(trade.plan, trade.reason) then Some(Rest(p.value, trade.sizeFilled)) else None
  }

  /** One ticker's turn: its queued plans, then the exit. */
  function Ticked(p: Option<Position>, plans: seq<TradePlan>, ticker: Ticker, now: int, books: Quotes,
      bps: real): Option<Position> {
    Exited(Entered(p, plans, ticker, now, books, bps, |plans|), books, now, bps)
  }

  // ---------------------------------------------------------------- the ledger

  /** What can happen to the position of a ticker. */
  datatype Event = Opened(position: Position) | Closing(trade: ClosedTrade) | Dropped(position: Position)

  function TickerOf(e: Event): Ticker {
    if e.Closing? then e.trade.plan.ticker else e.position.plan.ticker
  }

  function After(p: Option<Position>, e: Event): Option<Position> {
    match e
    case Opened(position) => Some(position)
    case Closing(trade) =>
      if p.Some? && Partial(trade.plan, trade.reason) then Some(Rest(p.value, trade.sizeFilled)) else None
    case Dropped(_) => None
  }

  // What one turn of a ticker writes into the ledger.

  function FillEvents(before: Option<Position>, after: Option<Position>): seq<Event> {
    if before == None && after.Some? then [Opened(after.value)] else []
  }

  function ExitEvents(p: Option<Position>, books: Quotes, now: int, bps: real): seq<Event> {
    if p.Some? && Due(p.value, books, now).Some? then [Closing(Settle(p.value, Due(p.value, books, now).value, bps))] else []
  }

  /** At most one fill, and at most one exit of what is then held. */
  function TickEvents(p: Option<Position>, plans: seq<TradePlan>, ticker: Ticker, now: int, books: Quotes,
      bps: real): seq<Event> {
    var entered := Entered(p, plans, ticker, now, books, bps, |plans|);
    FillEvents(p, entered) + ExitEvents(entered, books, now, bps)
  }

  /** The turns of these tickers, one after the other. */
  ghost function AllTickEvents(positions: Positions, plans: seq<TradePlan>, order: seq<Ticker>, now: int, books: Quotes,
      bps: real, n: nat): seq<Event>
    requires n <= |order|
  {
    if n == 0 then []
    else
      var t := order[n - 1];
      AllTickEvents(positions, plans, order, now, books, bps, n - 1) + TickEvents(Lookup(positions, t), plans, t, now, books, bps)
  }

  lemma {:induction false} AllTickEventsPrefix(positions: Positions, plans: seq<TradePlan>, order: seq<Ticker>, t: Ticker,
      now: int, books: Quotes, bps: real, n: nat)
    requires n <= |order|
    ensures AllTickEvents(positions, plans, order + [t], now, books, bps, n) == AllTickEvents(positions, plans, order, now, books, bps, n)
  {
    hide TickEvents, Lookup;
    if n > 0 {
      AllTickEventsPrefix(positions, plans, order, t, now, books, bps, n - 1);
    }
  }

  /** Filling a ticker: a position it has stays; the ledger gains exactly the fill. */
  ghost predicate Filling(ticker: Ticker, log: seq<Event>, before: Positions, log': seq<Event>, after: Positions) {
    && (ticker in before ==> Lookup(after, ticker) == Lookup(before, ticker))
    && log' == log + FillEvents(Lookup(before, ticker), Lookup(after, ticker))
    && OnlyAt(ticker, before, after)
  }

  lemma {:induction false} FillingFurther(ticker: Ticker, a: seq<Event>, p: Positions,
      b: seq<Event>, q: Positions, c: seq<Event>, r: Positions)
    requires Filling(ticker, a, p, b, q) && Filling(ticker, b, q, c, r)
    ensures Filling(ticker, a, p, c, r)
  {
  }

  lemma {:induction false} FillingIs(ticker: Ticker, log: seq<Event>, before: Positions, log': seq<Event>, after: Positions)
    requires Filling(ticker, log, before, log', after)
    ensures log' == log + FillEvents(Lookup(before, ticker), Lookup(after, ticker)) && OnlyAt(ticker, before, after)
  {
  }

  lemma {:induction false} FillingStarts(log: seq<Event>, positions: Positions, plans: seq<TradePlan>, ticker: Ticker,
      now: int, books: Quotes, bps: real)
    ensures HalfWay(plans, 0, plans, 0, {ticker}, now, books)
    ensures SoFar(positions, Lookup(positions, ticker), plans, 0, ticker, now, books, bps)
    ensures Filling(ticker, log, positions, log, positions)
  {
  }

  /** The tickers in `order` had their turn, the others not yet. */
  ghost predicate TickedSoFar(log: seq<Event>, before: Positions, log': seq<Event>, positions: Positions,
      plans: seq<TradePlan>, queue: seq<TradePlan>, order: seq<Ticker>, done: set<Ticker>, now: int, books: Quotes, bps: real)
  {
    && queue == Waiting(plans, done, now, books, |plans|)
    && log' == log + AllTickEvents(before, plans, order, now, books, bps, |order|)
    && (forall i, j :: 0 <= i < j < |order| ==> order[i] != order[j]) && (forall t :: t in done <==> t in order)
    && forall t :: Lookup(positions, t) == if t in done then Ticked(Lookup(before, t), plans, t, now, books, bps) else Lookup(before, t)
  }

  lemma {:induction false} TickingStarts(log: seq<Event>, positions: Positions, plans: seq<TradePlan>, now: int,
      books: Quotes, bps: real)
    ensures TickedSoFar(log, positions, log, positions, plans, plans, [], {}, now, books, bps)
  {
    WaitingForNobody(plans, now, books, |plans|);
  }

  lemma {:induction false} TickingStep(log: seq<Event>, before: Positions, log': seq<Event>, positions: Positions,
      log'': seq<Event>, positions': Positions, plans: seq<TradePlan>, queue: seq<TradePlan>, order: seq<Ticker>,
      done: set<Ticker>,
      t: Ticker, now: int, books: Quotes, bps: real)
    requires TickedSoFar(log, before, log', positions, plans, queue, order, done, now, books, bps) && t !in done
    requires OnlyAt(t, positions, positions')
    requires log'' == log' + TickEvents(Lookup(positions, t), queue, t, now, books, bps)
    requires Lookup(positions', t) == Ticked(Lookup(positions, t), queue, t, now, books, bps)
    ensures TickedSoFar(log, before, log'', positions', plans, Waiting(queue, {t}, now, books, |queue|), order + [t], done + {t}, now, books, bps)
  {
    hide Waiting, Exited, Entered, Lookup, ExitEvents, FillEvents;
    WaitingTwice(plans, done, {t}, now, books, |plans|);
    EnteredAmongWaiting(Lookup(positions, t), plans, done, t, now, books, bps, |plans|);
    AllTickEventsPrefix(before, plans, order, t, now, books, bps, |order|);
    hide TickEvents;
  }

  lemma {:induction false} TickingDone(log: seq<Event>, before: Positions, log': seq<Event>, positions: Positions,
      plans: seq<TradePlan>, queue: seq<TradePlan>, order: seq<Ticker>, done: set<Ticker>, now: int, books: Quotes, bps: real)
    requires TickedSoFar(log, before, log', positions, plans, queue, order, done, now, books, bps)
    requires before.Keys <= done && forall p :: p in plans ==> p.ticker in done
    ensures forall p :: p in queue <==> p in plans && !Leaves(p, now, books)
    ensures forall t :: Lookup(positions, t) == Ticked(Lookup(before, t), plans, t, now, books, bps)
    ensures log' == log + AllTickEvents(before, plans, order, now, books, bps, |order|)
    ensures forall i, j :: 0 <= i < j < |order| ==> order[i] != order[j]
  {
    hide Waiting, Leaves, Entered, AllTickEvents;
    forall p ensures p in queue <==> p in plans && !Leaves(p, now, books) {
      WaitingAre(plans, done, now, books, |plans|, p);
      assert plans[..|plans|] == plans;
    }
    forall t | t !in done ensures Ticked(None, plans, t, now, books, bps) == None {
      NobodyEnters(None, plans, t, now, books, bps, |plans|);
    }
  }

  /** The position of a ticker after the first `n` events. */
  ghost function Held(log: seq<Event>, ticker: Ticker, n: nat): Option<Position>
    requires n <= |log|
  {
    if n == 0 then None
    else if TickerOf(log[n - 1]) == ticker then After(Held(log, ticker, n - 1), log[n - 1])
    else Held(log, ticker, n - 1)
  }

  /** Positions open where there is none, and close or drop as what they are. */
  ghost predicate Fits(p: Option<Position>, e: Event) {
    match e
    case Opened(_) => p == None
    case Closing(t) =>
      && p.Some? && t.plan == p.value.plan && t.entryPrice == p.value.avgPrice
      && t.pnlUsd == Pnl(t.plan.side, t.entryPrice, t.exitPrice, t.sizeFilled)
      && (t.reason == ByTarget ==> t.plan.tp1Price > 0.0)
      && t.sizeFilled == if Partial(t.plan, t.reason) then p.value.executedSize * t.plan.tp1SizeRatio else p.value.executedSize
    case Dropped(position) => p == Some(position)
  }

  ghost predicate Lawful(log: seq<Event>) {
    forall i :: 0 <= i < |log| ==> Fits(Held(log, TickerOf(log[i]), i), log[i])
  }

  ghost function Trades(log: seq<Event>, n: nat): seq<ClosedTrade>
    requires n <= |log|
  {
    if n == 0 then []
    else if log[n - 1].Closing? then Trades(log, n - 1) + [log[n - 1].trade]
    else Trades(log, n - 1)
  }

  /** The ledger explains the open positions and the closed trades. */
  ghost predicate Explains(log: seq<Event>, positions: Positions, trades: seq<ClosedTrade>) {
    && Lawful(log)
    && (forall t :: Lookup(positions, t) == Held(log, t, |log|))
    && (forall t :: t in positions ==> positions[t].plan.ticker == t)
    && Trades(log, |log|) == trades
  }

  /** Positions after an event. */
  function Moved(positions: Positions, e: Event): Positions {
    var p := After(Lookup(positions, TickerOf(e)), e);
    if p.Some? then positions[TickerOf(e) := p.value] else positions - {TickerOf(e)}
  }

  lemma {:induction false} MovedPositions(positions: Positions, e: Event)
    ensures Lookup(Moved(positions, e), TickerOf(e)) == After(Lookup(positions, TickerOf(e)), e)
    ensures OnlyAt(TickerOf(e), positions, Moved(positions, e))
  {
  }

  lemma {:induction false} RecordKeepsExplains(log: seq<Event>, positions: Positions, trades: seq<ClosedTrade>, e: Event)
    requires Explains(log, positions, trades) && Fits(Lookup(positions, TickerOf(e)), e)
    ensures Explains(log + [e], Moved(positions, e), trades + if e.Closing? then [e.trade] else [])
  {
    Append(log, e);
    MovedPositions(positions, e);
    assert forall t :: t in Moved(positions, e) ==> Moved(positions, e)[t].plan.ticker == t;
    hide Fits, After, Moved, Held, Lawful, Trades;
  }

  lemma {:induction false} HeldPrefix(log: seq<Event>, e: Event, ticker: Ticker, n: nat)
    requires n <= |log|
    ensures Held(log + [e], ticker, n) == Held(log, ticker, n)
  {
    hide After;
    if n > 0 {
      HeldPrefix(log, e, ticker, n - 1);
    }
  }

  lemma {:induction false} TradesPrefix(log: seq<Event>, e: Event, n: nat)
    requires n <= |log|
    ensures Trades(log + [e], n) == Trades(log, n)
  {
    if n > 0 {
      TradesPrefix(log, e, n - 1);
    }
  }

  lemma {:induction false} Append(log: seq<Event>, e: Event)
    requires Lawful(log) && Fits(Held(log, TickerOf(e), |log|), e)
    ensures Lawful(log + [e])
    ensures Held(log + [e], TickerOf(e), |log| + 1) == After(Held(log, TickerOf(e), |log|), e)
    ensures forall t :: t != TickerOf(e) ==> Held(log + [e], t, |log| + 1) == Held(log, t, |log|)
    ensures Trades(log + [e], |log| + 1) == Trades(log, |log|) + if e.Closing? then [e.trade] else []
  {
    hide Fits, After;
    forall t ensures Held(log + [e], t, |log|) == Held(log, t, |log|) {
      HeldPrefix(log, e, t, |log|);
    }
    forall i | 0 <= i < |log| + 1 ensures Fits(Held(log + [e], TickerOf((log + [e])[i]), i), (log + [e])[i]) {
      HeldPrefix(log, e, TickerOf((log + [e])[i]), i);
    }
    TradesPrefix(log, e, |log|);
  }
}
