/** Start-up: persisted trades are reconciled with the positions and orders the exchange reports. */
module StartupRecovery {
  import opened Domain
  import opened Increments
  import opened Trading

  datatype Config = Config(maxStopBps: real, autoAckOnClean: bool, cancelOrphans: bool, tolerance: real)

  datatype ServerPosition = ServerPosition(
    ticker: Ticker, side: Side, size: real, avgPrice: real, avgPriceFix: real, priceIncrement: real)

  datatype RestOrder = RestOrder(id: int, kind: OrderType)

  datatype StopRequest = StopRequest(ticker: Ticker, side: Side, price: real, size: real, reduceOnly: bool)

  datatype Cancel = Cancel(ticker: Ticker, id: int)

  /** What the exchange answers: positions, open orders by ticker, and the id of a placed stop, if it is placed. */
  datatype Exchange = Exchange(positions: seq<ServerPosition>, orders: map<Ticker, seq<RestOrder>>, stopIds: map<Ticker, int>)
  {
    function OrdersOf(ticker: Ticker): seq<RestOrder> {
      if ticker in orders then orders[ticker] else []
    }
  }

  // ---------------------------------------------------------------- who is who

  /** The first position of a ticker that counts as open. */
  function PositionOf(positions: seq<ServerPosition>, ticker: Ticker, tolerance: real, k: nat): Option<ServerPosition>
    requires k <= |positions|
    decreases |positions| - k
  {
    if k == |positions| then None
    else if positions[k].ticker == ticker && Abs(positions[k].size) > tolerance then Some(positions[k])
    else PositionOf(positions, ticker, tolerance, k + 1)
  }

  function TradeOf(trades: seq<ActiveTrade>, ticker: Ticker, k: nat): Option<ActiveTrade>
    requires k <= |trades|
    decreases |trades| - k
  {
    if k == |trades| then None
    else if trades[k].plan.ticker == ticker then Some(trades[k])
    else TradeOf(trades, ticker, k + 1)
  }

  lemma {:induction false} PositionIs(positions: seq<ServerPosition>, ticker: Ticker, tolerance: real, k: nat)
    requires k <= |positions|
    ensures var p := PositionOf(positions, ticker, tolerance, k);
      && (p.Some? ==> p.value.ticker == ticker && Abs(p.value.size) > tolerance)
      && (p == None ==> forall i :: k <= i < |positions| && positions[i].ticker == ticker ==> Abs(positions[i].size) <= tolerance)
    decreases |positions| - k
  {
    if k < |positions| {
      PositionIs(positions, ticker, tolerance, k + 1);
    }
  }

  lemma {:induction false} TradeIs(trades: seq<ActiveTrade>, ticker: Ticker, k: nat)
    requires k <= |trades|
    ensures var t := TradeOf(trades, ticker, k);
      && (t.Some? ==> t.value.plan.ticker == ticker && t.value in trades)
      && (t == None ==> forall i :: k <= i < |trades| ==> trades[i].plan.ticker != ticker)
    decreases |trades| - k
  {
    if k < |trades| {
      TradeIs(trades, ticker, k + 1);
    }
  }

  /** Orphan position, vanished position, or a size that drifted. */
  predicate Drifts(persisted: seq<ActiveTrade>, x: Exchange, ticker: Ticker, tolerance: real) {
    var p, t := PositionOf(x.positions, ticker, tolerance, 0), TradeOf(persisted, ticker, 0);
    || p.Some? != t.Some?
    || (p.Some? && t.value.plan.sizeCoin > 0.0 && Abs(Abs(p.value.size) - t.value.plan.sizeCoin) > tolerance)
  }

  predicate Refers(t: ActiveTrade, id: int) {
    id != 0 && (id == t.entryId || id == t.stopId || id == t.tp1Id || id == t.tp2Id)
  }

  predicate Used(trades: seq<ActiveTrade>, id: int) {
    exists i :: 0 <= i < |trades| && Refers(trades[i], id)
  }

  /** Ids name one order each, and what a trade or a placed stop names belongs to its own ticker. */
  ghost predicate IdsSound(persisted: seq<ActiveTrade>, x: Exchange) {
    && (forall t, k :: 0 <= k < |x.OrdersOf(t)| ==> x.OrdersOf(t)[k].id != 0)
    && (forall t, k, u, l :: 0 <= k < |x.OrdersOf(t)| && 0 <= l < |x.OrdersOf(u)| && x.OrdersOf(t)[k].id == x.OrdersOf(u)[l].id ==>
        t == u && k == l)
    && (forall i, t, k :: 0 <= i < |persisted| && 0 <= k < |x.OrdersOf(t)| && Refers(persisted[i], x.OrdersOf(t)[k].id) ==>
        t == persisted[i].plan.ticker)
    && (forall u, t, k :: u in x.stopIds && 0 <= k < |x.OrdersOf(t)| && x.OrdersOf(t)[k].id == x.stopIds[u] ==> t == u)
  }

  // ---------------------------------------------------------------- one recovered trade

  /** Halves away from zero. */
  function RoundToTick(price: real, tick: real): real {
    if tick <= 0.0 then price
    else if price >= 0.0 then Round(price / tick) as real * tick
    else -(Round(-price / tick) as real * tick)
  }

  function EmergencyDistance(p: ServerPosition, cfg: Config): real {
    p.avgPrice * cfg.maxStopBps / 10000.0
  }

  function EmergencyStop(p: ServerPosition, cfg: Config): real {
    var distance := EmergencyDistance(p, cfg);
    RoundToTick(p.avgPrice + (if p.side == Buy then -distance else distance), p.priceIncrement)
  }

  function HalfTick(tick: real): real {
    if tick > 0.0 then tick / 2.0 else 0.0
  }

  /** The emergency stop is within half a tick of the configured distance, so it protects when that is wider. */
  lemma {:induction false} EmergencyStopProtects(p: ServerPosition, cfg: Config)
    ensures var distance, half, stop := EmergencyDistance(p, cfg), HalfTick(p.priceIncrement), EmergencyStop(p, cfg);
      && (p.side == Buy ==> p.avgPrice - distance - half <= stop <= p.avgPrice - distance + half)
      && (p.side != Buy ==> p.avgPrice + distance - half <= stop <= p.avgPrice + distance + half)
      && (distance > half ==> if p.side == Buy then stop < p.avgPrice else stop > p.avgPrice)
  {
    hide RoundToTick, EmergencyDistance, HalfTick;
    var distance := EmergencyDistance(p, cfg);
    RoundedWithinHalf(p.avgPrice + (if p.side == Buy then -distance else distance), p.priceIncrement);
  }

  lemma {:induction false} RoundedWithinHalf(price: real, tick: real)
    ensures price - HalfTick(tick) <= RoundToTick(price, tick) <= price + HalfTick(tick)
  {
    hide Round;
    if tick > 0.0 {
      NearestStep(if price >= 0.0 then price else -price, tick);
    }
  }

  lemma {:induction false} NearestStep(x: real, tick: real)
    requires tick > 0.0
    ensures x - tick / 2.0 <= Round(x / tick) as real * tick <= x + tick / 2.0
  {
    var q := x / tick;
    var k := Round(q) as real;
    assert k <= q + 0.5 < k + 1.0;
    Quotient(x, tick);
    Scale(k, q + 0.5, tick);
    Scale(q, k + 0.5, tick);
    Spread(q, 0.5, tick);
    Spread(k, 0.5, tick);
  }

  function OrphanTrade(p: ServerPosition, cfg: Config, stopId: int): ActiveTrade {
    var plan := TradePlan(p.ticker, p.side, Limit, p.avgPrice, EmergencyStop(p, cfg), 0.0, None, 0.0, Abs(p.size), 0, 120.0, 0.0, 0.0);
    ActiveTrade(plan, 0, stopId, "", 0, 0, PendingEntry, 0.0, 0.0, 0.0, false, 0)
  }

  /** The trade is open with the size and prices the exchange reports. */
  predicate Mirrors(t: ActiveTrade, p: ServerPosition) {
    && t.plan.ticker == p.ticker && t.state == Open && t.executedSize == Abs(p.size) && t.avgPrice == p.avgPrice
    && t.avgPriceFix == if p.avgPriceFix > 0.0 then p.avgPriceFix else p.avgPrice
  }

  /** The persisted trade if there is one, else a new one for the orphan, brought up to what the exchange reports. */
  function RecoveredTrade(persisted: seq<ActiveTrade>, x: Exchange, cfg: Config, p: ServerPosition): ActiveTrade {
    var known := TradeOf(persisted, p.ticker, 0);
    var t := if known.Some? then known.value else OrphanTrade(p, cfg, if p.ticker in x.stopIds then x.stopIds[p.ticker] else 0);
    t.(state := Open, executedSize := Abs(p.size), avgPrice := p.avgPrice,
       avgPriceFix := if p.avgPriceFix > 0.0 then p.avgPriceFix else p.avgPrice)
  }

  lemma {:induction false} RecoveredMirrors(persisted: seq<ActiveTrade>, x: Exchange, cfg: Config, p: ServerPosition,
      t: ActiveTrade)
    requires Adopted(RecoveredTrade(persisted, x, cfg, p), t, x.OrdersOf(p.ticker))
    ensures Mirrors(t, p)
  {
    TradeIs(persisted, p.ticker, 0);
    hide TradeOf, EmergencyStop;
  }

  /** Only a missing stop or target id was filled in, with an order of the ticker. */
  ghost predicate Adopted(before: ActiveTrade, after: ActiveTrade, orders: seq<RestOrder>) {
    && after == before.(stopId := after.stopId, tp1Id := after.tp1Id)
    && (after.stopId != before.stopId ==> before.stopId == 0 && exists k :: 0 <= k < |orders| && orders[k].id == after.stopId)
    && (after.tp1Id != before.tp1Id ==> before.tp1Id == 0 && exists k :: 0 <= k < |orders| && orders[k].id == after.tp1Id)
  }

  function Adopt(t: ActiveTrade, o: RestOrder): Option<ActiveTrade> {
    if (o.kind == StopLoss || o.kind == Stop) && t.stopId == 0 then Some(t.(stopId := o.id))
    else if o.kind == TakeProfit && t.tp1Id == 0 then Some(t.(tp1Id := o.id))
    else None
  }

  lemma {:induction false} AdoptedIsUsed(trades: seq<ActiveTrade>, at: nat, o: RestOrder, id: int)
    requires at < |trades| && o.id != 0 && Adopt(trades[at], o).Some?
    ensures Used(trades[at := Adopt(trades[at], o).value], id) <==> Used(trades, id) || id == o.id
  {
    var after := trades[at := Adopt(trades[at], o).value];
    assert Refers(after[at], id) <==> Refers(trades[at], id) || id == o.id;
    if Used(trades, id) {
      var i :| 0 <= i < |trades| && Refers(trades[i], id);
      assert Refers(after[i], id);
    }
    if Used(after, id) && id != o.id {
      var i :| 0 <= i < |after| && Refers(after[i], id);
      assert Refers(trades[i], id);
    }
  }

  ghost predicate Fresh(orders: seq<RestOrder>) {
    && (forall k :: 0 <= k < |orders| ==> orders[k].id != 0)
    && (forall k, l :: 0 <= k < l < |orders| ==> orders[k].id != orders[l].id)
  }

  /** One of the first `n` orders of the ticker, and no recovered trade refers to it. */
  ghost predicate Orphan(trades: seq<ActiveTrade>, ticker: Ticker, orders: seq<RestOrder>, n: nat, c: Cancel)
    requires n <= |orders|
  {
    c.ticker == ticker && !Used(trades, c.id) && exists k :: 0 <= k < n && orders[k].id == c.id
  }

  ghost predicate CancelledSoFar(before: seq<Cancel>, cancelled: seq<Cancel>, trades: seq<ActiveTrade>, ticker: Ticker,
      orders: seq<RestOrder>, n: nat, cfg: Config)
    requires n <= |orders|
  {
    forall c :: c in cancelled <==> c in before || (cfg.cancelOrphans && Orphan(trades, ticker, orders, n, c))
  }

  predicate IsStop(o: RestOrder) {
    o.kind == StopLoss || o.kind == Stop
  }

  /** A stop order is left to nobody only when the trade has a stop already. */
  ghost predicate StopsTaken(trades: seq<ActiveTrade>, at: Option<nat>, orders: seq<RestOrder>, n: nat)
    requires n <= |orders| && (at.Some? ==> at.value < |trades|)
  {
    forall k :: 0 <= k < n && IsStop(orders[k]) && at.Some? && !Used(trades, orders[k].id) ==> trades[at.value].stopId != 0
  }

  lemma {:induction false} OrderAdopted(before: seq<Cancel>, cancelled: seq<Cancel>, trades: seq<ActiveTrade>, at: nat,
      ticker: Ticker,
      orders: seq<RestOrder>, n: nat, cfg: Config)
    requires n < |orders| && at < |trades| && Fresh(orders) && Adopt(trades[at], orders[n]).Some?
    requires CancelledSoFar(before, cancelled, trades, ticker, orders, n, cfg) && StopsTaken(trades, Some(at), orders, n)
    ensures var after := trades[at := Adopt(trades[at], orders[n]).value];
      && CancelledSoFar(before, cancelled, after, ticker, orders, n + 1, cfg) && StopsTaken(after, Some(at), orders, n + 1)
  {
    hide Used;
    var after := trades[at := Adopt(trades[at], orders[n]).value];
    forall id ensures Used(after, id) <==> Used(trades, id) || id == orders[n].id {
      AdoptedIsUsed(trades, at, orders[n], id);
    }
    forall c ensures Orphan(after, ticker, orders, n + 1, c) <==> Orphan(trades, ticker, orders, n, c) {
    }
  }

  lemma {:induction false} OrderKept(before: seq<Cancel>, cancelled: seq<Cancel>, trades: seq<ActiveTrade>,
      at: Option<nat>, ticker: Ticker,
      orders: seq<RestOrder>, n: nat, cfg: Config)
    requires n < |orders| && (at.Some? ==> at.value < |trades|)
    requires CancelledSoFar(before, cancelled, trades, ticker, orders, n, cfg) && StopsTaken(trades, at, orders, n)
    requires Used(trades, orders[n].id) || at == None || Adopt(trades[at.value], orders[n]) == None
    ensures CancelledSoFar(before, if Used(trades, orders[n].id) || !cfg.cancelOrphans then cancelled else cancelled + [Cancel(ticker, orders[n].id)],
      trades, ticker, orders, n + 1, cfg)
    ensures StopsTaken(trades, at, orders, n + 1)
  {
  }

  /** What the first `n` orders make of the trades, and which of them are cancelled. */
  function SettledBy(trades: seq<ActiveTrade>, at: Option<nat>, ticker: Ticker, orders: seq<RestOrder>, cfg: Config, n: nat):
    (r: (seq<ActiveTrade>, seq<Cancel>))
    requires n <= |orders| && (at.Some? ==> at.value < |trades|)
    ensures |r.0| == |trades|
  {
    if n == 0 then (trades, [])
    else
      var before, o := SettledBy(trades, at, ticker, orders, cfg, n - 1), orders[n - 1];
      var adopted := if at.Some? && !Used(before.0, o.id) then Adopt(before.0[at.value], o) else None;
      if adopted.Some? then (before.0[at.value := adopted.value], before.1)
      else if !Used(before.0, o.id) && cfg.cancelOrphans then (before.0, before.1 + [Cancel(ticker, o.id)])
      else before
  }

  /** Gives the ticker's orders to its trade where a place is free, and cancels what nobody refers to. */
  method SettleOrders(trades: seq<ActiveTrade>, at: Option<nat>, ticker: Ticker, orders: seq<RestOrder>, cfg: Config,
      cancelled: seq<Cancel>)
    returns (trades': seq<ActiveTrade>, cancelled': seq<Cancel>)
    requires at.Some? ==> at.value < |trades|
    ensures var settled := SettledBy(trades, at, ticker, orders, cfg, |orders|); trades' == settled.0 && cancelled' == cancelled + settled.1
    ensures |trades'| == |trades| && forall i :: 0 <= i < |trades| && at != Some(i) ==> trades'[i] == trades[i]
    ensures at.Some? ==> Adopted(trades[at.value], trades'[at.value], orders)
    ensures Fresh(orders) ==> CancelledSoFar(cancelled, cancelled', trades', ticker, orders, |orders|, cfg)
    ensures Fresh(orders) ==> StopsTaken(trades', at, orders, |orders|)
  {
    hide Used, Fresh, CancelledSoFar, StopsTaken, Adopt, Adopted;
    trades', cancelled' := trades, cancelled;
    NothingSettled(cancelled, trades, at, ticker, orders, cfg);
    for n := 0 to |orders|
      invariant var settled := SettledBy(trades, at, ticker, orders, cfg, n); trades' == settled.0 && cancelled' == cancelled + settled.1
      invariant |trades'| == |trades| && forall i :: 0 <= i < |trades| && at != Some(i) ==> trades'[i] == trades[i]
      invariant at.Some? ==> Adopted(trades[at.value], trades'[at.value], orders)
      invariant Fresh(orders) ==> CancelledSoFar(cancelled, cancelled', trades', ticker, orders, n, cfg)
      invariant Fresh(orders) ==> StopsTaken(trades', at, orders, n)
    {
      var o := orders[n];
      var used := Used(trades', o.id);
      if !used && at.Some? {
        var adopted := Adopt(trades'[at.value], o);
        if adopted.Some? {
          if Fresh(orders) {
            OrderAdopted(cancelled, cancelled', trades', at.value, ticker, orders, n, cfg);
          }
          AdoptedFurther(trades[at.value], trades'[at.value], orders, n);
          trades' := trades'[at.value := adopted.value];
          continue;
        }
      }
      if Fresh(orders) {
        OrderKept(cancelled, cancelled', trades', at, ticker, orders, n, cfg);
      }
      if !used && cfg.cancelOrphans {
        cancelled' := cancelled' + [Cancel(ticker, o.id)];
      }
    }
  }

  lemma {:induction false} NothingSettled(cancelled: seq<Cancel>, trades: seq<ActiveTrade>, at: Option<nat>,
      ticker: Ticker, orders: seq<RestOrder>, cfg: Config)
    requires at.Some? ==> at.value < |trades|
    ensures CancelledSoFar(cancelled, cancelled, trades, ticker, orders, 0, cfg) && StopsTaken(trades, at, orders, 0)
    ensures at.Some? ==> Adopted(trades[at.value], trades[at.value], orders)
  {
  }

  lemma {:induction false} AdoptedFurther(first: ActiveTrade, t: ActiveTrade, orders: seq<RestOrder>, n: nat)
    requires Adopted(first, t, orders) && n < |orders| && Adopt(t, orders[n]).Some?
    ensures Adopted(first, Adopt(t, orders[n]).value, orders)
  {
  }

  // ---------------------------------------------------------------- one ticker

  /** Ids a trade of the ticker may refer to before its orders are looked at. */
  ghost predicate OwnIds(t: ActiveTrade, persisted: seq<ActiveTrade>, x: Exchange) {
    forall id :: Refers(t, id) ==>
      || (exists i :: 0 <= i < |persisted| && persisted[i].plan.ticker == t.plan.ticker && Refers(persisted[i], id))
      || (t.plan.ticker in x.stopIds && x.stopIds[t.plan.ticker] == id)
  }

  /** The trade of one ticker, and the emergency stop asked for when nobody knows the position. */
  method RecoverTicker(ticker: Ticker, persisted: seq<ActiveTrade>, x: Exchange, cfg: Config)
    returns (trade: Option<ActiveTrade>, drift: bool, stop: Option<StopRequest>)
    ensures trade.Some? <==> PositionOf(x.positions, ticker, cfg.tolerance, 0).Some?
    ensures trade.Some? ==> trade.value == RecoveredTrade(persisted, x, cfg, PositionOf(x.positions, ticker, cfg.tolerance, 0).value)
    ensures trade.Some? ==> trade.value.plan.ticker == ticker && OwnIds(trade.value, persisted, x)
    ensures drift <==> Drifts(persisted, x, ticker, cfg.tolerance)
    ensures stop.Some? <==> trade.Some? && TradeOf(persisted, ticker, 0) == None
    ensures stop.Some? ==> var p := PositionOf(x.positions, ticker, cfg.tolerance, 0).value;
      stop.value == StopRequest(ticker, Opposite(p.side), EmergencyStop(p, cfg), Abs(p.size), true)
  {
    PositionIs(x.positions, ticker, cfg.tolerance, 0);
    TradeIs(persisted, ticker, 0);
    var position, known := PositionOf(x.positions, ticker, cfg.tolerance, 0), TradeOf(persisted, ticker, 0);
    hide PositionOf, EmergencyStop, Abs;
    trade, drift, stop := None, false, None;
    if position.Some? {
      var p := position.value;
      var t: ActiveTrade;
      if known.Some? {
        t := known.value;
        drift := t.plan.sizeCoin > 0.0 && Abs(Abs(p.size) - t.plan.sizeCoin) > cfg.tolerance;
      } else {
        t := OrphanTrade(p, cfg, if ticker in x.stopIds then x.stopIds[ticker] else 0);
        stop := Some(StopRequest(ticker, Opposite(p.side), t.plan.stopPrice, t.plan.sizeCoin, true));
        drift := true;
      }
      trade := Some(t.(state := Open, executedSize := Abs(p.size), avgPrice := p.avgPrice,
                       avgPriceFix := if p.avgPriceFix > 0.0 then p.avgPriceFix else p.avgPrice));
    } else if known.Some? {
      drift := true;
    }
  }

  // ---------------------------------------------------------------- the whole run

  function IndexFor(trades: seq<ActiveTrade>, ticker: Ticker, k: nat): (r: Option<nat>)
    requires k <= |trades|
    ensures r.Some? ==> k <= r.value < |trades| && trades[r.value].plan.ticker == ticker
    ensures r == None ==> forall i :: k <= i < |trades| ==> trades[i].plan.ticker != ticker
    decreases |trades| - k
  {
    if k == |trades| then None
    else if trades[k].plan.ticker == ticker then Some(k)
    else IndexFor(trades, ticker, k + 1)
  }

  /** One open trade for each of these tickers with a position, as the exchange reports it, and no other. */
  ghost predicate OneEach(trades: seq<ActiveTrade>, persisted: seq<ActiveTrade>, x: Exchange, tickers: set<Ticker>,
      cfg: Config) {
    && (forall i :: 0 <= i < |trades| ==> IsRecovered(trades[i], persisted, x, tickers, cfg))
    && (forall i, j :: 0 <= i < j < |trades| ==> trades[i].plan.ticker != trades[j].plan.ticker)
    && (forall t :: t in tickers && PositionOf(x.positions, t, cfg.tolerance, 0).Some? ==>
        exists i :: 0 <= i < |trades| && trades[i].plan.ticker == t)
  }

  /** The recovered trade of its ticker, but for exits it adopted from the ticker's orders. */
  ghost predicate IsRecovered(t: ActiveTrade, persisted: seq<ActiveTrade>, x: Exchange, tickers: set<Ticker>, cfg: Config) {
    var p := PositionOf(x.positions, t.plan.ticker, cfg.tolerance, 0);
    t.plan.ticker in tickers && p.Some? && Adopted(RecoveredTrade(persisted, x, cfg, p.value), t, x.OrdersOf(t.plan.ticker))
  }

  /** An order is referred to by a recovered trade exactly when it is not cancelled. */
  ghost predicate Decided(trades: seq<ActiveTrade>, cancelled: seq<Cancel>, ticker: Ticker, orders: seq<RestOrder>) {
    forall k :: 0 <= k < |orders| ==> (Used(trades, orders[k].id) <==> Cancel(ticker, orders[k].id) !in cancelled)
  }

  ghost predicate AllDecided(trades: seq<ActiveTrade>, cancelled: seq<Cancel>, x: Exchange, tickers: set<Ticker>, cfg: Config) {
    && (cfg.cancelOrphans ==> forall t :: t in tickers ==> Decided(trades, cancelled, t, x.OrdersOf(t)))
    && (forall c :: c in cancelled ==> cfg.cancelOrphans && c.ticker in tickers && IsOrder(x.OrdersOf(c.ticker), c.id))
  }

  ghost predicate IsOrder(orders: seq<RestOrder>, id: int) {
    exists k :: 0 <= k < |orders| && orders[k].id == id
  }

  /** No recovered trade is without a stop while the exchange has a stop order of its ticker that nobody took. */
  ghost predicate StopsKept(trades: seq<ActiveTrade>, x: Exchange) {
    forall i :: 0 <= i < |trades| ==> StopsTaken(trades, Some(i), x.OrdersOf(trades[i].plan.ticker), |x.OrdersOf(trades[i].plan.ticker)|)
  }

  ghost predicate Owned(trades: seq<ActiveTrade>, x: Exchange) {
    forall i :: 0 <= i < |trades| ==> Owns(trades[i], x)
  }

  /** Orders the trade refers to are orders of its ticker. */
  ghost predicate Owns(t: ActiveTrade, x: Exchange) {
    forall u, k :: 0 <= k < |x.OrdersOf(u)| && Refers(t, x.OrdersOf(u)[k].id) ==> u == t.plan.ticker
  }

  lemma {:induction false} OwnIdsAreOwned(t: ActiveTrade, persisted: seq<ActiveTrade>, x: Exchange)
    requires IdsSound(persisted, x) && OwnIds(t, persisted, x)
    ensures Owns(t, x)
  {
  }

  lemma {:induction false} AdoptingOwns(before: ActiveTrade, after: ActiveTrade, persisted: seq<ActiveTrade>, x: Exchange)
    requires IdsSound(persisted, x) && Owns(before, x) && Adopted(before, after, x.OrdersOf(before.plan.ticker))
    ensures Owns(after, x)
  {
  }

  /** Orders of other tickers are used after a ticker's turn exactly when they were before. */
  lemma {:induction false} UsedElsewhere(trades: seq<ActiveTrade>, trade: Option<ActiveTrade>, trades': seq<ActiveTrade>,
      at: Option<nat>,
      x: Exchange, ticker: Ticker, u: Ticker, k: nat)
    requires Owned(trades, x) && Owned(trades', x) && u != ticker && k < |x.OrdersOf(u)|
    requires var all := if trade.Some? then trades + [trade.value] else trades; Touches(all, trades', at, ticker)
    requires trade.Some? ==> trade.value.plan.ticker == ticker && Owns(trade.value, x)
    ensures Used(trades', x.OrdersOf(u)[k].id) <==> Used(trades, x.OrdersOf(u)[k].id)
  {
  }

  /** A ticker's turn changes its own trade only, and that trade stays the ticker's. */
  ghost predicate Touches(trades: seq<ActiveTrade>, trades': seq<ActiveTrade>, at: Option<nat>, ticker: Ticker) {
    && |trades'| == |trades| && (at.Some? ==> at.value < |trades|)
    && (forall i :: 0 <= i < |trades| && at != Some(i) ==> trades'[i] == trades[i])
    && (at.Some? ==> trades[at.value].plan.ticker == ticker && trades'[at.value].plan.ticker == ticker)
  }

  lemma {:induction false} OneMore(trades: seq<ActiveTrade>, trade: Option<ActiveTrade>, trades': seq<ActiveTrade>,
      persisted: seq<ActiveTrade>, x: Exchange, done: set<Ticker>, ticker: Ticker, cfg: Config)
    requires OneEach(trades, persisted, x, done, cfg) && ticker !in done
    requires trade.Some? <==> PositionOf(x.positions, ticker, cfg.tolerance, 0).Some?
    requires trade.Some? ==> trade.value == RecoveredTrade(persisted, x, cfg, PositionOf(x.positions, ticker, cfg.tolerance, 0).value)
    requires trade.Some? ==> trade.value.plan.ticker == ticker
    requires |trades'| == |trades| + (if trade.Some? then 1 else 0) && forall i :: 0 <= i < |trades| ==> trades'[i] == trades[i]
    requires trade.Some? ==> Adopted(trade.value, trades'[|trades|], x.OrdersOf(ticker))
    ensures OneEach(trades', persisted, x, done + {ticker}, cfg)
  {
    hide PositionOf, RecoveredTrade;
    forall i | 0 <= i < |trades'|
      ensures IsRecovered(trades'[i], persisted, x, done + {ticker}, cfg)
      ensures if i < |trades| then trades'[i].plan.ticker in done else trades'[i].plan.ticker == ticker
    {
      if i < |trades| {
        assert IsRecovered(trades[i], persisted, x, done, cfg);
      }
    }
    forall t | t in done + {ticker} && PositionOf(x.positions, t, cfg.tolerance, 0).Some?
      ensures exists i :: 0 <= i < |trades'| && trades'[i].plan.ticker == t
    {
      if t != ticker {
        var i :| 0 <= i < |trades| && trades[i].plan.ticker == t;
        assert trades'[i].plan.ticker == t;
      }
    }
  }

  lemma {:induction false} MoreDecided(trades: seq<ActiveTrade>, trade: Option<ActiveTrade>, trades': seq<ActiveTrade>,
      at: Option<nat>,
      cancelled: seq<Cancel>, cancelled': seq<Cancel>, x: Exchange, done: set<Ticker>, ticker: Ticker, cfg: Config)
    requires Owned(trades, x) && Owned(trades', x) && ticker !in done
    requires var all := if trade.Some? then trades + [trade.value] else trades; Touches(all, trades', at, ticker)
    requires trade.Some? ==> trade.value.plan.ticker == ticker && Owns(trade.value, x)
    requires AllDecided(trades, cancelled, x, done, cfg)
    requires CancelledSoFar(cancelled, cancelled', trades', ticker, x.OrdersOf(ticker), |x.OrdersOf(ticker)|, cfg)
    ensures AllDecided(trades', cancelled', x, done + {ticker}, cfg)
  {
    hide Owned, Touches, Used;
    var orders := x.OrdersOf(ticker);
    forall c | c in cancelled' ensures cfg.cancelOrphans && c.ticker in done + {ticker} && IsOrder(x.OrdersOf(c.ticker), c.id) {
      if c !in cancelled {
        assert Orphan(trades', ticker, orders, |orders|, c);
      }
    }
    if cfg.cancelOrphans {
      forall t | t in done ensures Decided(trades', cancelled', t, x.OrdersOf(t)) {
        assert Decided(trades, cancelled, t, x.OrdersOf(t));
        forall k | 0 <= k < |x.OrdersOf(t)|
          ensures Used(trades', x.OrdersOf(t)[k].id) <==> Cancel(t, x.OrdersOf(t)[k].id) !in cancelled'
        {
          UsedElsewhere(trades, trade, trades', at, x, ticker, t, k);
          assert !Orphan(trades', ticker, orders, |orders|, Cancel(t, x.OrdersOf(t)[k].id));
        }
      }
      forall k | 0 <= k < |orders| ensures Used(trades', orders[k].id) <==> Cancel(ticker, orders[k].id) !in cancelled' {
        assert Orphan(trades', ticker, orders, |orders|, Cancel(ticker, orders[k].id)) <==> !Used(trades', orders[k].id);
      }
      assert Decided(trades', cancelled', ticker, orders);
    }
  }

  lemma {:induction false} MoreStopsKept(trades: seq<ActiveTrade>, trade: Option<ActiveTrade>, trades': seq<ActiveTrade>,
      at: Option<nat>,
      x: Exchange, ticker: Ticker)
    requires Owned(trades, x) && Owned(trades', x) && StopsKept(trades, x)
    requires forall i :: 0 <= i < |trades| ==> trades[i].plan.ticker != ticker
    requires var all := if trade.Some? then trades + [trade.value] else trades; Touches(all, trades', at, ticker)
    requires trade.Some? ==> trade.value.plan.ticker == ticker && Owns(trade.value, x) && at == Some(|trades|)
    requires StopsTaken(trades', at, x.OrdersOf(ticker), |x.OrdersOf(ticker)|)
    ensures StopsKept(trades', x)
  {
    hide Owned, Used, Owns;
    forall i | 0 <= i < |trades'|
      ensures StopsTaken(trades', Some(i), x.OrdersOf(trades'[i].plan.ticker), |x.OrdersOf(trades'[i].plan.ticker)|)
    {
      if i < |trades| {
        var t := trades[i].plan.ticker;
        assert trades'[i] == trades[i] && StopsTaken(trades, Some(i), x.OrdersOf(t), |x.OrdersOf(t)|);
        forall k | 0 <= k < |x.OrdersOf(t)| ensures Used(trades', x.OrdersOf(t)[k].id) <==> Used(trades, x.OrdersOf(t)[k].id) {
          UsedElsewhere(trades, trade, trades', at, x, ticker, t, k);
        }
      }
    }
  }

  lemma {:induction false} IdsAreFresh(persisted: seq<ActiveTrade>, x: Exchange, ticker: Ticker)
    requires IdsSound(persisted, x)
    ensures Fresh(x.OrdersOf(ticker))
  {
  }

  lemma {:induction false} TurnTouches(trades: seq<ActiveTrade>, trade: Option<ActiveTrade>, trades': seq<ActiveTrade>,
      at: Option<nat>,
      persisted: seq<ActiveTrade>, x: Exchange, done: set<Ticker>, ticker: Ticker, cfg: Config)
    requires OneEach(trades, persisted, x, done, cfg) && ticker !in done
    requires trade.Some? ==> trade.value.plan.ticker == ticker
    requires var all := if trade.Some? then trades + [trade.value] else trades;
      && at == IndexFor(all, ticker, 0) && |trades'| == |all|
      && (forall i :: 0 <= i < |all| && at != Some(i) ==> trades'[i] == all[i])
      && (at.Some? ==> Adopted(all[at.value], trades'[at.value], x.OrdersOf(ticker)))
    ensures forall i :: 0 <= i < |trades| ==> trades[i].plan.ticker != ticker
    ensures at == if trade.Some? then Some(|trades|) else None
    ensures Touches(if trade.Some? then trades + [trade.value] else trades, trades', at, ticker)
  {
    hide PositionOf, RecoveredTrade;
    assert forall i :: 0 <= i < |trades| ==> IsRecovered(trades[i], persisted, x, done, cfg);
    assert forall i :: 0 <= i < |trades| ==> trades[i].plan.ticker in done;
    if trade.Some? {
      assert (trades + [trade.value])[|trades|] == trade.value;
    }
  }

  lemma {:induction false} TurnOwns(trades: seq<ActiveTrade>, trade: Option<ActiveTrade>, trades': seq<ActiveTrade>,
      at: Option<nat>,
      persisted: seq<ActiveTrade>, x: Exchange, ticker: Ticker)
    requires Owned(trades, x) && IdsSound(persisted, x)
    requires trade.Some? ==> trade.value.plan.ticker == ticker && OwnIds(trade.value, persisted, x)
    requires at == if trade.Some? then Some(|trades|) else None
    requires Touches(if trade.Some? then trades + [trade.value] else trades, trades', at, ticker)
    requires trade.Some? ==> Adopted(trade.value, trades'[at.value], x.OrdersOf(ticker))
    ensures trade.Some? ==> Owns(trade.value, x)
    ensures Owned(trades', x)
  {
    hide IdsSound, OwnIds, Owns;
    if trade.Some? {
      OwnIdsAreOwned(trade.value, persisted, x);
      AdoptingOwns(trade.value, trades'[|trades|], persisted, x);
    }
    forall i | 0 <= i < |trades'| ensures Owns(trades'[i], x) {
      if i < |trades| {
        assert trades'[i] == trades[i];
      }
    }
  }

  /** All that holds once these tickers had their turn. */
  ghost predicate Recovered(trades: seq<ActiveTrade>, cancelled: seq<Cancel>, persisted: seq<ActiveTrade>, x: Exchange,
      tickers: set<Ticker>, cfg: Config) {
    && OneEach(trades, persisted, x, tickers, cfg)
    && (IdsSound(persisted, x) ==> Owned(trades, x) && StopsKept(trades, x) && AllDecided(trades, cancelled, x, tickers, cfg))
  }

  /** After a ticker's turn everything said about the tickers done holds for it too. */
  lemma {:induction false} TurnDone(trades: seq<ActiveTrade>, trade: Option<ActiveTrade>, trades': seq<ActiveTrade>,
      at: Option<nat>,
      cancelled: seq<Cancel>, cancelled': seq<Cancel>, persisted: seq<ActiveTrade>, x: Exchange, done: set<Ticker>,
      ticker: Ticker, cfg: Config)
    requires Recovered(trades, cancelled, persisted, x, done, cfg) && ticker !in done
    requires trade.Some? <==> PositionOf(x.positions, ticker, cfg.tolerance, 0).Some?
    requires trade.Some? ==> trade.value == RecoveredTrade(persisted, x, cfg, PositionOf(x.positions, ticker, cfg.tolerance, 0).value)
    requires trade.Some? ==> trade.value.plan.ticker == ticker && OwnIds(trade.value, persisted, x)
    requires var all := if trade.Some? then trades + [trade.value] else trades;
      && at == IndexFor(all, ticker, 0) && |trades'| == |all|
      && (forall i :: 0 <= i < |all| && at != Some(i) ==> trades'[i] == all[i])
      && (at.Some? ==> Adopted(all[at.value], trades'[at.value], x.OrdersOf(ticker)))
    requires Fresh(x.OrdersOf(ticker)) ==>
      && CancelledSoFar(cancelled, cancelled', trades', ticker, x.OrdersOf(ticker), |x.OrdersOf(ticker)|, cfg)
      && StopsTaken(trades', at, x.OrdersOf(ticker), |x.OrdersOf(ticker)|)
    ensures Recovered(trades', cancelled', persisted, x, done + {ticker}, cfg)
  {
    hide PositionOf, RecoveredTrade, OneEach, Owned, StopsKept, AllDecided, IdsSound, Fresh, OwnIds, Owns, Adopted,
        CancelledSoFar, StopsTaken, Touches, IndexFor;
    TurnTouches(trades, trade, trades', at, persisted, x, done, ticker, cfg);
    OneMore(trades, trade, trades', persisted, x, done, ticker, cfg);
    if IdsSound(persisted, x) {
      IdsAreFresh(persisted, x, ticker);
      TurnOwns(trades, trade, trades', at, persisted, x, ticker);
      MoreDecided(trades, trade, trades', at, cancelled, cancelled', x, done, ticker, cfg);
      MoreStopsKept(trades, trade, trades', at, x, ticker);
    }
  }

  datatype Result = Result(autoAck: bool, recovered: seq<ActiveTrade>)

  function TickersOf(persisted: seq<ActiveTrade>, positions: seq<ServerPosition>): set<Ticker> {
    (set t | t in persisted :: t.plan.ticker) + (set p | p in positions :: p.ticker)
  }

  /** A stop asked for at start-up protects a position nobody knew: reduce-only, opposite, of its size. */
  predicate Protects(stop: StopRequest, persisted: seq<ActiveTrade>, x: Exchange, cfg: Config) {
    var p := PositionOf(x.positions, stop.ticker, cfg.tolerance, 0);
    && TradeOf(persisted, stop.ticker, 0) == None && p.Some?
    && stop == StopRequest(stop.ticker, Opposite(p.value.side), EmergencyStop(p.value, cfg), Abs(p.value.size), true)
  }

  predicate IsOrphan(persisted: seq<ActiveTrade>, x: Exchange, ticker: Ticker, cfg: Config) {
    PositionOf(x.positions, ticker, cfg.tolerance, 0).Some? && TradeOf(persisted, ticker, 0) == None
  }

  /** Exactly one protective stop is asked for each orphan position of these tickers. */
  ghost predicate AllProtect(stops: seq<StopRequest>, persisted: seq<ActiveTrade>, x: Exchange, tickers: set<Ticker>,
      cfg: Config) {
    && (forall i :: 0 <= i < |stops| ==> Protects(stops[i], persisted, x, cfg) && stops[i].ticker in tickers)
    && (forall i, j :: 0 <= i < j < |stops| ==> stops[i].ticker != stops[j].ticker)
    && (forall t :: t in tickers && IsOrphan(persisted, x, t, cfg) ==> exists i :: 0 <= i < |stops| && stops[i].ticker == t)
  }

  ghost predicate DriftAmong(persisted: seq<ActiveTrade>, x: Exchange, tickers: set<Ticker>, tolerance: real) {
    exists t :: t in tickers && Drifts(persisted, x, t, tolerance)
  }

  /** One ticker: its trade is recovered, its orders are given out or cancelled. */
  method Turn(ticker: Ticker, persisted: seq<ActiveTrade>, x: Exchange, cfg: Config, trades: seq<ActiveTrade>,
      cancelled: seq<Cancel>,
      ghost done: set<Ticker>)
    returns (trades': seq<ActiveTrade>, cancelled': seq<Cancel>, drift: bool, stop: Option<StopRequest>)
    requires Recovered(trades, cancelled, persisted, x, done, cfg) && ticker !in done
    ensures Recovered(trades', cancelled', persisted, x, done + {ticker}, cfg)
    ensures drift <==> Drifts(persisted, x, ticker, cfg.tolerance)
    ensures stop.Some? <==> IsOrphan(persisted, x, ticker, cfg)
    ensures stop.Some? ==> Protects(stop.value, persisted, x, cfg) && stop.value.ticker == ticker
  {
    hide OneEach, AllDecided, StopsKept, Owned, Drifts, IdsSound, CancelledSoFar, StopsTaken, Adopted, OwnIds,
        PositionOf, RecoveredTrade, EmergencyStop, Fresh;
    var trade: Option<ActiveTrade>;
    trade, drift, stop := RecoverTicker(ticker, persisted, x, cfg);
    var all := if trade.Some? then trades + [trade.value] else trades;
    var at := IndexFor(all, ticker, 0);
    trades', cancelled' := SettleOrders(all, at, ticker, x.OrdersOf(ticker), cfg, cancelled);
    TurnDone(trades, trade, trades', at, cancelled, cancelled', persisted, x, done, ticker, cfg);
  }

  /** The whole recovery, ticker by ticker in whichever order. */
  method Run(loaded: Option<seq<ActiveTrade>>, x: Exchange, cfg: Config)
    returns (result: Result, cancelled: seq<Cancel>, stops: seq<StopRequest>)
    ensures var tickers := TickersOf(Persisted(loaded), x.positions);
      && OneEach(result.recovered, Persisted(loaded), x, tickers, cfg)
      && (IdsSound(Persisted(loaded), x) ==> AllDecided(result.recovered, cancelled, x, tickers, cfg) && StopsKept(result.recovered, x))
      && (result.autoAck <==> cfg.autoAckOnClean && forall t :: t in tickers ==> !Drifts(Persisted(loaded), x, t, cfg.tolerance))
      && AllProtect(stops, Persisted(loaded), x, tickers, cfg)
  {
    hide OneEach, AllDecided, StopsKept, Drifts, IdsSound, Recovered, AllProtect, Protects, IsOrphan, DriftAmong, TickersOf;
    var persisted := Persisted(loaded);
    var tickers := TickersOf(persisted, x.positions);
    var drift := false;
    var trades: seq<ActiveTrade> := [];
    cancelled, stops := [], [];
    var todo := tickers;
    ghost var done: set<Ticker> := {};
    NothingYet(persisted, x, cfg);
    while todo != {}
      invariant done + todo == tickers && done !! todo
      invariant Recovered(trades, cancelled, persisted, x, done, cfg)
      invariant drift <==> DriftAmong(persisted, x, done, cfg.tolerance)
      invariant AllProtect(stops, persisted, x, done, cfg)
      decreases |todo|
    {
      var ticker :| ticker in todo;
      var drifts, stop;
      trades, cancelled, drifts, stop := Turn(ticker, persisted, x, cfg, trades, cancelled, done);
      DriftGrows(persisted, x, done, ticker, cfg.tolerance);
      drift := drift || drifts;
      ProtectGrows(stops, stop, persisted, x, done, ticker, cfg);
      if stop.Some? {
        stops := stops + [stop.value];
      }
      todo, done := todo - {ticker}, done + {ticker};
    }
    assert done == tickers;
    result := Result(cfg.autoAckOnClean && !drift, trades);
    RecoveredIs(trades, cancelled, persisted, x, tickers, cfg);
  }

  lemma {:induction false} DriftGrows(persisted: seq<ActiveTrade>, x: Exchange, tickers: set<Ticker>, ticker: Ticker,
      tolerance: real)
    ensures DriftAmong(persisted, x, tickers + {ticker}, tolerance) <==>
      DriftAmong(persisted, x, tickers, tolerance) || Drifts(persisted, x, ticker, tolerance)
  {
  }

  lemma {:induction false} ProtectGrows(stops: seq<StopRequest>, stop: Option<StopRequest>, persisted: seq<ActiveTrade>,
      x: Exchange,
      done: set<Ticker>, ticker: Ticker, cfg: Config)
    requires AllProtect(stops, persisted, x, done, cfg) && ticker !in done
    requires stop.Some? <==> IsOrphan(persisted, x, ticker, cfg)
    requires stop.Some? ==> Protects(stop.value, persisted, x, cfg) && stop.value.ticker == ticker
    ensures AllProtect(if stop.Some? then stops + [stop.value] else stops, persisted, x, done + {ticker}, cfg)
  {
    hide Protects, IsOrphan;
    var after := if stop.Some? then stops + [stop.value] else stops;
    assert stop.Some? ==> after[|stops|] == stop.value;
    forall t | t in done && IsOrphan(persisted, x, t, cfg) ensures exists i :: 0 <= i < |after| && after[i].ticker == t {
      var i :| 0 <= i < |stops| && stops[i].ticker == t;
      assert after[i].ticker == t;
    }
  }

  function Persisted(loaded: Option<seq<ActiveTrade>>): seq<ActiveTrade> {
    if loaded.Some? then loaded.value else []
  }

  lemma {:induction false} RecoveredIs(trades: seq<ActiveTrade>, cancelled: seq<Cancel>, persisted: seq<ActiveTrade>,
      x: Exchange,
      tickers: set<Ticker>, cfg: Config)
    requires Recovered(trades, cancelled, persisted, x, tickers, cfg)
    ensures OneEach(trades, persisted, x, tickers, cfg)
    ensures IdsSound(persisted, x) ==> StopsKept(trades, x) && AllDecided(trades, cancelled, x, tickers, cfg)
    ensures DriftAmong(persisted, x, tickers, cfg.tolerance) <==> exists t :: t in tickers && Drifts(persisted, x, t, cfg.tolerance)
  {
  }

  lemma {:induction false} NothingYet(persisted: seq<ActiveTrade>, x: Exchange, cfg: Config)
    ensures Recovered([], [], persisted, x, {}, cfg) && !DriftAmong(persisted, x, {}, cfg.tolerance) && AllProtect([], persisted, x, {}, cfg)
  {
  }
}
