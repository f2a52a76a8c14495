/** What live order handling decides: matching, exits, and which moves a trade may make. */
module LiveModel {
  import opened Domain
  import opened Increments
  import opened Trading

  /** Times in nanoseconds. */
  datatype Config = Config(maxSlippageBps: real, maxLossPct: real, reservationTimeout: int)

  datatype Order = Order(ticker: Ticker, side: Side, price: real, size: real, kind: OrderType, reduceOnly: bool)

  datatype Request = Place(order: Order) | CancelOrder(id: int, ticker: Ticker) | CancelAllOrders(ticker: Ticker)

  datatype OrderStatus = Announced | Working | Done

  datatype OrderUpdate = OrderUpdate(
    id: int, ticker: Ticker, side: Side, kind: OrderType, filledPrice: real, size: real, filledSize: real,
    status: OrderStatus, time: int, clientId: string)

  datatype Reason =
    | StopHit | Target1Rest | Target2Hit | Stagnation | WeakFollowThrough | LossKill | BeStopFailed | SubmitTimeout
    | Asked(text: string)

  datatype ClosedTrade = ClosedTrade(
    plan: TradePlan, entryPrice: real, exitPrice: real, sizeFilled: real, pnlUsd: real, reason: Reason)

  datatype Outcome = Waiting | Resolved | NotFound

  /** The answer of the reconciliator about one unclear submission. */
  datatype Reconciled = Reconciled(outcome: Outcome, orderId: Option<int>, intent: Option<Intent>)

  datatype Intent = Intent(ticker: Ticker, side: Side, size: real)

  type TradeBook = map<Ticker, seq<ActiveTrade>>

  /** A count for each trade of the book. */
  type Tallies = map<Ticker, seq<nat>>

  type Metas = map<Ticker, TickerMeta>

  type Marks = map<Ticker, real>

  const SIZE_EPS := 0.000001

  const REARM_AFTER: int := 5 * 1_000_000_000

  function MetaOf(metas: Metas, ticker: Ticker): TickerMeta {
    if ticker in metas then metas[ticker] else DEFAULT_META
  }

  function Reservation(plan: TradePlan): real {
    Value(plan.sizeCoin, plan.entryPrice)
  }

  function Released(reserved: real, plan: TradePlan): real {
    Max(0.0, reserved - Reservation(plan))
  }

  // ---------------------------------------------------------------- matching an update

  /** The roles an update's order may have for a trade; ids decide before first-sight guesses. */
  datatype Roles = Roles(entry: bool, stop: bool, tp1: bool, tp2: bool) {
    predicate Some() {
      entry || stop || tp1 || tp2
    }
  }

  predicate ById(u: OrderUpdate, id: int) {
    u.id != 0 && u.id == id
  }

  predicate ByClient(t: ActiveTrade, u: OrderUpdate) {
    u.clientId != "" && t.clientId != "" && u.clientId == t.clientId && t.entryId == 0
  }

  predicate SizeClose(a: real, b: real) {
    Abs(a - b) < Max(SIZE_EPS, Max(a, b) * 0.0001)
  }

  predicate Unknown(t: ActiveTrade, u: OrderUpdate) {
    !ById(u, t.entryId) && !ByClient(t, u) && !ById(u, t.stopId) && !ById(u, t.tp1Id) && !ById(u, t.tp2Id)
  }

  predicate FreshEntry(t: ActiveTrade, u: OrderUpdate) {
    Unknown(t, u) && t.entryId == 0 && (u.kind == Limit || u.kind == Market) && u.side == t.plan.side && SizeClose(t.plan.sizeCoin, u.size)
  }

  predicate FreshStop(t: ActiveTrade, u: OrderUpdate) {
    Unknown(t, u) && t.stopId == 0 && u.kind == StopLoss && u.side != t.plan.side
  }

  predicate FreshTarget(t: ActiveTrade, u: OrderUpdate) {
    Unknown(t, u) && t.tp1Id == 0 && u.kind == TakeProfit && u.side != t.plan.side
  }

  function RolesOf(t: ActiveTrade, u: OrderUpdate): Roles {
    Roles(ById(u, t.entryId) || ByClient(t, u) || FreshEntry(t, u),
          ById(u, t.stopId) || FreshStop(t, u),
          ById(u, t.tp1Id) || FreshTarget(t, u),
          ById(u, t.tp2Id))
  }

  /** The trade with the order's id noted in the role it was first seen in. */
  function Claim(t: ActiveTrade, u: OrderUpdate): ActiveTrade {
    t.(entryId := if ByClient(t, u) || FreshEntry(t, u) then u.id else t.entryId,
       stopId := if FreshStop(t, u) then u.id else t.stopId,
       tp1Id := if FreshTarget(t, u) then u.id else t.tp1Id)
  }

  /** Closed trades and trades being closed by force take no more updates. */
  predicate Concerns(t: ActiveTrade, u: OrderUpdate) {
    t.state != Closed && t.state != EmergencyClosing && RolesOf(t, u).Some()
  }

  predicate IsFirst(list: seq<ActiveTrade>, u: OrderUpdate, at: nat) {
    at < |list| && Concerns(list[at], u) && forall i :: 0 <= i < at ==> !Concerns(list[i], u)
  }

  /** An id once known to a trade is never replaced by an update, and no update names two new orders. */
  lemma {:induction false} ClaimKeepsKnownIds(t: ActiveTrade, u: OrderUpdate)
    ensures var c := Claim(t, u);
      && (t.entryId != 0 ==> c.entryId == t.entryId) && (t.stopId != 0 ==> c.stopId == t.stopId)
      && (t.tp1Id != 0 ==> c.tp1Id == t.tp1Id) && c.tp2Id == t.tp2Id
      && (c.entryId == t.entryId || c.stopId == t.stopId) && (c.entryId == t.entryId || c.tp1Id == t.tp1Id)
      && (c.stopId == t.stopId || c.tp1Id == t.tp1Id)
      && c == t.(entryId := c.entryId, stopId := c.stopId, tp1Id := c.tp1Id)
  {
    hide SizeClose;
  }

  /**
   * After an order's first update, every later update of the same order is routed to the same
   * roles by its id alone, whatever kind, side and size it then shows.
   */
  lemma {:induction false} ClaimDecidesRouting(t: ActiveTrade, u: OrderUpdate, later: OrderUpdate)
    requires RolesOf(t, u).Some() && u.id != 0 && later.id == u.id && later.clientId == u.clientId
    ensures RolesOf(Claim(t, u), later) == RolesOf(t, u)
    ensures Claim(Claim(t, u), later) == Claim(t, u)
  {
    hide SizeClose;
  }

  // ---------------------------------------------------------------- orders that close

  function TargetSize(t: ActiveTrade, meta: TickerMeta): real {
    var raw := t.executedSize * t.plan.tp1SizeRatio;
    if meta.sizeIncrement > 0.0 then Whole(raw, meta.sizeIncrement) else raw
  }

  function CloseOrder(t: ActiveTrade): Order {
    Order(t.plan.ticker, Opposite(t.plan.side), 0.0, t.executedSize, Market, true)
  }

  function StopOrder(t: ActiveTrade): Order {
    Order(t.plan.ticker, Opposite(t.plan.side), t.plan.stopPrice, t.executedSize, StopLoss, true)
  }

  function TargetOrder(t: ActiveTrade, meta: TickerMeta): Order {
    Order(t.plan.ticker, Opposite(t.plan.side), t.plan.tp1Price, TargetSize(t, meta), TakeProfit, true)
  }

  /**
   * The order can only reduce this trade: reduce-only, on the other side, and no larger than what
   * was executed; a target is for a trade with size and within its fraction, up to a billionth of
   * an increment.
   */
  ghost predicate Reduces(o: Order, t: ActiveTrade, metas: Metas) {
    && o.reduceOnly && o.ticker == t.plan.ticker && o.side == Opposite(t.plan.side)
    && (o.kind == TakeProfit ==> t.executedSize > 0.0)
    && o.size <= if o.kind == TakeProfit then Share(t) + Slack(MetaOf(metas, t.plan.ticker)) else t.executedSize
  }

  function Share(t: ActiveTrade): real {
    t.executedSize * t.plan.tp1SizeRatio
  }

  lemma {:induction false} TargetReduces(t: ActiveTrade, metas: Metas)
    requires t.executedSize > 0.0
    ensures Reduces(TargetOrder(t, MetaOf(metas, t.plan.ticker)), t, metas)
  {
  }

  /** With a fraction of at most one, no closing order passes the executed size by more than the slack. */
  lemma {:induction false} ReducesWithinSize(o: Order, t: ActiveTrade, metas: Metas)
    requires Reduces(o, t, metas) && t.plan.tp1SizeRatio <= 1.0
    ensures o.size <= t.executedSize + Slack(MetaOf(metas, t.plan.ticker))
  {
    if t.executedSize > 0.0 {
      Scale(t.plan.tp1SizeRatio, 1.0, t.executedSize);
      assert Share(t) == t.plan.tp1SizeRatio * t.executedSize;
    }
    SlackNonNegative(MetaOf(metas, t.plan.ticker), 1.0);
  }

  // ---------------------------------------------------------------- what the gateway answers

  /** The answer to the k-th request; no answer means the call failed. */
  type Gateway = nat -> Option<int>

  function IdOr0(answer: Option<int>): int {
    if answer.Some? then answer.value else 0
  }

  function Cancels(t: ActiveTrade): seq<Request> {
    (if t.stopId != 0 then [CancelOrder(t.stopId, t.plan.ticker)] else []) +
    (if t.tp1Id != 0 then [CancelOrder(t.tp1Id, t.plan.ticker)] else [])
  }

  /** The old target could not be taken back. */
  predicate TargetStays(t: ActiveTrade, gateway: Gateway, k: nat) {
    t.tp1Id != 0 && gateway(k + if t.stopId != 0 then 1 else 0) == None
  }

  predicate WantsTarget(t: ActiveTrade, meta: TickerMeta) {
    t.plan.tp1Price > 0.0 && TargetSize(t, meta) >= meta.minSize
  }

  /**
   * The requests that protect a trade, from number `k` on. Nothing is sent for a trade that is not
   * open or has no size, and no new stop before the exchange took the old one back.
   */
  function ProtectionSent(t: ActiveTrade, gateway: Gateway, k: nat, meta: TickerMeta): seq<Request> {
    if t.state != Open || t.executedSize <= 0.0 then []
    else if t.stopId != 0 && gateway(k) == None then [CancelOrder(t.stopId, t.plan.ticker)]
    else
      Cancels(t) + [Place(StopOrder(t))] +
      (if WantsTarget(t, meta) && !TargetStays(t, gateway, k) then [Place(TargetOrder(t, meta))] else [])
  }

  /** The trade with the ids of its new exits. */
  function ProtectedTrade(t: ActiveTrade, gateway: Gateway, k: nat, meta: TickerMeta): ActiveTrade {
    if t.state != Open || t.executedSize <= 0.0 || (t.stopId != 0 && gateway(k) == None) then t
    else
      var at := k + |Cancels(t)|;
      t.(stopId := IdOr0(gateway(at)),
         tp1Id := if TargetStays(t, gateway, k) then t.tp1Id else if WantsTarget(t, meta) then IdOr0(gateway(at + 1)) else 0)
  }

  ghost predicate Protected(t: ActiveTrade, t': ActiveTrade, requests: seq<Request>, gateway: Gateway, k: nat,
      meta: TickerMeta) {
    requests == ProtectionSent(t, gateway, k, meta) && t' == ProtectedTrade(t, gateway, k, meta)
  }

  /** A forced close of one trade: take back its exits, then one market order for all of it. */
  ghost predicate ForcedOut(t: ActiveTrade, t': ActiveTrade, requests: seq<Request>, gateway: Gateway, k: nat) {
    && requests == Cancels(t) + [Place(CloseOrder(t))]
    && t' == t.(stopId := 0, tp1Id := 0, state := if gateway(k + |Cancels(t)|).Some? then Closed else t.state)
  }

  /** The trade once its entry order is done with this fill. */
  function Entered(c: ActiveTrade, u: OrderUpdate): ActiveTrade {
    c.(state := Open, executedSize := u.filledSize, avgPrice := u.filledPrice, openedAt := u.time)
  }

  /** A first partial fill opens the trade. */
  function PartlyEntered(c: ActiveTrade, u: OrderUpdate): ActiveTrade {
    c.(state := Open, openedAt := u.time)
  }

  /** The stop at break-even for what the target left. */
  function BreakEvenOrder(c: ActiveTrade, rest: real): Order {
    Order(c.plan.ticker, Opposite(c.plan.side), c.avgPriceFix, rest, StopLoss, true)
  }

  predicate WantsBreakEven(c: ActiveTrade, u: OrderUpdate) {
    Max(0.0, c.executedSize - u.filledSize) > SIZE_EPS && c.avgPriceFix > 0.0
  }

  function ExitReason(r: Roles): Reason {
    if r.stop then StopHit else if r.tp2 then Target2Hit else Target1Rest
  }

  /** Everything one matched update does: the trade, the requests from number `k` on, the closed trades. */
  ghost predicate Handled(t: ActiveTrade, u: OrderUpdate, t': ActiveTrade, requests: seq<Request>, records: seq<ClosedTrade>,
      gateway: Gateway, k: nat, meta: TickerMeta, marks: Marks, cfg: Config)
  {
    var r, c := RolesOf(t, u), Claim(t, u);
    if u.status == Working && r.entry && u.filledSize > 0.0 then records == [] && FilledInPart(c, u, t', requests, gateway, k, meta)
    else if u.status != Done then t' == c && requests == [] && records == []
    else if u.filledSize <= 0.0 then
      requests == [] && records == [] && t' == (if r.stop || r.tp1 || r.tp2 then c else c.(state := Closed))
    else if r.entry then records == [] && FilledWhole(c, u, t', requests, gateway, k, meta, cfg)
    else if r.tp1 && !c.tp1Filled then TargetFilled(c.(tp1Filled := true), u, t', requests, records, gateway, k, marks)
    else requests == [] && t' == c.(state := Closed) && records == [RecordOf(c, u.filledPrice, u.filledSize, ExitReason(r))]
  }

  /** Protection is asked for before the fill is counted, and only by the fill that opens the trade. */
  ghost predicate FilledInPart(c: ActiveTrade, u: OrderUpdate, t': ActiveTrade, requests: seq<Request>, gateway: Gateway,
      k: nat, meta: TickerMeta) {
    if c.state == Open then t' == Counted(c, u) && requests == []
    else exists p :: Protected(PartlyEntered(c, u), p, requests, gateway, k, meta) && t' == Counted(p, u)
  }

  function Counted(p: ActiveTrade, u: OrderUpdate): ActiveTrade {
    p.(executedSize := p.executedSize + u.filledSize, avgPrice := u.filledPrice)
  }

  ghost predicate FilledWhole(c: ActiveTrade, u: OrderUpdate, t': ActiveTrade, requests: seq<Request>, gateway: Gateway,
      k: nat, meta: TickerMeta,
      cfg: Config)
  {
    var e := Entered(c, u);
    if SlippedTooFar(e.avgPrice, e.plan.entryPrice, cfg.maxSlippageBps) then
      requests == [Place(CloseOrder(e))] && t' == e.(state := if gateway(k).Some? then EmergencyClosing else Open)
    else Protected(e, t', requests, gateway, k, meta)
  }

  /** The old stop goes, whether or not the exchange agrees; the rest gets a break-even stop, or the whole trade is closed. */
  ghost predicate TargetFilled(c: ActiveTrade, u: OrderUpdate, t': ActiveTrade, requests: seq<Request>,
      records: seq<ClosedTrade>,
      gateway: Gateway, k: nat, marks: Marks)
  {
    var cancel := if c.stopId != 0 then [CancelOrder(c.stopId, c.plan.ticker)] else [];
    var d := c.(stopId := 0);
    if !WantsBreakEven(c, u) then t' == d && requests == cancel && records == []
    else exists more :: requests == cancel + more && Trailed(d, Max(0.0, c.executedSize - u.filledSize), t', more, records, gateway, k + |cancel|, marks)
  }

  ghost predicate Trailed(d: ActiveTrade, rest: real, t': ActiveTrade, requests: seq<Request>, records: seq<ClosedTrade>, gateway: Gateway,
      k: nat, marks: Marks)
  {
    var trail := Place(BreakEvenOrder(d, rest));
    if gateway(k).Some? then t' == d && requests == [trail] && records == []
    else
      && (exists more :: requests == [trail] + more && ForcedOut(d, t', more, gateway, k + 1))
      && records == [RecordOf(t', ExitEstimate(t', marks), t'.executedSize, BeStopFailed)]
  }

  ghost predicate AsksForStop(requests: seq<Request>) {
    exists r :: r in requests && r.Place? && r.order.kind == StopLoss
  }

  /**
   * The fill that opens a trade, if it is a partial one, is protected by a stop exactly when size
   * had been executed before it and no earlier stop is stuck at the exchange: protection is asked
   * for before the fill is counted.
   */
  lemma {:induction false} FirstPartialFillProtectedIff(t: ActiveTrade, u: OrderUpdate, t': ActiveTrade, requests: seq<Request>,
      records: seq<ClosedTrade>, gateway: Gateway, k: nat, meta: TickerMeta, marks: Marks, cfg: Config)
    requires Handled(t, u, t', requests, records, gateway, k, meta, marks, cfg)
    requires u.status == Working && RolesOf(t, u).entry && u.filledSize > 0.0 && t.state != Open
    ensures AsksForStop(requests) <==> t.executedSize > 0.0 && (Claim(t, u).stopId == 0 || gateway(k).Some?)
    ensures t'.state == Open && t'.executedSize == t.executedSize + u.filledSize
  {
    hide RolesOf, TargetSize, Abs;
    var p := PartlyEntered(Claim(t, u), u);
    StopIsAsked(p, gateway, k, meta);
  }

  lemma {:induction false} StopIsAsked(t: ActiveTrade, gateway: Gateway, k: nat, meta: TickerMeta)
    ensures AsksForStop(ProtectionSent(t, gateway, k, meta)) <==>
      t.state == Open && t.executedSize > 0.0 && (t.stopId == 0 || gateway(k).Some?)
  {
    hide TargetSize;
    var requests := ProtectionSent(t, gateway, k, meta);
    if t.state == Open && t.executedSize > 0.0 && (t.stopId == 0 || gateway(k).Some?) {
      assert requests[|Cancels(t)|] == Place(StopOrder(t));
      assert Place(StopOrder(t)) in requests;
    }
  }

  /** A fresh pending buy of 1, filled by 0.4: open, but nothing is sent, whatever the exchange would answer. */
  lemma {:induction false} FreshPartialFillIsBare(t': ActiveTrade, requests: seq<Request>, records: seq<ClosedTrade>,
      gateway: Gateway, k: nat, meta: TickerMeta, marks: Marks, cfg: Config)
    requires Handled(FRESH, PARTIAL_FILL, t', requests, records, gateway, k, meta, marks, cfg)
    ensures requests == [] && t'.state == Open && t'.executedSize == 0.4
  {
    assert RolesOf(FRESH, PARTIAL_FILL).entry;
  }

  const FRESH := ActiveTrade(
    TradePlan(Ticker("A"), Buy, Limit, 100.0, 99.0, 102.0, None, 0.5, 1.0, 0, 120.0, 0.0, 0.0),
    0, 0, "tb", 0, 0, PendingEntry, 0.0, 0.0, 0.0, false, 0)

  const PARTIAL_FILL := OrderUpdate(7, Ticker("A"), Buy, Limit, 100.0, 1.0, 0.4, Working, 1, "")

  // ---------------------------------------------------------------- closing decisions

  /** Infinite where the planned price is 0 and the real one is not. */
  predicate SlippedTooFar(entry: real, planned: real, limit: real) {
    if planned == 0.0 then entry != 0.0 else Abs(entry - planned) / planned * 10000.0 > limit
  }

  function LossPct(t: ActiveTrade, mark: real): real
    requires t.avgPrice > 0.0
  {
    (if t.plan.side == Buy then t.avgPrice - mark else mark - t.avgPrice) / t.avgPrice * 100.0
  }

  /** Why a trade has to be closed by force now, if it has. */
  function MustClose(t: ActiveTrade, marks: Marks, now: int, cfg: Config): Option<Reason> {
    if t.state != Open || t.executedSize <= 0.0 || t.avgPrice <= 0.0 || t.plan.ticker !in marks || marks[t.plan.ticker] <= 0.0 then None
    else
      var mark, elapsed := marks[t.plan.ticker], Seconds(now - t.openedAt);
      if elapsed > t.plan.noProgressTimeout && NoProgress(t.plan.side, t.avgPrice, mark) then Some(Stagnation)
      else if elapsed > t.plan.postEntryGrace && t.plan.minFollowThrough > 0.0
        && TooLittleFollowThrough(t.plan.side, t.avgPrice, mark, t.plan.minFollowThrough) then Some(WeakFollowThrough)
      else if LossPct(t, mark) > cfg.maxLossPct then Some(LossKill)
      else None
  }

  function ExitEstimate(t: ActiveTrade, marks: Marks): real {
    if t.plan.ticker in marks && marks[t.plan.ticker] > 0.0 then marks[t.plan.ticker] else t.avgPrice
  }

  function RecordOf(t: ActiveTrade, exit: real, size: real, reason: Reason): ClosedTrade {
    ClosedTrade(t.plan, t.avgPrice, exit, size, Pnl(t.plan.side, t.avgPrice, exit, size), reason)
  }

  // ---------------------------------------------------------------- the moves of a trade

  /** What anything but a cancellation may do to a trade: closed stays as it is, forced closing stays so. */
  ghost predicate Follows(before: ActiveTrade, after: ActiveTrade) {
    && after.plan == before.plan
    && (before.state == Closed ==> after == before)
    && (before.state == EmergencyClosing ==> after == before.(avgPriceFix := after.avgPriceFix))
  }

  ghost predicate AllFollow(before: seq<ActiveTrade>, after: seq<ActiveTrade>) {
    |before| <= |after| && forall i :: 0 <= i < |before| ==> Follows(before[i], after[i])
  }

  /** Every list of trades moved on; none disappeared. */
  ghost predicate BookFollows(before: TradeBook, after: TradeBook) {
    forall t :: t in before ==> t in after && AllFollow(before[t], after[t])
  }

  lemma {:induction false} BookFollowsFurther(a: TradeBook, b: TradeBook, c: TradeBook)
    requires BookFollows(a, b) && BookFollows(b, c)
    ensures BookFollows(a, c)
  {
  }

  lemma {:induction false} BookStays(a: TradeBook)
    ensures BookFollows(a, a)
  {
  }

  /** The book with one trade replaced. */
  function With(a: TradeBook, ticker: Ticker, at: nat, t: ActiveTrade): TradeBook
    requires ticker in a && at < |a[ticker]|
  {
    a[ticker := a[ticker][at := t]]
  }

  lemma {:induction false} WithTwice(a: TradeBook, ticker: Ticker, at: nat, t: ActiveTrade, u: ActiveTrade)
    requires ticker in a && at < |a[ticker]|
    ensures ticker in With(a, ticker, at, t) && |With(a, ticker, at, t)[ticker]| == |a[ticker]|
    ensures With(a, ticker, at, t)[ticker][at] == t
    ensures With(With(a, ticker, at, t), ticker, at, u) == With(a, ticker, at, u)
  {
    assert a[ticker][at := t][at := u] == a[ticker][at := u];
  }

  lemma {:induction false} OneTradeMoves(a: TradeBook, ticker: Ticker, at: nat, after: ActiveTrade)
    requires ticker in a && at < |a[ticker]| && Follows(a[ticker][at], after)
    ensures BookFollows(a, a[ticker := a[ticker][at := after]])
  {
  }

  /** How often tick closed each trade by force since the last cancellation of its ticker: at most once, and then it is being closed. */
  ghost predicate ForcedOnce(trades: TradeBook, forced: Tallies) {
    && forced.Keys == trades.Keys
    && forall t :: t in trades ==> ForcedOnceIn(trades[t], forced[t])
  }

  ghost predicate ForcedOnceIn(list: seq<ActiveTrade>, counts: seq<nat>) {
    && |counts| == |list|
    && forall i :: 0 <= i < |list| ==> counts[i] <= 1 && (counts[i] == 1 ==> list[i].state == EmergencyClosing)
  }

  ghost predicate KeyedByTicker(trades: TradeBook) {
    forall t, i :: t in trades && 0 <= i < |trades[t]| ==> trades[t][i].plan.ticker == t
  }

  /** Replacing one trade by what it became keeps everything said about the book. */
  lemma {:induction false} ReplaceKeeps(trades: TradeBook, forced: Tallies, ticker: Ticker, at: nat, after: ActiveTrade)
    requires ForcedOnce(trades, forced) && KeyedByTicker(trades) && ticker in trades && at < |trades[ticker]|
    requires Follows(trades[ticker][at], after)
    ensures var trades' := trades[ticker := trades[ticker][at := after]];
      ForcedOnce(trades', forced) && KeyedByTicker(trades') && BookFollows(trades, trades')
  {
    var trades' := trades[ticker := trades[ticker][at := after]];
    forall t | t in trades' ensures ForcedOnceIn(trades'[t], forced[t]) {
      assert ForcedOnceIn(trades[t], forced[t]);
    }
    OneTradeMoves(trades, ticker, at, after);
  }

  /** The same for the whole list of a ticker. */
  lemma {:induction false} FollowingKeeps(trades: TradeBook, forced: Tallies, ticker: Ticker, list: seq<ActiveTrade>)
    requires ForcedOnce(trades, forced) && KeyedByTicker(trades) && ticker in trades
    requires |list| == |trades[ticker]| && forall i :: 0 <= i < |list| ==> Follows(trades[ticker][i], list[i])
    ensures ForcedOnce(trades[ticker := list], forced) && KeyedByTicker(trades[ticker := list]) && BookFollows(trades, trades[ticker := list])
  {
    var trades' := trades[ticker := list];
    forall t | t in trades' ensures ForcedOnceIn(trades'[t], forced[t]) {
      assert ForcedOnceIn(trades[t], forced[t]);
    }
  }

  /** A new trade joins its ticker's list. */
  function Joined(trades: TradeBook, t: ActiveTrade): TradeBook {
    trades[t.plan.ticker := (if t.plan.ticker in trades then trades[t.plan.ticker] else []) + [t]]
  }

  function JoinedCounts(forced: Tallies, ticker: Ticker): Tallies {
    forced[ticker := (if ticker in forced then forced[ticker] else []) + [0]]
  }

  lemma {:induction false} JoiningKeeps(trades: TradeBook, forced: Tallies, t: ActiveTrade)
    requires ForcedOnce(trades, forced) && KeyedByTicker(trades)
    ensures ForcedOnce(Joined(trades, t), JoinedCounts(forced, t.plan.ticker)) && KeyedByTicker(Joined(trades, t))
    ensures BookFollows(trades, Joined(trades, t))
  {
    var trades', forced' := Joined(trades, t), JoinedCounts(forced, t.plan.ticker);
    forall u | u in trades' ensures ForcedOnceIn(trades'[u], forced'[u]) {
      assert u in trades ==> ForcedOnceIn(trades[u], forced[u]);
    }
    forall u | u in trades ensures AllFollow(trades[u], trades'[u]) {
    }
  }

  // ---------------------------------------------------------------- cancellation and clean-up

  function Cancelled(t: ActiveTrade): ActiveTrade {
    if t.state == Closed then t else t.(state := Cancelling)
  }

  function CancelledList(list: seq<ActiveTrade>): (r: seq<ActiveTrade>)
    ensures |r| == |list| && forall i :: 0 <= i < |list| ==> r[i] == Cancelled(list[i])
  {
    seq(|list|, i requires 0 <= i < |list| => Cancelled(list[i]))
  }

  /** Reservations of trades still waiting for their entry are given back, never below zero. */
  function ReleasedPending(reserved: real, list: seq<ActiveTrade>, n: nat): real
    requires n <= |list|
  {
    if n == 0 then reserved
    else
      var before := ReleasedPending(reserved, list, n - 1);
      if list[n - 1].state == PendingEntry then Released(before, list[n - 1].plan) else before
  }

  /** The entries of the trades that are not closed, in order. */
  function Alive<T>(list: seq<ActiveTrade>, values: seq<T>, n: nat): seq<T>
    requires n <= |list| == |values|
  {
    if n == 0 then []
    else if list[n - 1].state == Closed then Alive(list, values, n - 1)
    else Alive(list, values, n - 1) + [values[n - 1]]
  }

  lemma {:induction false} AliveKeeps(list: seq<ActiveTrade>, counts: seq<nat>, n: nat, ticker: Ticker)
    requires ForcedOnceIn(list, counts) && n <= |list| && forall i :: 0 <= i < |list| ==> list[i].plan.ticker == ticker
    ensures ForcedOnceIn(Alive(list, list, n), Alive(list, counts, n))
    ensures forall i :: 0 <= i < |Alive(list, list, n)| ==> Alive(list, list, n)[i].plan.ticker == ticker
  {
    if n > 0 {
      AliveKeeps(list, counts, n - 1, ticker);
    }
  }

  /** A trade that is not closed stays, behind as many as stay before it. */
  lemma {:induction false} AliveAt(list: seq<ActiveTrade>, i: nat, n: nat)
    requires i < n <= |list| && list[i].state != Closed
    ensures |Alive(list, list, i)| < |Alive(list, list, n)| && Alive(list, list, n)[|Alive(list, list, i)|] == list[i]
    decreases n
  {
    if i < n - 1 {
      AliveAt(list, i, n - 1);
    }
  }

  /** A list replaced together with its counts. */
  lemma {:induction false} ListKeeps(trades: TradeBook, forced: Tallies, ticker: Ticker,
      list: seq<ActiveTrade>, counts: seq<nat>)
    requires ForcedOnce(trades, forced) && KeyedByTicker(trades) && ForcedOnceIn(list, counts)
    requires forall i :: 0 <= i < |list| ==> list[i].plan.ticker == ticker
    ensures ForcedOnce(trades[ticker := list], forced[ticker := counts]) && KeyedByTicker(trades[ticker := list])
  {
  }

  lemma {:induction false} NoneForced(list: seq<ActiveTrade>)
    ensures ForcedOnceIn(list, seq(|list|, _ => 0))
  {
  }

  /** The closed trades of every ticker outside `todo` are gone, with their counts. */
  ghost predicate PoppedSoFar(trades: TradeBook, forced: Tallies,
      trades': TradeBook, forced': Tallies, todo: set<Ticker>)
  {
    && todo <= trades.Keys && trades'.Keys == trades.Keys == forced.Keys == forced'.Keys
    && (forall t :: t in trades ==> |forced[t]| == |trades[t]|)
    && (forall t :: t in trades ==> trades'[t] == if t in todo then trades[t] else Alive(trades[t], trades[t], |trades[t]|))
    && (forall t :: t in trades ==> forced'[t] == if t in todo then forced[t] else Alive(trades[t], forced[t], |trades[t]|))
  }

  lemma {:induction false} PopOne(trades: TradeBook, forced: Tallies,
      trades': TradeBook, forced': Tallies, todo: set<Ticker>, t: Ticker)
    requires PoppedSoFar(trades, forced, trades', forced', todo) && t in todo
    requires ForcedOnce(trades', forced') && KeyedByTicker(trades')
    ensures t in trades' && t in forced' && |forced'[t]| == |trades'[t]|
    ensures var trades'', forced'' := trades'[t := Alive(trades'[t], trades'[t], |trades'[t]|)], forced'[t := Alive(trades'[t], forced'[t], |trades'[t]|)];
      ForcedOnce(trades'', forced'') && KeyedByTicker(trades'') && PoppedSoFar(trades, forced, trades'', forced'', todo - {t})
  {
    hide Alive, ForcedOnceIn;
    PoppedLists(trades', forced', t);
    AliveKeeps(trades'[t], forced'[t], |trades'[t]|, t);
    ListKeeps(trades', forced', t, Alive(trades'[t], trades'[t], |trades'[t]|), Alive(trades'[t], forced'[t], |trades'[t]|));
  }

  lemma {:induction false} PoppedLists(trades: TradeBook, forced: Tallies, t: Ticker)
    requires ForcedOnce(trades, forced) && t in trades
    ensures t in forced && ForcedOnceIn(trades[t], forced[t]) && |forced[t]| == |trades[t]|
  {
  }

  lemma {:induction false} PopStarts(trades: TradeBook, forced: Tallies)
    requires ForcedOnce(trades, forced)
    ensures PoppedSoFar(trades, forced, trades, forced, trades.Keys)
  {
  }

  /** Nothing but closed trades disappears, and counts stay with their trades. */
  ghost predicate Popped(trades: TradeBook, forced: Tallies,
      trades': TradeBook, forced': Tallies)
  {
    && trades'.Keys == trades.Keys == forced.Keys == forced'.Keys
    && (forall t :: t in trades ==> |forced[t]| == |trades[t]|)
    && (forall t :: t in trades ==> trades'[t] == Alive(trades[t], trades[t], |trades[t]|))
    && (forall t :: t in trades ==> forced'[t] == Alive(trades[t], forced[t], |trades[t]|))
  }

  lemma {:induction false} PopEnds(trades: TradeBook, forced: Tallies,
      trades': TradeBook, forced': Tallies, todo: set<Ticker>)
    requires PoppedSoFar(trades, forced, trades', forced', todo) && todo == {}
    ensures Popped(trades, forced, trades', forced')
  {
  }

  // ---------------------------------------------------------------- closing by force

  /** A trade as it was when its close was decided, the exit price assumed and why. */
  datatype CloseAction = CloseAction(t: ActiveTrade, exit: real, reason: Reason)

  function Forced(t: ActiveTrade, marks: Marks, now: int, cfg: Config): ActiveTrade {
    if MustClose(t, marks, now, cfg).Some? then t.(state := EmergencyClosing) else t
  }

  /** One action for each trade of a list that must be closed, in order. */
  function ActionsOf(list: seq<ActiveTrade>, marks: Marks, now: int, cfg: Config, n: nat): seq<CloseAction>
    requires n <= |list|
  {
    if n == 0 then []
    else
      var before, reason := ActionsOf(list, marks, now, cfg, n - 1), MustClose(list[n - 1], marks, now, cfg);
      if reason.Some? then before + [CloseAction(list[n - 1], ExitEstimate(list[n - 1], marks), reason.value)] else before
  }

  /** The actions of all tickers, in the order they are visited. */
  ghost function ActionsAlong(trades: TradeBook, order: seq<Ticker>, marks: Marks, now: int, cfg: Config, n: nat):
    seq<CloseAction>
    requires n <= |order| && forall i :: 0 <= i < |order| ==> order[i] in trades
  {
    if n == 0 then []
    else ActionsAlong(trades, order, marks, now, cfg, n - 1) + ActionsOf(trades[order[n - 1]], marks, now, cfg, |trades[order[n - 1]]|)
  }

  lemma {:induction false} ActionsAlongPrefix(trades: TradeBook, order: seq<Ticker>, t: Ticker, marks: Marks,
      now: int, cfg: Config, n: nat)
    requires n <= |order| && t in trades && forall i :: 0 <= i < |order| ==> order[i] in trades
    ensures forall i :: 0 <= i < |order + [t]| ==> (order + [t])[i] in trades
    ensures ActionsAlong(trades, order + [t], marks, now, cfg, n) == ActionsAlong(trades, order, marks, now, cfg, n)
  {
    hide ActionsOf;
    if n > 0 {
      ActionsAlongPrefix(trades, order, t, marks, now, cfg, n - 1);
    }
  }

  /** What is sent to close these trades: for each its cancels and one market order. */
  ghost function ForcedRequests(ts: seq<ActiveTrade>, n: nat): seq<Request>
    requires n <= |ts|
  {
    if n == 0 then [] else ForcedRequests(ts, n - 1) + Cancels(ts[n - 1]) + [Place(CloseOrder(ts[n - 1]))]
  }

  ghost function TradesOf(actions: seq<CloseAction>): (r: seq<ActiveTrade>)
    ensures |r| == |actions| && forall i :: 0 <= i < |actions| ==> r[i] == actions[i].t
  {
    seq(|actions|, i requires 0 <= i < |actions| => actions[i].t)
  }

  ghost function RecordsOf(actions: seq<CloseAction>, n: nat): seq<ClosedTrade>
    requires n <= |actions|
  {
    if n == 0 then []
    else RecordsOf(actions, n - 1) + [RecordOf(actions[n - 1].t, actions[n - 1].exit, actions[n - 1].t.executedSize, actions[n - 1].reason)]
  }

  /** Closes asked for by the strategy: the open trades with size, at the estimated exit. */
  ghost function AskedActions(list: seq<ActiveTrade>, marks: Marks, text: string, n: nat): seq<CloseAction>
    requires n <= |list|
  {
    if n == 0 then []
    else
      var before := AskedActions(list, marks, text, n - 1);
      if Closable(list[n - 1]) then before + [CloseAction(list[n - 1], ExitEstimate(list[n - 1], marks), Asked(text))] else before
  }

  predicate Closable(t: ActiveTrade) {
    t.state == Open && t.executedSize > 0.0
  }

  ghost predicate NoMarket(requests: seq<Request>) {
    forall k :: 0 <= k < |requests| && requests[k].Place? ==> requests[k].order.kind != Market
  }

  lemma {:induction false} ProtectionIsNoMarket(t: ActiveTrade, gateway: Gateway, k: nat, meta: TickerMeta)
    ensures NoMarket(ProtectionSent(t, gateway, k, meta))
  {
    hide TargetSize;
  }

  /** How long a forced close is due: every trade of the ticker that must close is being closed, and counted. */
  lemma {:induction false} ForcingKeeps(trades: TradeBook, forced: Tallies, ticker: Ticker,
      list: seq<ActiveTrade>, counts: seq<nat>, marks: Marks, now: int, cfg: Config)
    requires ForcedOnce(trades, forced) && KeyedByTicker(trades) && ticker in trades
    requires |list| == |counts| == |trades[ticker]|
    requires forall i :: 0 <= i < |list| ==> list[i] == Forced(trades[ticker][i], marks, now, cfg)
    requires forall i :: 0 <= i < |list| ==>
      counts[i] == forced[ticker][i] + if MustClose(trades[ticker][i], marks, now, cfg).Some? then 1 else 0
    ensures ForcedOnce(trades[ticker := list], forced[ticker := counts]) && KeyedByTicker(trades[ticker := list])
    ensures BookFollows(trades, trades[ticker := list])
  {
    hide Seconds, NoProgress, TooLittleFollowThrough, LossPct;
    assert ForcedOnceIn(trades[ticker], forced[ticker]);
    forall i | 0 <= i < |list| ensures counts[i] <= 1 && (counts[i] == 1 ==> list[i].state == EmergencyClosing) {
    }
    FollowingKeeps(trades, forced, ticker, list);
    ListKeeps(trades, forced, ticker, list, counts);
  }

  // ---------------------------------------------------------------- unclear submissions

  /** The submission is unclear and has the answer's side and size; its ticker is not compared. */
  predicate SameIntent(t: ActiveTrade, intent: Intent) {
    t.state == SubmitUnknown && intent.side == t.plan.side
    && Abs(intent.size - t.plan.sizeCoin) <= Max(intent.size, t.plan.sizeCoin) * 0.0001
  }

  /** The trade once its unclear submission is settled. */
  function Reconcile(t: ActiveTrade, r: Reconciled): ActiveTrade {
    match r.outcome
    case Waiting => t
    case Resolved => t.(entryId := if r.orderId.Some? then r.orderId.value else t.entryId, state := PendingEntry)
    case NotFound => t.(state := Closed)
  }

  /** A submission that timed out is recorded without prices and size. */
  function TimeoutRecord(t: ActiveTrade, marks: Marks): ClosedTrade {
    RecordOf(t, ExitEstimate(t, marks), t.executedSize, SubmitTimeout).(entryPrice := 0.0, exitPrice := 0.0, sizeFilled := 0.0)
  }

  // ---------------------------------------------------------------- missing stops

  /** Open for a while, and no stop known. */
  predicate Bare(t: ActiveTrade, now: int) {
    t.state == Open && t.stopId == 0 && now - t.openedAt > REARM_AFTER
  }

  /** What is sent for the first `n` trades of a list, from request `k` on: the protection of each bare one. */
  ghost function RearmRequests(list: seq<ActiveTrade>, gateway: Gateway, k: nat, metas: Metas, now: int, n: nat): seq<Request>
    requires n <= |list|
  {
    if n == 0 then []
    else
      var before, t := RearmRequests(list, gateway, k, metas, now, n - 1), list[n - 1];
      if Bare(t, now) then before + ProtectionSent(t, gateway, k + |before|, MetaOf(metas, t.plan.ticker)) else before
  }

  ghost function RearmedTrade(list: seq<ActiveTrade>, gateway: Gateway, k: nat, metas: Metas, now: int, i: nat): ActiveTrade
    requires i < |list|
  {
    if Bare(list[i], now)
    then ProtectedTrade(list[i], gateway, k + |RearmRequests(list, gateway, k, metas, now, i)|, MetaOf(metas, list[i].plan.ticker))
    else list[i]
  }

  /** The same for the tickers of a book in the order given, but for those with unclear submissions. */
  ghost function AllRearmRequests(book: TradeBook, order: seq<Ticker>, unclear: set<Ticker>, gateway: Gateway, k: nat, metas: Metas,
      now: int, n: nat): seq<Request>
    requires n <= |order|
  {
    if n == 0 then []
    else
      var before, t := AllRearmRequests(book, order, unclear, gateway, k, metas, now, n - 1), order[n - 1];
      if t in unclear || t !in book then before
      else before + RearmRequests(book[t], gateway, k + |before|, metas, now, |book[t]|)
  }

  /** Each trade of the list got the exits it was short of; nothing else changed. */
  ghost predicate ListRearmed(list: seq<ActiveTrade>, list': seq<ActiveTrade>, gateway: Gateway, k: nat, metas: Metas, now: int) {
    |list'| == |list| && forall i :: 0 <= i < |list| ==> list'[i] == RearmedTrade(list, gateway, k, metas, now, i)
  }

  /** The same for the first `n` tickers; the others are as they were. */
  ghost predicate BookRearmed(book: TradeBook, book': TradeBook, order: seq<Ticker>, gateway: Gateway, k: nat, metas: Metas, now: int, n: nat) {
    && book'.Keys == book.Keys
    && forall j :: 0 <= j < |order| && order[j] in book ==>
      if j >= n then book'[order[j]] == book[order[j]]
      else ListRearmed(book[order[j]], book'[order[j]], gateway, k + |AllRearmRequests(book, order, {}, gateway, k, metas, now, j)|, metas, now)
  }

  /** Lists that agree on their open trades, and on the stop of every trade. */
  ghost predicate SameOpen(a: seq<ActiveTrade>, b: seq<ActiveTrade>) {
    |a| == |b| && forall i :: 0 <= i < |a| ==> a[i].stopId == b[i].stopId && (a[i].state == Open || b[i].state == Open ==> a[i] == b[i])
  }

  lemma {:induction false} SameOpenFurther(a: seq<ActiveTrade>, b: seq<ActiveTrade>, c: seq<ActiveTrade>)
    requires SameOpen(a, b) && SameOpen(b, c)
    ensures SameOpen(a, c)
  {
  }

  /** Books that agree on the open trades of every ticker. */
  ghost predicate SameOpenTrades(a: TradeBook, b: TradeBook) {
    a.Keys == b.Keys && forall t :: t in a ==> SameOpen(a[t], b[t])
  }

  lemma {:induction false} SameOpenTradesFurther(a: TradeBook, b: TradeBook, c: TradeBook)
    requires SameOpenTrades(a, b) && SameOpenTrades(b, c)
    ensures SameOpenTrades(a, c)
  {
    hide SameOpen;
    forall t | t in a ensures SameOpen(a[t], c[t]) {
      SameOpenFurther(a[t], b[t], c[t]);
    }
  }

  /** Settling an unclear submission leaves the open trades alone. */
  lemma {:induction false} SettlingKeepsOpen(a: TradeBook, ticker: Ticker, i: nat, r: Reconciled)
    requires ticker in a && i < |a[ticker]| && a[ticker][i].state == SubmitUnknown
    ensures SameOpenTrades(a, With(a, ticker, i, Reconcile(a[ticker][i], r)))
  {
  }

  /** The tickers still to be looked at, from number `n` on, have the open trades they had. */
  ghost predicate OpenAhead(book: TradeBook, book': TradeBook, order: seq<Ticker>, unclear: set<Ticker>, n: nat) {
    && book'.Keys == book.Keys
    && forall j :: n <= j < |order| && order[j] in book && order[j] !in unclear ==> SameOpen(book[order[j]], book'[order[j]])
  }

  lemma {:induction false} SameRearmRequests(a: seq<ActiveTrade>, b: seq<ActiveTrade>, gateway: Gateway, k: nat, metas: Metas, now: int, n: nat)
    requires SameOpen(a, b) && n <= |a|
    ensures |a| == |b| && RearmRequests(a, gateway, k, metas, now, n) == RearmRequests(b, gateway, k, metas, now, n)
  {
    hide ProtectionSent, MetaOf;
    if n > 0 {
      SameRearmRequests(a, b, gateway, k, metas, now, n - 1);
    }
  }

  lemma {:induction false} RearmingIsNoMarket(list: seq<ActiveTrade>, gateway: Gateway, k: nat, metas: Metas, now: int, n: nat)
    requires n <= |list|
    ensures NoMarket(RearmRequests(list, gateway, k, metas, now, n))
  {
    hide ProtectionSent, MetaOf;
    if n > 0 {
      RearmingIsNoMarket(list, gateway, k, metas, now, n - 1);
      ProtectionIsNoMarket(list[n - 1], gateway, k + |RearmRequests(list, gateway, k, metas, now, n - 1)|, MetaOf(metas, list[n - 1].plan.ticker));
    }
  }

  lemma {:induction false} AllRearmingIsNoMarket(book: TradeBook, order: seq<Ticker>, unclear: set<Ticker>, gateway: Gateway, k: nat,
      metas: Metas, now: int, n: nat)
    requires n <= |order|
    ensures NoMarket(AllRearmRequests(book, order, unclear, gateway, k, metas, now, n))
  {
    hide RearmRequests;
    if n > 0 {
      AllRearmingIsNoMarket(book, order, unclear, gateway, k, metas, now, n - 1);
      var t := order[n - 1];
      if t !in unclear && t in book {
        RearmingIsNoMarket(book[t], gateway, k + |AllRearmRequests(book, order, unclear, gateway, k, metas, now, n - 1)|, metas, now, |book[t]|);
      }
    }
  }
}
