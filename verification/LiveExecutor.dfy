/** Live order management against an exchange that may fail any call. */
module LiveExecutor {
  import opened Domain
  import opened LiveHistory
  import opened LiveModel
  import opened LiveReconcile
  import opened LiveStops
  import opened Trading

  class LiveExecutor {
    const cfg: Config
    const metas: Metas
    const gateway: Gateway
    var trades: TradeBook
    var closed: seq<ClosedTrade>
    var reserved: real
    var marks: Marks
    var lastBalance: int
    /** Every request sent so far. */
    var sent: seq<Request>
    /** Every book so far, the moves between them, and the book each request was sent from. */
    ghost var trace: Trace
    /** Forced closes by `Tick`, per trade, since the last cancellation of its ticker. */
    ghost var forced: Tallies
    /** Stops the executor may have lost sight of. */
    ghost var lost: set<nat>

    ghost function Now(): Run
      reads this`trades, this`sent, this`trace
    {
      Run(trades, sent, trace)
    }

    ghost predicate Valid()
      reads this
    {
      Sound() && Known(Now(), gateway, lost)
    }

    ghost predicate Sound()
      reads this`trades, this`sent, this`trace, this`forced
    {
      Traced(Now(), metas) && ForcedOnce(trades, forced) && KeyedByTicker(trades)
    }

    constructor (cfg: Config, metas: Metas, gateway: Gateway)
      ensures Valid() && trades == map[] && sent == [] && reserved == 0.0 && lost == {}
    {
      this.cfg, this.metas, this.gateway := cfg, metas, gateway;
      trades, closed, reserved, marks, lastBalance, sent := map[], [], 0.0, map[], 0, [];
      trace, forced, lost := Trace([map[]], [], [], {}), map[], {};
    }

    // -------------------------------------------------------------- the gateway

    /** The book has this trade at the spot, with this plan and executed size. */
    ghost predicate Backs(at: Spot, t: ActiveTrade)
      reads this`trades
    {
      Holds(trades, at) && TradeAt(trades, at).plan == t.plan && TradeAt(trades, at).executedSize == t.executedSize
    }

    /** Sends a request for a trade; an order has to reduce it, as the book now has it. */
    method Ask(request: Request, t: ActiveTrade, ghost at: Spot) returns (answer: Option<int>)
      requires Traced(Now(), metas) && Backs(at, t)
      requires request.Place? ==> Reduces(request.order, t, metas)
      modifies this`sent, this`trace
      ensures Traced(Now(), metas) && Sends(old(Now()), Now(), at)
      ensures sent == old(sent) + [request] && answer == gateway(|old(sent)|)
    {
      hide Traced;
      AskingKeeps(Now(), metas, request, Some(at));
      ghost var next := Noted(Now(), request, Some(at));
      answer := gateway(|sent|);
      sent, trace := sent + [request], next.trace;
    }

    /** Cancels the known exits of a trade; a stop that stays ends it, a target that stays does not. */
    method TakeBackExits(t: ActiveTrade, ghost at: Spot) returns (t': ActiveTrade, stopStays: bool, targetStays: bool,
        ghost requests: seq<Request>)
      requires Traced(Now(), metas) && Backs(at, t)
      modifies this`sent, this`trace
      ensures Traced(Now(), metas) && Sends(old(Now()), Now(), at) && sent == old(sent) + requests
      ensures stopStays <==> t.stopId != 0 && gateway(|old(sent)|) == None
      ensures stopStays ==> t' == t && requests == [CancelOrder(t.stopId, t.plan.ticker)]
      ensures !stopStays ==> requests == Cancels(t) && targetStays == TargetStays(t, gateway, |old(sent)|)
      ensures !stopStays ==> t' == t.(stopId := 0, tp1Id := if targetStays then t.tp1Id else 0)
    {
      hide Traced, Sends, Reduces, Holds;
      t', stopStays, targetStays, requests := t, false, false, [];
      SendsNothing(Now(), metas, at);
      if t.stopId != 0 {
        var answer := Ask(CancelOrder(t.stopId, t.plan.ticker), t, at);
        requests := requests + [CancelOrder(t.stopId, t.plan.ticker)];
        if answer == None {
          stopStays := true;
          return;
        }
        t' := t'.(stopId := 0);
      }
      if t.tp1Id != 0 {
        label Before:
        var answer := Ask(CancelOrder(t.tp1Id, t.plan.ticker), t, at);
        SendsFurther(old(Now()), old@Before(Now()), Now(), at);
        requests := requests + [CancelOrder(t.tp1Id, t.plan.ticker)];
        if answer == None {
          targetStays := true;
        } else {
          t' := t'.(tp1Id := 0);
        }
      }
    }

    method PlaceStops(t: ActiveTrade, ghost at: Spot) returns (t': ActiveTrade, ghost requests: seq<Request>)
      requires Traced(Now(), metas) && Backs(at, t)
      modifies this`sent, this`trace
      ensures Traced(Now(), metas) && Sends(old(Now()), Now(), at) && sent == old(sent) + requests
      ensures Protected(t, t', requests, gateway, |old(sent)|, MetaOf(metas, t.plan.ticker)) && OnlyExitsDiffer(t, t')
    {
      hide Traced, Sends, Reduces, Holds, TargetSize, MetaOf, Cancels, TargetStays, StopOrder, TargetOrder;
      t', requests := t, [];
      SendsNothing(Now(), metas, at);
      if t.state != Open || t.executedSize <= 0.0 {
        return;
      }
      var stopStays, targetStays;
      t', stopStays, targetStays, requests := TakeBackExits(t, at);
      if stopStays {
        return;
      }
      label Taken:
      StopReduces(t, metas);
      var stop := Ask(Place(StopOrder(t)), t, at);
      SendsFurther(old(Now()), old@Taken(Now()), Now(), at);
      t' := t'.(stopId := IdOr0(stop));
      requests := requests + [Place(StopOrder(t))];
      var meta := MetaOf(metas, t.plan.ticker);
      if t.plan.tp1Price > 0.0 && !targetStays && TargetSize(t, meta) >= meta.minSize {
        label Stopped:
        TargetReduces(t, metas);
        var target := Ask(Place(TargetOrder(t, meta)), t, at);
        SendsFurther(old(Now()), old@Stopped(Now()), Now(), at);
        t' := t'.(tp1Id := IdOr0(target));
        requests := requests + [Place(TargetOrder(t, meta))];
      }
    }

    method EmergencyClose(t: ActiveTrade, ghost at: Spot) returns (t': ActiveTrade, ghost requests: seq<Request>)
      requires Traced(Now(), metas) && Backs(at, t)
      modifies this`sent, this`trace
      ensures Traced(Now(), metas) && Sends(old(Now()), Now(), at) && sent == old(sent) + requests
      ensures ForcedOut(t, t', requests, gateway, |old(sent)|) && t'.plan == t.plan && t'.executedSize == t.executedSize
    {
      hide Traced, Sends, Reduces, Holds, CloseOrder;
      t', requests := t, [];
      SendsNothing(Now(), metas, at);
      if t.stopId != 0 {
        var _ := Ask(CancelOrder(t.stopId, t.plan.ticker), t, at);
        requests := requests + [CancelOrder(t.stopId, t.plan.ticker)];
        t' := t'.(stopId := 0);
      }
      if t.tp1Id != 0 {
        label Before:
        var _ := Ask(CancelOrder(t.tp1Id, t.plan.ticker), t, at);
        SendsFurther(old(Now()), old@Before(Now()), Now(), at);
        requests := requests + [CancelOrder(t.tp1Id, t.plan.ticker)];
        t' := t'.(tp1Id := 0);
      }
      label Taken:
      StopReduces(t, metas);
      var answer := Ask(Place(CloseOrder(t)), t, at);
      SendsFurther(old(Now()), old@Taken(Now()), Now(), at);
      requests := requests + [Place(CloseOrder(t))];
      if answer.Some? {
        t' := t'.(state := Closed);
      }
    }

    method RecordClose(t: ActiveTrade, reason: Reason)
      modifies this`closed
      ensures closed == old(closed) + [RecordOf(t, ExitEstimate(t, marks), t.executedSize, reason)]
    {
      var exit := 0.0;
      if t.plan.ticker in marks && marks[t.plan.ticker] > 0.0 {
        exit := marks[t.plan.ticker];
      } else {
        exit := t.avgPrice;
      }
      closed := closed + [RecordOf(t, exit, t.executedSize, reason)];
    }

    // -------------------------------------------------------------- order updates

    /** Writes what a trade became; a fill changes its size, nothing else does. */
    method Put(at: Spot, t: ActiveTrade, ghost u: OrderUpdate, ghost filled: bool)
      requires Sound() && Holds(trades, at) && Follows(TradeAt(trades, at), t)
      requires filled ==> u.filledSize > 0.0 && t.executedSize == SizeAfter(TradeAt(trades, at), u)
      requires !filled ==> t.executedSize == TradeAt(trades, at).executedSize
      modifies this`trades, this`trace
      ensures Sound() && Worked(old(Now()), Now(), at, u) && Holds(trades, at) && TradeAt(trades, at) == t
    {
      hide Traced, ForcedOnce, KeyedByTicker, BookFollows, Linked, Worked, Follows;
      ghost var move := if filled then Fill(at, u) else Step;
      ReplaceKeeps(trades, forced, at.ticker, at.index, t);
      ReplaceLinks(trades, at, t, move);
      WritingIsWork(Now(), metas, at, t, u, move);
      ghost var next := Written(Now(), With(trades, at.ticker, at.index, t), move);
      trades, trace := trades[at.ticker := trades[at.ticker][at.index := t]], next.trace;
    }

    /** A filled entry is protected, or closed at once if it slipped too far. */
    method ProtectOrAbort(e: ActiveTrade, ghost at: Spot, ghost c: ActiveTrade, ghost u: OrderUpdate) returns (t': ActiveTrade,
        ghost requests: seq<Request>)
      requires Traced(Now(), metas) && Backs(at, e) && e == Entered(c, u)
      modifies this`sent, this`trace
      ensures Traced(Now(), metas) && Sends(old(Now()), Now(), at) && sent == old(sent) + requests
      ensures FilledWhole(c, u, t', requests, gateway, |old(sent)|, MetaOf(metas, e.plan.ticker), cfg)
      ensures t'.plan == e.plan && t'.executedSize == e.executedSize
    {
      hide Traced, Sends, Reduces, Holds, Protected, MetaOf, SlippedTooFar, CloseOrder;
      if SlippedTooFar(e.avgPrice, e.plan.entryPrice, cfg.maxSlippageBps) {
        StopReduces(e, metas);
        t', requests := e, [Place(CloseOrder(e))];
        var answer := Ask(Place(CloseOrder(e)), e, at);
        if answer.Some? {
          t' := t'.(state := EmergencyClosing);
        }
      } else {
        t', requests := PlaceStops(e, at);
      }
    }

    /** The target was hit: the stop moves to break-even; if it cannot, the trade is closed, with the size the target took. */
    method AfterTarget(c: ActiveTrade, ghost at: Spot, u: OrderUpdate) returns (t': ActiveTrade, ghost requests: seq<Request>,
        ghost records: seq<ClosedTrade>)
      requires Traced(Now(), metas) && Backs(at, c) && u.filledSize > 0.0
      modifies this`sent, this`trace, this`closed
      ensures Traced(Now(), metas) && Sends(old(Now()), Now(), at) && sent == old(sent) + requests && closed == old(closed) + records
      ensures TargetFilled(c, u, t', requests, records, gateway, |old(sent)|, marks)
      ensures t'.plan == c.plan && t'.executedSize == c.executedSize
    {
      hide Traced, Sends, Reduces, Holds, Trailed;
      t', requests, records := c, [], [];
      SendsNothing(Now(), metas, at);
      if c.stopId != 0 {
        var _ := Ask(CancelOrder(c.stopId, c.plan.ticker), c, at);
        requests := [CancelOrder(c.stopId, c.plan.ticker)];
        t' := t'.(stopId := 0);
      }
      var rest := Max(0.0, c.executedSize - u.filledSize);
      if rest > SIZE_EPS && c.avgPriceFix > 0.0 {
        label Before:
        ghost var more;
        t', more, records := Trail(t', at, rest);
        SendsFurther(old(Now()), old@Before(Now()), Now(), at);
        requests := requests + more;
      }
    }

    method Trail(d: ActiveTrade, ghost at: Spot, rest: real) returns (t': ActiveTrade, ghost requests: seq<Request>, ghost records: seq<ClosedTrade>)
      requires Traced(Now(), metas) && Backs(at, d) && rest <= d.executedSize
      modifies this`sent, this`trace, this`closed
      ensures Traced(Now(), metas) && Sends(old(Now()), Now(), at) && sent == old(sent) + requests && closed == old(closed) + records
      ensures Trailed(d, rest, t', requests, records, gateway, |old(sent)|, marks)
      ensures t'.plan == d.plan && t'.executedSize == d.executedSize
    {
      hide Traced, Sends, Reduces, Holds, ForcedOut, BreakEvenOrder, RecordOf, ExitEstimate;
      BreakEvenReduces(d, rest, metas);
      t', requests, records := d, [Place(BreakEvenOrder(d, rest))], [];
      var answer := Ask(Place(BreakEvenOrder(d, rest)), d, at);
      if answer == None {
        label Refused:
        ghost var more;
        t', more := EmergencyClose(d, at);
        SendsFurther(old(Now()), old@Refused(Now()), Now(), at);
        RecordClose(t', BeStopFailed);
        records := [RecordOf(t', ExitEstimate(t', marks), t'.executedSize, BeStopFailed)];
        requests := requests + more;
      }
    }

    /** A partial fill of the entry: the first one opens the trade and asks for its protection; then it is counted. */
    method EnterPartly(at: Spot, u: OrderUpdate) returns (ghost requests: seq<Request>)
      requires Sound() && Holds(trades, at) && Takes(TradeAt(trades, at)) && u.filledSize > 0.0 && u.status != Done
      modifies this`trades, this`sent, this`trace
      ensures Sound() && Worked(old(Now()), Now(), at, u) && sent == old(sent) + requests && Holds(trades, at)
      ensures var c := TradeAt(old(trades), at);
        FilledInPart(c, u, TradeAt(trades, at), requests, gateway, |old(sent)|, MetaOf(metas, c.plan.ticker))
    {
      hide Traced, ForcedOnce, KeyedByTicker, Worked, Sends, Protected, MetaOf;
      var t := TradeAt(trades, at);
      requests := [];
      if t.state == Open {
        Put(at, Counted(t, u), u, true);
        return;
      }
      Put(at, PartlyEntered(t, u), u, false);
      label Opened:
      t, requests := PlaceStops(TradeAt(trades, at), at);
      AfterSending(old@Opened(Now()), at, u);
      WorkedFurther(old(Now()), old@Opened(Now()), Now(), at, u);
      label Counting:
      Put(at, Counted(t, u), u, true);
      WorkedFurther(old(Now()), old@Counting(Now()), Now(), at, u);
    }

    /** The entry order is done with a fill: its size is final, and the trade is protected or closed. */
    method EnterWhole(at: Spot, u: OrderUpdate) returns (ghost requests: seq<Request>)
      requires Sound() && Holds(trades, at) && Takes(TradeAt(trades, at)) && u.filledSize > 0.0 && u.status == Done
      modifies this`trades, this`sent, this`trace
      ensures Sound() && Worked(old(Now()), Now(), at, u) && sent == old(sent) + requests && Holds(trades, at)
      ensures var c := TradeAt(old(trades), at);
        FilledWhole(c, u, TradeAt(trades, at), requests, gateway, |old(sent)|, MetaOf(metas, c.plan.ticker), cfg)
    {
      hide Traced, ForcedOnce, KeyedByTicker, Worked, Sends, FilledWhole, MetaOf;
      var c := TradeAt(trades, at);
      Put(at, Entered(c, u), u, true);
      label Opened:
      var t;
      t, requests := ProtectOrAbort(TradeAt(trades, at), at, c, u);
      AfterSending(old@Opened(Now()), at, u);
      WorkedFurther(old(Now()), old@Opened(Now()), Now(), at, u);
      label Ending:
      Put(at, t, u, false);
      WorkedFurther(old(Now()), old@Ending(Now()), Now(), at, u);
    }

    /** The first target was filled. */
    method HitTarget(at: Spot, u: OrderUpdate) returns (ghost requests: seq<Request>, ghost records: seq<ClosedTrade>)
      requires Sound() && Holds(trades, at) && Takes(TradeAt(trades, at)) && u.filledSize > 0.0
      modifies this`trades, this`sent, this`trace, this`closed
      ensures Sound() && Worked(old(Now()), Now(), at, u) && sent == old(sent) + requests && closed == old(closed) + records && Holds(trades, at)
      ensures TargetFilled(TradeAt(old(trades), at).(tp1Filled := true), u, TradeAt(trades, at), requests, records, gateway, |old(sent)|, marks)
    {
      hide Traced, ForcedOnce, KeyedByTicker, Worked, Sends, TargetFilled;
      Put(at, TradeAt(trades, at).(tp1Filled := true), u, false);
      label Noted:
      var t;
      t, requests, records := AfterTarget(TradeAt(trades, at), at, u);
      AfterSending(old@Noted(Now()), at, u);
      WorkedFurther(old(Now()), old@Noted(Now()), Now(), at, u);
      label Ending:
      Put(at, t, u, false);
      WorkedFurther(old(Now()), old@Ending(Now()), Now(), at, u);
    }

    /** Sending requests for a trade is work for it. */
    ghost method AfterSending(before: Run, at: Spot, u: OrderUpdate)
      requires Holds(before.trades, at) && Sends(before, Now(), at)
      ensures Worked(before, Now(), at, u) && trades == before.trades
    {
      SendingIsWork(before, Now(), at, u);
    }

    /** One update for the trade it concerns. */
    method Handle(at: Spot, u: OrderUpdate) returns (ghost requests: seq<Request>, ghost records: seq<ClosedTrade>)
      requires Sound() && Holds(trades, at) && Concerns(TradeAt(trades, at), u)
      modifies this`trades, this`sent, this`trace, this`closed, this`reserved
      ensures Sound() && Worked(old(Now()), Now(), at, u) && sent == old(sent) + requests && closed == old(closed) + records && Holds(trades, at)
      ensures var t := TradeAt(old(trades), at);
        && Handled(t, u, TradeAt(trades, at), requests, records, gateway, |old(sent)|, MetaOf(metas, t.plan.ticker), marks, cfg)
        && reserved == if u.status == Done && RolesOf(t, u).entry then Released(old(reserved), t.plan) else old(reserved)
    {
      hide Traced, ForcedOnce, KeyedByTicker, Worked, RolesOf, FilledInPart, FilledWhole, TargetFilled, MetaOf, Released;
      var t := TradeAt(trades, at);
      var r := RolesOf(t, u);
      requests, records := [], [];
      Put(at, Claim(t, u), u, false);
      var c := TradeAt(trades, at);
      label Claimed:
      if u.status == Working {
        if r.entry && u.filledSize > 0.0 {
          requests := EnterPartly(at, u);
          WorkedFurther(old(Now()), old@Claimed(Now()), Now(), at, u);
        }
        return;
      }
      if r.entry && u.status == Done {
        reserved := Released(reserved, t.plan);
      }
      if u.status != Done {
        return;
      }
      if u.filledSize <= 0.0 {
        if !(r.stop || r.tp1 || r.tp2) {
          Put(at, c.(state := Closed), u, false);
          WorkedFurther(old(Now()), old@Claimed(Now()), Now(), at, u);
        }
        return;
      }
      if r.entry {
        requests := EnterWhole(at, u);
      } else if r.tp1 && !c.tp1Filled {
        requests, records := HitTarget(at, u);
      } else {
        var record := RecordOf(c, u.filledPrice, u.filledSize, ExitReason(r));
        Put(at, c.(state := Closed), u, false);
        closed := closed + [record];
        records := [record];
      }
      WorkedFurther(old(Now()), old@Claimed(Now()), Now(), at, u);
    }

    /** An update goes to the first trade of its ticker that it concerns, and to no other. */
    method OnOrderUpdate(u: OrderUpdate) returns (ghost at: Option<nat>, ghost requests: seq<Request>, ghost records: seq<ClosedTrade>)
      requires Valid()
      modifies this`trades, this`sent, this`trace, this`closed, this`reserved, this`lost
      ensures Valid() && sent == old(sent) + requests && closed == old(closed) + records
      ensures at == None ==> Now() == old(Now()) && requests == [] && records == [] && reserved == old(reserved) && lost == old(lost)
      ensures at == None && u.ticker in trades ==> forall i :: 0 <= i < |trades[u.ticker]| ==> !Concerns(trades[u.ticker][i], u)
      ensures at.Some? ==> u.ticker in old(trades) && IsFirst(old(trades)[u.ticker], u, at.value)
      ensures at.Some? ==> Worked(old(Now()), Now(), Spot(u.ticker, at.value), u) && Holds(trades, Spot(u.ticker, at.value))
      ensures at.Some? ==> var t, t' := old(trades)[u.ticker][at.value], trades[u.ticker][at.value];
        && Handled(t, u, t', requests, records, gateway, |old(sent)|, MetaOf(metas, t.plan.ticker), marks, cfg)
        && reserved == (if u.status == Done && RolesOf(t, u).entry then Released(old(reserved), t.plan) else old(reserved))
        && lost == old(lost) + LostByUpdate(t, u, gateway, |old(sent)|)
    {
      hide Traced, ForcedOnce, KeyedByTicker, Worked, Handled, Released, RolesOf, MetaOf, Known, LostByUpdate;
      at, requests, records := None, [], [];
      if u.ticker !in trades {
        return;
      }
      var list := trades[u.ticker];
      for i := 0 to |list|
        invariant Valid() && Now() == old(Now()) && closed == old(closed) && reserved == old(reserved) && lost == old(lost)
        invariant at == None && forall j :: 0 <= j < i ==> !Concerns(list[j], u)
      {
        if Concerns(list[i], u) {
          requests, records := Handle(Spot(u.ticker, i), u);
          at := Some(i);
          lost := lost + LostByUpdate(list[i], u, gateway, |old(sent)|);
          HandledStops(list[i], u, trades[u.ticker][i], requests, records, gateway, |old(sent)|, MetaOf(metas, list[i].plan.ticker), marks, cfg, lost);
          WorkedKnown(old(Now()), Now(), metas, gateway, old(lost), lost, Spot(u.ticker, i), u, requests);
          return;
        }
      }
    }

    // -------------------------------------------------------------- submissions and cancellations

    /** The reservation is made before the call and kept only if the exchange answers. */
    method Submit(plan: TradePlan, clientId: string) returns (answered: bool)
      requires Valid()
      modifies this
      ensures Valid() && BookFollows(old(trades), trades) && closed == old(closed) && marks == old(marks)
      ensures sent == old(sent) + [Place(Order(plan.ticker, plan.side, plan.entryPrice, plan.sizeCoin, plan.entryType, false))]
      ensures answered <==> gateway(|old(sent)|).Some?
      ensures var t := NewTrade(plan, clientId, if answered then PendingEntry else SubmitUnknown);
        trades == Joined(old(trades), t) && trace.moves == old(trace).moves + [Join(t)]
      ensures trace.entries == old(trace).entries + {|old(sent)|} && Grows(WithEntries(old(Now()), trace.entries), Now())
      ensures forced == JoinedCounts(old(forced), plan.ticker) && lost == old(lost)
      ensures reserved == if answered then old(reserved) + Reservation(plan) else Max(0.0, old(reserved))
    {
      hide Traced, ForcedOnce, KeyedByTicker, BookFollows, Reservation, Joined, JoinedCounts, Grows, Known;
      reserved := reserved + Reservation(plan);
      answered := AskEntry(Order(plan.ticker, plan.side, plan.entryPrice, plan.sizeCoin, plan.entryType, false));
      label Sent:
      var t := NewTrade(plan, clientId, if answered then PendingEntry else SubmitUnknown);
      if !answered {
        reserved := Max(0.0, reserved - Reservation(plan));
      }
      Add(t);
      GrowsFurther(WithEntries(old(Now()), trace.entries), old@Sent(Now()), Now());
      SubmittedKnown(old(Now()), Now(), metas, gateway, lost, t);
    }

    method AskEntry(order: Order) returns (answered: bool)
      requires Traced(Now(), metas)
      modifies this`sent, this`trace
      ensures Traced(Now(), metas) && Now() == Submitted(old(Now()), Place(order)) && Grows(WithEntries(old(Now()), trace.entries), Now())
      ensures answered <==> gateway(|old(sent)|).Some?
    {
      hide Traced;
      SubmittingKeeps(Now(), metas, Place(order));
      ghost var next := Submitted(Now(), Place(order));
      answered := gateway(|sent|).Some?;
      sent, trace := sent + [Place(order)], next.trace;
    }

    /** A trade joins its ticker, not yet closed by force. */
    method Add(t: ActiveTrade)
      requires Sound()
      modifies this`trades, this`trace, this`forced
      ensures Sound() && BookFollows(old(trades), trades) && Grows(old(Now()), Now())
      ensures trades == Joined(old(trades), t) && forced == JoinedCounts(old(forced), t.plan.ticker)
      ensures trace == old(trace).(books := old(trace).books + [trades], moves := old(trace).moves + [Join(t)])
    {
      hide Traced, ForcedOnce, KeyedByTicker, BookFollows, Grows;
      JoiningKeeps(trades, forced, t);
      WritingKeeps(Now(), metas, Joined(trades, t), Join(t));
      ghost var next := Written(Now(), Joined(trades, t), Join(t));
      trades, forced, trace := Joined(trades, t), JoinedCounts(forced, t.plan.ticker), next.trace;
    }

    /** Cancels everything of a ticker; if the call fails, nothing changes. */
    method CancelAll(ticker: Ticker) returns (answered: bool)
      requires Valid()
      modifies this`trades, this`reserved, this`sent, this`trace, this`forced
      ensures Valid() && Grows(old(Now()), Now())
      ensures sent == old(sent) + [CancelAllOrders(ticker)] && (answered <==> gateway(|old(sent)|).Some?)
      ensures !answered || ticker !in old(trades) ==>
        trades == old(trades) && reserved == old(reserved) && forced == old(forced) && trace.moves == old(trace).moves
      ensures answered && ticker in old(trades) ==>
        && trades == old(trades)[ticker := CancelledList(old(trades)[ticker])]
        && trace.moves == old(trace).moves + [CancelTicker(ticker)]
        && reserved == ReleasedPending(old(reserved), old(trades)[ticker], |old(trades)[ticker]|)
        && forced == old(forced)[ticker := seq(|trades[ticker]|, _ => 0)]
    {
      hide Traced, ForcedOnce, KeyedByTicker, ReleasedPending, Released, Grows, Known;
      AskingKeeps(Now(), metas, CancelAllOrders(ticker), None);
      ghost var asked := Noted(Now(), CancelAllOrders(ticker), None);
      answered := gateway(|sent|).Some?;
      sent, trace := sent + [CancelAllOrders(ticker)], asked.trace;
      if !answered || ticker !in trades {
        CancelledKnown(old(Now()), Now(), metas, gateway, lost, ticker);
        return;
      }
      var list := trades[ticker];
      ghost var before := list;
      ReleasedNone(reserved, before);
      for i := 0 to |list|
        invariant Now() == asked && trades == old(trades) && forced == old(forced) && |list| == |before|
        invariant reserved == ReleasedPending(old(reserved), before, i)
        invariant forall j :: 0 <= j < |list| ==> list[j] == if j < i then Cancelled(before[j]) else before[j]
      {
        ReleasedOne(old(reserved), before, i);
        if list[i].state != Closed {
          if list[i].state == PendingEntry {
            reserved := Released(reserved, list[i].plan);
          }
          list := list[i := list[i].(state := Cancelling)];
        }
      }
      assert list == CancelledList(before);
      TickersInList(trades, ticker);
      NoneForced(list);
      ListKeeps(trades, forced, ticker, list, seq(|list|, _ => 0));
      WritingKeeps(Now(), metas, trades[ticker := list], CancelTicker(ticker));
      ghost var next := Written(Now(), trades[ticker := list], CancelTicker(ticker));
      GrowsFurther(old(Now()), asked, next);
      trades, forced, trace := trades[ticker := list], forced[ticker := seq(|list|, _ => 0)], next.trace;
      CancelledKnown(old(Now()), Now(), metas, gateway, lost, ticker);
    }

    /** Takes over recovered trades as they are. */
    method InjectRecovered(recovered: seq<ActiveTrade>)
      requires Valid()
      modifies this`trades, this`forced, this`trace
      ensures Valid() && BookFollows(old(trades), trades)
      ensures trades == JoinedAll(old(trades), recovered, |recovered|) && forced == JoinedAllCounts(old(forced), recovered, |recovered|)
      ensures trace.moves == old(trace).moves + Joins(recovered, |recovered|) && Grows(old(Now()), Now()) && sent == old(sent)
    {
      hide Traced, ForcedOnce, KeyedByTicker, BookFollows, Joined, JoinedCounts, Grows, Known;
      BookStays(trades);
      AsksNothing(Now(), metas);
      for i := 0 to |recovered|
        invariant Valid() && BookFollows(old(trades), trades)
        invariant trades == JoinedAll(old(trades), recovered, i) && forced == JoinedAllCounts(old(forced), recovered, i)
        invariant trace.moves == old(trace).moves + Joins(recovered, i) && Grows(old(Now()), Now()) && sent == old(sent)
      {
        label Before:
        BookFollowsFurther(old(trades), trades, Joined(trades, recovered[i])) by {
          JoiningKeeps(trades, forced, recovered[i]);
        }
        Add(recovered[i]);
        GrowsFurther(old(Now()), old@Before(Now()), Now());
        JoinedKnown(old@Before(Now()), Now(), metas, gateway, lost, recovered[i]);
      }
    }

    /** Hands out the closed trades and forgets the closed ones. */
    method PopClosedTrades() returns (out: seq<ClosedTrade>)
      requires Valid()
      modifies this`trades, this`closed, this`forced, this`trace
      ensures Valid() && Grows(old(Now()), Now()) && out == old(closed) && closed == []
      ensures Popped(old(trades), old(forced), trades, forced)
      ensures forall n :: |old(trace).moves| <= n < |trace.moves| ==> trace.moves[n].Purge?
    {
      hide Traced, ForcedOnce, KeyedByTicker, PoppedSoFar, Popped, Grows, Known;
      out, closed := closed, [];
      var todo := trades.Keys;
      PopStarts(trades, forced);
      AsksNothing(Now(), metas);
      while todo != {}
        invariant out == old(closed) && closed == [] && Valid() && PoppedSoFar(old(trades), old(forced), trades, forced, todo)
        invariant Grows(old(Now()), Now()) && forall n :: |old(trace).moves| <= n < |trace.moves| ==> trace.moves[n].Purge?
        decreases |todo|
      {
        var t :| t in todo;
        PopOne(old(trades), old(forced), trades, forced, todo, t);
        var list := Alive(trades[t], trades[t], |trades[t]|);
        WritingKeeps(Now(), metas, trades[t := list], Purge(t));
        PurgedKnown(Now(), metas, gateway, lost, t);
        ghost var next := Written(Now(), trades[t := list], Purge(t));
        GrowsFurther(old(Now()), Now(), next);
        forced := forced[t := Alive(trades[t], forced[t], |trades[t]|)];
        trades, trace := trades[t := list], next.trace;
        todo := todo - {t};
      }
      PopEnds(old(trades), old(forced), trades, forced, todo);
    }

    /** Writes the trades of a ticker back, with their sizes. */
    method PutList(ticker: Ticker, list: seq<ActiveTrade>)
      requires Sound() && ticker in trades && SizesStayIn(trades[ticker], list)
      requires forall i :: 0 <= i < |list| ==> Follows(trades[ticker][i], list[i])
      modifies this`trades, this`trace
      ensures Sound() && NoFills(old(Now()), Now()) && trades == old(trades)[ticker := list]
    {
      hide Traced, ForcedOnce, KeyedByTicker, NoFills, Follows;
      FollowingKeeps(trades, forced, ticker, list);
      ListWritten(Now(), metas, ticker, list);
      ghost var next := Written(Now(), trades[ticker := list], Step);
      trades, trace := trades[ticker := list], next.trace;
    }

    /** The entry-only average price of a side, for break-even stops. */
    method OnPositionUpdate(ticker: Ticker, side: Side, avgPriceFix: real)
      requires Valid()
      modifies this`trades, this`trace
      ensures Valid() && NoFills(old(Now()), Now())
      ensures ticker !in trades ==> trades == old(trades)
      ensures ticker in trades ==> trades == old(trades)[ticker := trades[ticker]] && |trades[ticker]| == |old(trades)[ticker]|
      ensures ticker in trades ==> forall i :: 0 <= i < |trades[ticker]| ==>
        trades[ticker][i] == Repriced(old(trades)[ticker][i], side, avgPriceFix)
    {
      hide Traced, ForcedOnce, KeyedByTicker, NoFills, Known;
      NoFillsYet(Now(), metas);
      if ticker !in trades {
        return;
      }
      var list := trades[ticker];
      for i := 0 to |list|
        invariant Now() == old(Now()) && |list| == |trades[ticker]|
        invariant forall j :: 0 <= j < |list| ==> list[j] == if j < i then Repriced(trades[ticker][j], side, avgPriceFix) else trades[ticker][j]
      {
        if list[i].state != Closed && list[i].plan.side == side {
          list := list[i := list[i].(avgPriceFix := avgPriceFix)];
        }
      }
      PutList(ticker, list);
      SameStopsInList(old(trades), trades, ticker);
      NoFillsKnown(old(Now()), Now(), metas, gateway, lost);
    }

    // -------------------------------------------------------------- closing by force

    /** The strategy asks to close a ticker: every open trade with size gets one market order and one record. */
    method CloseTrade(ticker: Ticker, text: string)
      requires Valid()
      modifies this`trades, this`sent, this`trace, this`closed, this`lost
      ensures Valid() && NoFills(old(Now()), Now())
      ensures ticker !in trades ==> trades == old(trades) && sent == old(sent) && closed == old(closed) && lost == old(lost)
      ensures ticker in trades ==> var list := old(trades)[ticker]; var actions := AskedActions(list, marks, text, |list|);
        && trades == old(trades)[ticker := trades[ticker]] && |trades[ticker]| == |list|
        && (forall i :: 0 <= i < |list| ==> ClosedIfAsked(list[i], trades[ticker][i]))
        && Executed(actions, old(sent), old(closed), sent, closed)
        && lost == old(lost) + LostByClose(list, marks, text, gateway, |old(sent)|, |list|)
    {
      hide Traced, ForcedOnce, KeyedByTicker, NoFills, Asks, Cancels, CloseOrder, RecordOf, ExitEstimate, Executed, Known, Refused,
        StopsFollow, ClosedIfAsked, Follows;
      NoFillsYet(Now(), metas);
      if ticker !in trades {
        return;
      }
      var list := trades[ticker];
      ghost var actions: seq<CloseAction> := [];
      NothingExecuted(sent, closed);
      AsksNothing(Now(), metas);
      assert Now().(trades := trades[ticker := list]) == Now();
      for i := 0 to |list|
        invariant Sound() && Asks(old(Now()), Now()) && trades == old(trades) && |list| == |trades[ticker]|
        invariant actions == AskedActions(trades[ticker], marks, text, i)
        invariant forall j :: 0 <= j < |list| ==> if j < i then ClosedIfAsked(trades[ticker][j], list[j]) else list[j] == trades[ticker][j]
        invariant Executed(actions, old(sent), old(closed), sent, closed)
        invariant lost == old(lost) + LostByClose(trades[ticker], marks, text, gateway, |old(sent)|, i)
        invariant Known(Now().(trades := trades[ticker := list]), gateway, lost)
      {
        NotAsked(list[i]);
        if list[i].state == Open && list[i].executedSize > 0.0 {
          label Before:
          var after;
          ghost var requests;
          after, requests := CloseOne(list[i], Spot(ticker, i), text);
          AsksFurther(old(Now()), old@Before(Now()), Now());
          ListKnown(old@Before(Now()), Now(), metas, gateway, old@Before(lost), lost, ticker, list, i, after, requests);
          SentSoFar(actions, old(sent), old(closed), old@Before(sent), old@Before(closed));
          OneMoreExecuted(actions, CloseAction(list[i], ExitEstimate(list[i], marks), Asked(text)), old(sent), old(closed),
                          old@Before(sent), old@Before(closed), sent, closed);
          actions := actions + [CloseAction(list[i], ExitEstimate(list[i], marks), Asked(text))];
          list := list[i := after];
        }
      }
      AskingIsNoFill(old(Now()), Now());
      ClosedFollow(trades[ticker], list);
      label Asking:
      PutList(ticker, list);
      NoFillsFurther(old(Now()), old@Asking(Now()), Now());
      WrittenKnown(old@Asking(Now()), Now(), metas, gateway, lost);
    }

    /** One of those trades. */
    method CloseOne(t: ActiveTrade, ghost at: Spot, text: string) returns (after: ActiveTrade, ghost requests: seq<Request>)
      requires Traced(Now(), metas) && Backs(at, t) && Closable(t)
      modifies this`sent, this`trace, this`closed, this`lost
      ensures Traced(Now(), metas) && Sends(old(Now()), Now(), at) && ClosedIfAsked(t, after)
      ensures requests == Cancels(t) + [Place(CloseOrder(t))] && sent == old(sent) + requests
      ensures closed == old(closed) + [RecordOf(t, ExitEstimate(t, marks), t.executedSize, Asked(text))]
      ensures lost == old(lost) + Refused(t, gateway, |old(sent)|) && StopsFollow(t, after, requests, gateway, |old(sent)|, lost)
    {
      hide Traced, Sends, Cancels, CloseOrder, RecordOf, ExitEstimate, Refused, StopsFollow;
      after, requests := EmergencyClose(t, at);
      lost := lost + Refused(t, gateway, |old(sent)|);
      ForcedOutStops(t, after, requests, gateway, |old(sent)|, lost);
      RecordClose(after, Asked(text));
      SameRecord(t, after, marks, Asked(text));
    }

    /** First half of a tick: which trades must close, by the marks; they are marked so at once. */
    method CollectCloses(now: int) returns (actions: seq<CloseAction>, order: seq<Ticker>)
      requires Valid()
      modifies this`trades, this`trace, this`forced
      ensures Valid() && NoFills(old(Now()), Now())
      ensures AllForced(old(trades), trades, {}, marks, now, cfg) && CountsRaised(old(trades), old(forced), forced, {}, marks, now, cfg)
      ensures VisitsAll(order, old(trades).Keys) && Visited(old(trades), order) && trades.Keys == old(trades).Keys
      ensures actions == ActionsAlong(old(trades), order, marks, now, cfg, |order|)
    {
      hide Traced, ForcedOnce, KeyedByTicker, NoFills, AllForced, CountsRaised, VisitsAll, Visited, ActionsAlong, Known, SameStops;
      actions, order := CollectAll(now);
      ForcedSameStops(old(trades), trades, marks, now, cfg);
      NoFillsKnown(old(Now()), Now(), metas, gateway, lost);
    }

    method CollectAll(now: int) returns (actions: seq<CloseAction>, order: seq<Ticker>)
      requires Sound()
      modifies this`trades, this`trace, this`forced
      ensures Sound() && NoFills(old(Now()), Now())
      ensures AllForced(old(trades), trades, {}, marks, now, cfg) && CountsRaised(old(trades), old(forced), forced, {}, marks, now, cfg)
      ensures VisitsAll(order, old(trades).Keys) && Visited(old(trades), order) && trades.Keys == old(trades).Keys
      ensures actions == ActionsAlong(old(trades), order, marks, now, cfg, |order|)
    {
      hide Traced, ForcedOnce, KeyedByTicker, NoFills, AllForced, CountsRaised, ListForced, ListCounted, VisitsAll, ActionsAlong,
        ActionsOf, MustClose;
      actions, order := [], [];
      var todo := trades.Keys;
      NoFillsYet(Now(), metas);
      ForcingStarts(trades, marks, now, cfg);
      CountingStarts(trades, forced, marks, now, cfg);
      while todo != {}
        invariant Sound() && NoFills(old(Now()), Now()) && todo <= trades.Keys == old(trades).Keys
        invariant AllForced(old(trades), trades, todo, marks, now, cfg) && CountsRaised(old(trades), old(forced), forced, todo, marks, now, cfg)
        invariant VisitsAll(order, old(trades).Keys - todo)
        invariant Visited(old(trades), order)
        invariant actions == ActionsAlong(old(trades), order, marks, now, cfg, |order|)
        decreases |todo|
      {
        var ticker :| ticker in todo;
        UntouchedYet(old(trades), trades, todo, ticker, marks, now, cfg);
        UncountedYet(old(trades), old(forced), forced, todo, ticker, marks, now, cfg);
        label Before:
        var more := CollectIn(ticker, now);
        NoFillsFurther(old(Now()), old@Before(Now()), Now());
        ForcingGoesOn(old(trades), old@Before(trades), trades, todo, ticker, marks, now, cfg);
        CountingGoesOn(old(trades), old(forced), old@Before(forced), forced, todo, ticker, marks, now, cfg);
        VisitOneMore(old(trades), order, old(trades).Keys - todo, ticker, marks, now, cfg);
        assert old(trades).Keys - (todo - {ticker}) == (old(trades).Keys - todo) + {ticker};
        actions, order := actions + more, order + [ticker];
        todo := todo - {ticker};
      }
      assert old(trades).Keys - todo == old(trades).Keys;
      ForcingEnds(old(trades), trades, todo, marks, now, cfg);
      CountingEnds(old(trades), old(forced), forced, todo, marks, now, cfg);
    }

    method CollectIn(ticker: Ticker, now: int) returns (actions: seq<CloseAction>)
      requires Sound() && ticker in trades && ticker in forced
      modifies this`trades, this`trace, this`forced
      ensures Sound() && NoFills(old(Now()), Now())
      ensures trades == old(trades)[ticker := trades[ticker]] && ListForced(old(trades)[ticker], trades[ticker], marks, now, cfg)
      ensures ticker in forced && forced == old(forced)[ticker := forced[ticker]]
      ensures ListCounted(old(trades)[ticker], old(forced)[ticker], forced[ticker], marks, now, cfg)
      ensures actions == ActionsOf(old(trades)[ticker], marks, now, cfg, |old(trades)[ticker]|)
    {
      hide Traced, ForcedOnce, KeyedByTicker, NoFills, BookFollows, MustClose, ExitEstimate;
      actions := [];
      var list := trades[ticker];
      PoppedLists(trades, forced, ticker);
      ghost var counts := forced[ticker];
      for i := 0 to |list|
        invariant Now() == old(Now()) && forced == old(forced) && |list| == |counts| == |trades[ticker]|
        invariant actions == ActionsOf(trades[ticker], marks, now, cfg, i)
        invariant forall j :: 0 <= j < |list| ==> list[j] == if j < i then Forced(trades[ticker][j], marks, now, cfg) else trades[ticker][j]
        invariant forall j :: 0 <= j < |list| ==>
          counts[j] == forced[ticker][j] + if j < i && MustClose(trades[ticker][j], marks, now, cfg).Some? then 1 else 0
      {
        var reason := MustClose(list[i], marks, now, cfg);
        if reason.Some? {
          actions := actions + [CloseAction(list[i], ExitEstimate(list[i], marks), reason.value)];
          list := list[i := list[i].(state := EmergencyClosing)];
          counts := counts[i := counts[i] + 1];
        }
      }
      ForcingKeeps(trades, forced, ticker, list, counts, marks, now, cfg);
      ListWritten(Now(), metas, ticker, list);
      ghost var next := Written(Now(), trades[ticker := list], Step);
      trades, forced, trace := trades[ticker := list], forced[ticker := counts], next.trace;
    }

    /** Second half: for each action the cancels, one market order and one record, whatever the exchange answers. */
    method ExecuteCloses(actions: seq<CloseAction>)
      requires Traced(Now(), metas) && AllInBook(trades, actions)
      modifies this`sent, this`trace, this`closed
      ensures Traced(Now(), metas) && Asks(old(Now()), Now()) && Executed(actions, old(sent), old(closed), sent, closed)
    {
      hide Traced, Asks, Executed, RecordOf, Cancels, CloseOrder, AllInBook;
      AsksNothing(Now(), metas);
      NothingExecuted(sent, closed);
      assert actions[..0] == [];
      for i := 0 to |actions|
        invariant Traced(Now(), metas) && Asks(old(Now()), Now()) && Executed(actions[..i], old(sent), old(closed), sent, closed)
      {
        var a := actions[i];
        ghost var at := SpotOf(trades, actions, i);
        label Before:
        var _, _ := EmergencyClose(a.t, at);
        AsksFurther(old(Now()), old@Before(Now()), Now());
        closed := closed + [RecordOf(a.t, a.exit, a.t.executedSize, a.reason)];
        OneMoreExecuted(actions[..i], a, old(sent), old(closed), old@Before(sent), old@Before(closed), sent, closed);
        assert actions[..i + 1] == actions[..i] + [a];
      }
      assert actions[..|actions|] == actions;
    }

    // -------------------------------------------------------------- reconciliation and the tick

    /** The records, reservations and trades that answers may change. */
    ghost function Desk(): Desk
      reads this
    {
      LiveReconcile.Desk(trades, closed, reserved)
    }

    /**
     * One answer settles the first unclear submission with its side and size, whichever the ticker;
     * `order` is the order in which the map of trades is walked.
     */
    method HandleReconciled(r: Reconciled, order: seq<Ticker>) returns (ghost where: Option<Spot>)
      requires Valid() && VisitsAll(order, trades.Keys)
      modifies this`trades, this`trace, this`closed, this`reserved
      ensures Valid() && NoFills(old(Now()), Now()) && sent == old(sent) && SameOpenTrades(old(trades), trades)
      ensures where == LandsAt(old(trades), order, r) && Desk() == Settled(old(Desk()), order, marks, r)
    {
      hide Traced, ForcedOnce, KeyedByTicker, NoFills, SameIntent, TimeoutRecord, Released, Known, SameOpenTrades;
      where := None;
      NoFillsYet(Now(), metas);
      OpenStay(trades);
      if r.outcome == Waiting || r.intent == None {
        return;
      }
      for n := 0 to |order|
        invariant Now() == old(Now()) && closed == old(closed) && reserved == old(reserved)
        invariant where == None == FirstMatch(trades, order, r.intent.value, n)
      {
        assert order[n] in order;
        var list := trades[order[n]];
        for i := 0 to |list|
          invariant Now() == old(Now()) && closed == old(closed) && reserved == old(reserved) && where == None
          invariant FirstIn(list, r.intent.value, i) == None
        {
          if SameIntent(list[i], r.intent.value) {
            FirstMatchHere(trades, order, r.intent.value, n, i);
            Settle(r, order[n], i);
            where := Some(Spot(order[n], i));
            OpenSameStops(old(trades), trades);
            NoFillsKnown(old(Now()), Now(), metas, gateway, lost);
            return;
          }
        }
      }
    }

    method Settle(r: Reconciled, ticker: Ticker, i: nat)
      requires Sound() && r.outcome != Waiting && r.intent.Some?
      requires ticker in trades && i < |trades[ticker]| && SameIntent(trades[ticker][i], r.intent.value)
      modifies this`trades, this`trace, this`closed, this`reserved
      ensures Sound() && NoFills(old(Now()), Now()) && SameOpenTrades(old(trades), trades)
      ensures var t := old(trades)[ticker][i];
        && trades == With(old(trades), ticker, i, Reconcile(t, r))
        && closed == old(closed) + (if r.outcome == NotFound then [TimeoutRecord(t, marks)] else [])
        && reserved == if r.outcome == NotFound then Released(old(reserved), t.plan) else old(reserved)
    {
      hide Traced, ForcedOnce, KeyedByTicker, NoFills, Released, RecordOf, ExitEstimate, SameOpenTrades;
      var t := trades[ticker][i];
      SettlingKeepsOpen(trades, ticker, i, r);
      if r.outcome == Resolved {
        if r.orderId.Some? {
          t := t.(entryId := r.orderId.value);
        }
        t := t.(state := PendingEntry);
      } else {
        reserved := Released(reserved, t.plan);
        t := t.(state := Closed);
        RecordClose(t, SubmitTimeout);
        SameRecord(trades[ticker][i], t, marks, SubmitTimeout);
        var last := closed[|closed| - 1];
        closed := closed[..|closed| - 1] + [last.(entryPrice := 0.0, exitPrice := 0.0, sizeFilled := 0.0)];
      }
      PutList(ticker, trades[ticker][i := t]);
    }

    /** Open trades that have no stop some seconds after their fill are protected again. */
    method Rearm(ticker: Ticker, now: int)
      requires Valid()
      modifies this`trades, this`sent, this`trace
      ensures Valid() && NoFills(old(Now()), Now()) && trades.Keys == old(trades).Keys
      ensures ticker !in old(trades) ==> Now() == old(Now())
      ensures ticker in old(trades) ==> var list := old(trades)[ticker];
        && sent == old(sent) + RearmRequests(list, gateway, |old(sent)|, metas, now, |list|)
        && trades == old(trades)[ticker := trades[ticker]] && ListRearmed(list, trades[ticker], gateway, |old(sent)|, metas, now)
    {
      hide Traced, ForcedOnce, KeyedByTicker, NoFills, Asks, ProtectionSent, ProtectedTrade, MetaOf, ListGoing, ListRearmed, Follows, Known, StopsFollow;
      NoFillsYet(Now(), metas);
      if ticker !in trades {
        return;
      }
      var list := trades[ticker];
      AsksNothing(Now(), metas);
      assert Now().(trades := trades[ticker := list]) == Now();
      ListStarts(list, gateway, |sent|, metas, now);
      for i := 0 to |list|
        invariant Sound() && Known(Now().(trades := trades[ticker := list]), gateway, lost) && Asks(old(Now()), Now()) && trades == old(trades) && |list| == |trades[ticker]|
        invariant sent == old(sent) + RearmRequests(trades[ticker], gateway, |old(sent)|, metas, now, i)
        invariant ListGoing(trades[ticker], list, gateway, |old(sent)|, metas, now, i)
      {
        ghost var was := list;
        ListStill(trades[ticker], list, gateway, |old(sent)|, metas, now, i);
        var t := list[i];
        if t.state == Open && t.stopId == 0 && now - t.openedAt > REARM_AFTER {
          label Before:
          ghost var more;
          t, more := PlaceStops(t, Spot(ticker, i));
          AsksFurther(old(Now()), old@Before(Now()), Now());
          ProtectedStops(list[i], t, more, gateway, |old@Before(sent)|, MetaOf(metas, list[i].plan.ticker), lost);
          ListKnown(old@Before(Now()), Now(), metas, gateway, lost, lost, ticker, list, i, t, more);
          list := list[i := t];
        }
        ListGoesOn(trades[ticker], was, list, gateway, |old(sent)|, metas, now, i);
      }
      ListEnds(trades[ticker], list, gateway, |old(sent)|, metas, now);
      AskingIsNoFill(old(Now()), Now());
      label Asking:
      PutList(ticker, list);
      NoFillsFurther(old(Now()), old@Asking(Now()), Now());
      WrittenKnown(old@Asking(Now()), Now(), metas, gateway, lost);
    }

    /** The answers about a ticker's unclear submissions, one after the other. */
    method ReconcileAll(results: seq<Reconciled>, order: seq<Ticker>)
      requires Valid() && VisitsAll(order, trades.Keys)
      modifies this`trades, this`trace, this`closed, this`reserved
      ensures Valid() && NoFills(old(Now()), Now()) && sent == old(sent) && SameOpenTrades(old(trades), trades) && trades.Keys == old(trades).Keys
      ensures Desk() == SettledAll(old(Desk()), order, marks, results, |results|)
    {
      hide Traced, ForcedOnce, KeyedByTicker, NoFills, SameOpen, VisitsAll, Settled, Known;
      NoFillsYet(Now(), metas);
      OpenStay(trades);
      for i := 0 to |results|
        invariant Valid() && NoFills(old(Now()), Now()) && sent == old(sent) && SameOpenTrades(old(trades), trades)
        invariant Desk() == SettledAll(old(Desk()), order, marks, results, i)
      {
        label Before:
        var _ := HandleReconciled(results[i], order);
        NoFillsFurther(old(Now()), old@Before(Now()), Now());
        SameOpenTradesFurther(old(trades), old@Before(trades), trades);
      }
    }

    method OnBalanceUpdate(now: int)
      modifies this`lastBalance
      ensures lastBalance == now
    {
      lastBalance := now;
    }

    method SetMarkPrice(ticker: Ticker, price: real)
      modifies this`marks
      ensures marks == old(marks)[ticker := price]
    {
      marks := marks[ticker := price];
    }

    /**
     * One tick: stale reservations are let go, trades that must close are closed by one market
     * order each, then every ticker is reconciled or re-protected. `results` holds the answers for
     * tickers with an unclear submission.
     */
    method Tick(now: int, results: map<Ticker, seq<Reconciled>>)
      returns (actions: seq<CloseAction>, order: seq<Ticker>, ghost middle: TradeBook)
      requires Valid()
      modifies this`trades, this`forced, this`sent, this`trace, this`closed, this`reserved
      ensures Valid() && NoFills(old(Now()), Now())
      ensures VisitsAll(order, old(trades).Keys) && Visited(old(trades), order)
      ensures actions == ActionsAlong(old(trades), order, marks, now, cfg, |order|) && AllForced(old(trades), middle, {}, marks, now, cfg)
      ensures var forcing := ForcedRequests(TradesOf(actions), |actions|);
        var rest := AllRearmRequests(middle, order, results.Keys, gateway, |old(sent)| + |forcing|, metas, now, |order|);
        sent == old(sent) + forcing + rest && NoMarket(rest)
      ensures ForcedStay(old(trades), trades, marks, now, cfg) && CountsRaised(old(trades), old(forced), forced, {}, marks, now, cfg)
      ensures var kept := if old(reserved) > 0.0 && now - lastBalance > cfg.reservationTimeout then 0.0 else old(reserved);
        var d := LiveReconcile.Desk(middle, old(closed) + RecordsOf(actions, |actions|), kept);
        var k := |old(sent)| + |ForcedRequests(TradesOf(actions), |actions|)|;
        Desk() == Attended(d, order, results, gateway, k, metas, marks, now, |order|)
      ensures results == map[] ==>
        && closed == old(closed) + RecordsOf(actions, |actions|)
        && reserved == (if old(reserved) > 0.0 && now - lastBalance > cfg.reservationTimeout then 0.0 else old(reserved))
        && BookRearmed(middle, trades, order, gateway, |old(sent)| + |ForcedRequests(TradesOf(actions), |actions|)|, metas, now, |order|)
    {
      hide Traced, ForcedOnce, KeyedByTicker, NoFills, AllForced, CountsRaised, ActionsAlong, Executed, NoMarket, ForcedStay, MustClose,
        RecordsOf, ForcedRequests, AllRearmRequests, BookRearmed, Visited, VisitsAll, AllInBook, Attended, Known;
      if reserved > 0.0 && now - lastBalance > cfg.reservationTimeout {
        reserved := 0.0;
      }
      actions, order := CollectCloses(now);
      middle := trades;
      ForcedInBook(old(trades), middle, order, marks, now, cfg);
      label Collected:
      ExecuteCloses(actions);
      AskingIsNoFill(old@Collected(Now()), Now());
      NoFillsFurther(old(Now()), old@Collected(Now()), Now());
      IsExecuted(actions, old(sent), old(closed), sent, closed);
      ForcedKnown(old@Collected(Now()), Now(), metas, gateway, lost, actions);
      label Forced:
      RearmAll(order, now, results);
      NoFillsFurther(old(Now()), old@Forced(Now()), Now());
      ForcedFollowed(old(trades), old@Forced(Now()), Now(), marks, now, cfg);
      AllRearmingIsNoMarket(middle, order, results.Keys, gateway, |old@Forced(sent)|, metas, now, |order|);
      if results == map[] {
        QuietlyAttended(old@Forced(Desk()), order, gateway, |old@Forced(sent)|, metas, marks, now, |order|);
      }
    }

    /** The last part of a tick, ticker by ticker: settle what is unclear, or else give missing stops. */
    method RearmAll(order: seq<Ticker>, now: int, results: map<Ticker, seq<Reconciled>>)
      requires Valid() && VisitsAll(order, trades.Keys)
      modifies this`trades, this`sent, this`trace, this`closed, this`reserved
      ensures Valid() && NoFills(old(Now()), Now())
      ensures sent == old(sent) + AllRearmRequests(old(trades), order, results.Keys, gateway, |old(sent)|, metas, now, |order|)
      ensures Desk() == Attended(old(Desk()), order, results, gateway, |old(sent)|, metas, marks, now, |order|)
    {
      hide Traced, ForcedOnce, KeyedByTicker, NoFills, SameOpenTrades, ListRearmed, RearmRequests, OpenAhead, AllRearmRequests,
        SettledAll, Attended, Known;
      NoFillsYet(Now(), metas);
      RearmingStarts(trades, order, results.Keys, gateway, |sent|, metas, now);
      AttendingStarts(Desk(), order, results, gateway, |sent|, metas, marks, now);
      for n := 0 to |order|
        invariant Valid() && NoFills(old(Now()), Now()) && OpenAhead(old(trades), trades, order, results.Keys, n) && trades.Keys == old(trades).Keys
        invariant sent == old(sent) + AllRearmRequests(old(trades), order, results.Keys, gateway, |old(sent)|, metas, now, n)
        invariant Desk() == Attended(old(Desk()), order, results, gateway, |old(sent)|, metas, marks, now, n)
      {
        label Before:
        assert order[n] in order;
        if order[n] in results {
          ReconcileAll(results[order[n]], order);
          SettlingGoesOn(old(trades), old@Before(trades), trades, order, results.Keys, gateway, |old(sent)|, metas, now, n);
          SettlingAttends(old(Desk()), order, results, gateway, |old(sent)|, metas, marks, now, n);
        } else {
          Rearm(order[n], now);
          RearmingAttends(old(Desk()), order, results, gateway, |old(sent)|, metas, marks, now, n, old@Before(trades), trades);
          RearmingGoesOn(old(Now()), old@Before(Now()), Now(), order, results.Keys, gateway, metas, now, n);
        }
        NoFillsFurther(old(Now()), old@Before(Now()), Now());
      }
    }
  }

  // ---------------------------------------------------------------- stops

  lemma {:induction false} SubmittedKnown(a: Run, b: Run, metas: Metas, gateway: Gateway, lost: set<nat>, t: ActiveTrade)
    requires Traced(a, metas) && Traced(b, metas) && Grows(WithEntries(a, b.trace.entries), b) && Known(a, gateway, lost)
    requires b.trades == Joined(a.trades, t) && b.trace.moves == a.trace.moves + [Join(t)]
    requires |b.sent| == |a.sent| + 1 && |a.sent| in b.trace.entries
    ensures Known(b, gateway, lost)
  {
    hide Known, Linked, Reduces;
    JoinedSameStops(a.trades, t);
    GrowsGoesOn(a, b, metas);
    KnownStays(a, b, gateway, lost);
  }

  lemma {:induction false} JoinedKnown(a: Run, b: Run, metas: Metas, gateway: Gateway, lost: set<nat>, t: ActiveTrade)
    requires Traced(a, metas) && Traced(b, metas) && Grows(a, b) && Known(a, gateway, lost) && b.sent == a.sent
    requires b.trades == Joined(a.trades, t) && b.trace.moves == a.trace.moves + [Join(t)]
    ensures Known(b, gateway, lost)
  {
    hide Known, Traced;
    JoinedSameStops(a.trades, t);
    assert WithEntries(a, b.trace.entries) == a;
    GrowsGoesOn(a, b, metas);
    KnownStays(a, b, gateway, lost);
  }

  lemma {:induction false} JoinedSameStops(a: TradeBook, t: ActiveTrade)
    ensures SameStops(a, Joined(a, t))
  {
  }

  lemma {:induction false} CancelledKnown(a: Run, b: Run, metas: Metas, gateway: Gateway, lost: set<nat>, ticker: Ticker)
    requires Traced(a, metas) && Traced(b, metas) && Grows(a, b) && Known(a, gateway, lost) && b.sent == a.sent + [CancelAllOrders(ticker)]
    requires b.trace.moves == a.trace.moves || b.trace.moves == a.trace.moves + [CancelTicker(ticker)]
    requires b.trades == a.trades || (ticker in a.trades && b.trades == a.trades[ticker := CancelledList(a.trades[ticker])])
    ensures Known(b, gateway, lost)
  {
    hide Known, Traced;
    assert WithEntries(a, b.trace.entries) == a;
    GrowsGoesOn(a, b, metas);
    KnownStays(a, b, gateway, lost);
  }

  lemma {:induction false} SameStopsInList(a: TradeBook, b: TradeBook, ticker: Ticker)
    requires ticker in a && ticker in b && b == a[ticker := b[ticker]] && |b[ticker]| == |a[ticker]|
    requires forall i :: 0 <= i < |a[ticker]| ==> b[ticker][i].stopId == a[ticker][i].stopId
    ensures SameStops(a, b)
  {
  }

  lemma {:induction false} ForcedSameStops(a: TradeBook, b: TradeBook, marks: Marks, now: int, cfg: Config)
    requires AllForced(a, b, {}, marks, now, cfg)
    ensures SameStops(a, b)
  {
    hide MustClose;
    forall at | Holds(a, at) ensures Holds(b, at) && TradeAt(b, at).stopId == TradeAt(a, at).stopId {
      assert ListForced(a[at.ticker], b[at.ticker], marks, now, cfg);
    }
  }

  lemma {:induction false} OpenSameStops(a: TradeBook, b: TradeBook)
    requires SameOpenTrades(a, b)
    ensures SameStops(a, b)
  {
    forall at | Holds(a, at) ensures Holds(b, at) && TradeAt(b, at).stopId == TradeAt(a, at).stopId {
      assert SameOpen(a[at.ticker], b[at.ticker]);
    }
  }

  /** The first half of a tick sends cancels and market orders, no stops. */
  lemma {:induction false} ForcedKnown(a: Run, b: Run, metas: Metas, gateway: Gateway, lost: set<nat>, actions: seq<CloseAction>)
    requires Traced(a, metas) && Traced(b, metas) && Asks(a, b) && Known(a, gateway, lost)
    requires b.sent == a.sent + ForcedRequests(TradesOf(actions), |actions|)
    ensures Known(b, gateway, lost)
  {
    hide Traced, Known, ForcedRequests;
    AskingIsNoFill(a, b);
    ForcingSendsNoStop(TradesOf(actions), |actions|);
    NoFillsKnown(a, b, metas, gateway, lost);
  }

  lemma {:induction false} ForcingSendsNoStop(ts: seq<ActiveTrade>, n: nat)
    requires n <= |ts|
    ensures forall k :: 0 <= k < |ForcedRequests(ts, n)| ==> !IsStop(ForcedRequests(ts, n)[k])
  {
    if n > 0 {
      ForcingSendsNoStop(ts, n - 1);
    }
  }

  /** The stops lost when the first `n` trades of a list are closed on request, from request `k` on. */
  ghost function LostByClose(list: seq<ActiveTrade>, marks: Marks, text: string, gateway: Gateway, k: nat, n: nat): set<nat>
    requires n <= |list|
  {
    if n == 0 then {}
    else
      var before, actions := LostByClose(list, marks, text, gateway, k, n - 1), AskedActions(list, marks, text, n - 1);
      if Closable(list[n - 1]) then before + Refused(list[n - 1], gateway, k + |ForcedRequests(TradesOf(actions), |actions|)|) else before
  }

  lemma {:induction false} SentSoFar(actions: seq<CloseAction>, sent: seq<Request>, closed: seq<ClosedTrade>, sent': seq<Request>,
      closed': seq<ClosedTrade>)
    requires Executed(actions, sent, closed, sent', closed')
    ensures |sent'| == |sent| + |ForcedRequests(TradesOf(actions), |actions|)|
  {
  }

  // ---------------------------------------------------------------- the re-arming of a tick

  lemma {:induction false} OpenStay(a: TradeBook)
    ensures SameOpenTrades(a, a)
  {
  }

  /** The first `i` trades of a list have got what they were short of, the others are as they were. */
  ghost predicate ListGoing(a: seq<ActiveTrade>, b: seq<ActiveTrade>, gateway: Gateway, k: nat, metas: Metas, now: int, i: nat) {
    |b| == |a| && forall j :: 0 <= j < |a| ==> b[j] == if j < i then RearmedTrade(a, gateway, k, metas, now, j) else a[j]
  }

  lemma {:induction false} ListStarts(a: seq<ActiveTrade>, gateway: Gateway, k: nat, metas: Metas, now: int)
    ensures ListGoing(a, a, gateway, k, metas, now, 0)
  {
  }

  lemma {:induction false} ListStill(a: seq<ActiveTrade>, b: seq<ActiveTrade>, gateway: Gateway, k: nat, metas: Metas, now: int, i: nat)
    requires ListGoing(a, b, gateway, k, metas, now, i) && i < |a|
    ensures |b| == |a| && b[i] == a[i]
  {
  }

  lemma {:induction false} ListGoesOn(a: seq<ActiveTrade>, b: seq<ActiveTrade>, c: seq<ActiveTrade>, gateway: Gateway, k: nat, metas: Metas,
      now: int, i: nat)
    requires ListGoing(a, b, gateway, k, metas, now, i) && i < |a| == |c| && c == b[i := c[i]]
    requires c[i] == RearmedTrade(a, gateway, k, metas, now, i)
    ensures ListGoing(a, c, gateway, k, metas, now, i + 1)
  {
    hide RearmedTrade;
  }

  lemma {:induction false} ListEnds(a: seq<ActiveTrade>, b: seq<ActiveTrade>, gateway: Gateway, k: nat, metas: Metas, now: int)
    requires ListGoing(a, b, gateway, k, metas, now, |a|)
    ensures ListRearmed(a, b, gateway, k, metas, now) && SizesStayIn(a, b) && forall i :: 0 <= i < |a| ==> Follows(a[i], b[i])
  {
    hide RearmRequests, MetaOf;
  }

  lemma {:induction false} RearmingStarts(a: TradeBook, order: seq<Ticker>, unclear: set<Ticker>, gateway: Gateway, k: nat, metas: Metas, now: int)
    ensures OpenAhead(a, a, order, unclear, 0)
    ensures AllRearmRequests(a, order, unclear, gateway, k, metas, now, 0) == []
  {
  }

  /** A ticker with unclear submissions was settled. */
  lemma {:induction false} SettlingGoesOn(a: TradeBook, b: TradeBook, c: TradeBook, order: seq<Ticker>, unclear: set<Ticker>, gateway: Gateway,
      k: nat, metas: Metas, now: int, n: nat)
    requires n < |order| && order[n] in unclear && OpenAhead(a, b, order, unclear, n) && SameOpenTrades(b, c)
    ensures OpenAhead(a, c, order, unclear, n + 1)
    ensures AllRearmRequests(a, order, unclear, gateway, k, metas, now, n + 1) == AllRearmRequests(a, order, unclear, gateway, k, metas, now, n)
  {
    hide SameOpen, RearmRequests;
    forall j | n + 1 <= j < |order| && order[j] in a && order[j] !in unclear ensures SameOpen(a[order[j]], c[order[j]]) {
      SameOpenFurther(a[order[j]], b[order[j]], c[order[j]]);
    }
  }

  /** A ticker was given its missing stops. */
  lemma {:induction false} RearmingGoesOn(a: Run, b: Run, c: Run, order: seq<Ticker>, unclear: set<Ticker>, gateway: Gateway, metas: Metas,
      now: int, n: nat)
    requires n < |order| && order[n] !in unclear && VisitsAll(order, a.trades.Keys) && OpenAhead(a.trades, b.trades, order, unclear, n)
    requires b.sent == a.sent + AllRearmRequests(a.trades, order, unclear, gateway, |a.sent|, metas, now, n)
    requires order[n] in b.trades && order[n] in c.trades && c.trades == b.trades[order[n] := c.trades[order[n]]]
    requires var list := b.trades[order[n]];
      && c.sent == b.sent + RearmRequests(list, gateway, |b.sent|, metas, now, |list|)
      && ListRearmed(list, c.trades[order[n]], gateway, |b.sent|, metas, now)
    ensures OpenAhead(a.trades, c.trades, order, unclear, n + 1)
    ensures c.sent == a.sent + AllRearmRequests(a.trades, order, unclear, gateway, |a.sent|, metas, now, n + 1)
  {
    hide SameOpen, RearmRequests, ListRearmed, AllRearmRequests;
    MoreRequests(a.trades, b.trades[order[n]], order, unclear, gateway, |a.sent|, metas, now, n);
  }

  lemma {:induction false} MoreRequests(a: TradeBook, list: seq<ActiveTrade>, order: seq<Ticker>, unclear: set<Ticker>, gateway: Gateway, k: nat,
      metas: Metas, now: int, n: nat)
    requires n < |order| && order[n] in a && order[n] !in unclear && SameOpen(a[order[n]], list)
    ensures var before := AllRearmRequests(a, order, unclear, gateway, k, metas, now, n);
      AllRearmRequests(a, order, unclear, gateway, k, metas, now, n + 1) == before + RearmRequests(list, gateway, k + |before|, metas, now, |list|)
  {
    hide SameOpen, RearmRequests;
    SameRearmRequests(a[order[n]], list, gateway, k + |AllRearmRequests(a, order, unclear, gateway, k, metas, now, n)|, metas, now, |a[order[n]]|);
  }

  /** The trades to be closed are in the book, with their sizes. */
  ghost predicate InBook(book: TradeBook, t: ActiveTrade) {
    exists at :: Holds(book, at) && TradeAt(book, at).plan == t.plan && TradeAt(book, at).executedSize == t.executedSize
  }

  ghost predicate AllInBook(book: TradeBook, actions: seq<CloseAction>) {
    forall i :: 0 <= i < |actions| ==> InBook(book, actions[i].t)
  }

  lemma {:induction false} SpotOf(book: TradeBook, actions: seq<CloseAction>, i: nat) returns (at: Spot)
    requires AllInBook(book, actions) && i < |actions|
    ensures Holds(book, at) && TradeAt(book, at).plan == actions[i].t.plan && TradeAt(book, at).executedSize == actions[i].t.executedSize
  {
    assert InBook(book, actions[i].t);
    at :| Holds(book, at) && TradeAt(book, at).plan == actions[i].t.plan && TradeAt(book, at).executedSize == actions[i].t.executedSize;
  }

  lemma {:induction false} ForcedInBook(before: TradeBook, after: TradeBook, order: seq<Ticker>, marks: Marks, now: int, cfg: Config)
    requires AllForced(before, after, {}, marks, now, cfg) && Visited(before, order)
    ensures AllInBook(after, ActionsAlong(before, order, marks, now, cfg, |order|))
  {
    AlongInBook(before, after, order, marks, now, cfg, |order|);
  }

  lemma {:induction false} AlongInBook(before: TradeBook, after: TradeBook, order: seq<Ticker>, marks: Marks, now: int, cfg: Config, n: nat)
    requires AllForced(before, after, {}, marks, now, cfg) && Visited(before, order) && n <= |order|
    ensures AllInBook(after, ActionsAlong(before, order, marks, now, cfg, n))
  {
    hide InBook, ActionsOf, MustClose, ListForced;
    if n > 0 {
      AlongInBook(before, after, order, marks, now, cfg, n - 1);
      var t := order[n - 1];
      assert ListForced(before[t], after[t], marks, now, cfg);
      OfInBook(before[t], after, t, marks, now, cfg, |before[t]|);
    }
  }

  lemma {:induction false} OfInBook(list: seq<ActiveTrade>, after: TradeBook, ticker: Ticker, marks: Marks, now: int, cfg: Config, n: nat)
    requires ticker in after && ListForced(list, after[ticker], marks, now, cfg) && n <= |list|
    ensures AllInBook(after, ActionsOf(list, marks, now, cfg, n))
  {
    hide InBook, MustClose;
    if n > 0 {
      OfInBook(list, after, ticker, marks, now, cfg, n - 1);
      assert InBook(after, list[n - 1]) by {
        ForcedThere(list, after, ticker, marks, now, cfg, n - 1);
      }
    }
  }

  lemma {:induction false} ForcedThere(list: seq<ActiveTrade>, after: TradeBook, ticker: Ticker, marks: Marks, now: int, cfg: Config, i: nat)
    requires ticker in after && ListForced(list, after[ticker], marks, now, cfg) && i < |list|
    ensures InBook(after, list[i])
  {
    hide MustClose;
    assert Holds(after, Spot(ticker, i)) && TradeAt(after, Spot(ticker, i)) == Forced(list[i], marks, now, cfg);
  }

  lemma {:induction false} IsExecuted(actions: seq<CloseAction>, sent: seq<Request>, closed: seq<ClosedTrade>,
      sent': seq<Request>, closed': seq<ClosedTrade>)
    requires Executed(actions, sent, closed, sent', closed')
    ensures sent' == sent + ForcedRequests(TradesOf(actions), |actions|) && closed' == closed + RecordsOf(actions, |actions|)
  {
  }

  /** Every trade that had to close is being closed. */
  ghost predicate ForcedStay(before: TradeBook, after: TradeBook, marks: Marks, now: int, cfg: Config) {
    forall t, i :: t in before && 0 <= i < |before[t]| && MustClose(before[t][i], marks, now, cfg).Some? ==>
      t in after && i < |after[t]| && after[t][i].state == EmergencyClosing
  }

  lemma {:induction false} ForcedFollowed(before: TradeBook, middle: Run, after: Run, marks: Marks, now: int, cfg: Config)
    requires AllForced(before, middle.trades, {}, marks, now, cfg) && NoFills(middle, after)
    ensures ForcedStay(before, after.trades, marks, now, cfg)
  {
  }

  /** An open trade with size loses its exits and closes if the exchange answers; others stay. */
  ghost predicate ClosedIfAsked(t: ActiveTrade, t': ActiveTrade) {
    t' == if Closable(t) then t.(stopId := 0, tp1Id := 0, state := if t'.state == Closed then Closed else Open) else t
  }

  lemma {:induction false} NotAsked(t: ActiveTrade)
    ensures !Closable(t) ==> ClosedIfAsked(t, t)
  {
  }

  lemma {:induction false} ClosedFollow(a: seq<ActiveTrade>, b: seq<ActiveTrade>)
    requires |a| == |b| && forall i :: 0 <= i < |a| ==> ClosedIfAsked(a[i], b[i])
    ensures SizesStayIn(a, b) && forall i :: 0 <= i < |a| ==> Follows(a[i], b[i])
  {
  }

  /** These closes, and nothing else, were sent and recorded. */
  ghost predicate Executed(actions: seq<CloseAction>, sent: seq<Request>, closed: seq<ClosedTrade>, sent': seq<Request>,
      closed': seq<ClosedTrade>) {
    && sent' == sent + ForcedRequests(TradesOf(actions), |actions|)
    && closed' == closed + RecordsOf(actions, |actions|)
  }

  lemma {:induction false} NothingExecuted(sent: seq<Request>, closed: seq<ClosedTrade>)
    ensures Executed([], sent, closed, sent, closed)
  {
  }

  lemma {:induction false} OneMoreExecuted(actions: seq<CloseAction>, a: CloseAction, sent: seq<Request>,
      closed: seq<ClosedTrade>,
      sent': seq<Request>, closed': seq<ClosedTrade>, sent'': seq<Request>, closed'': seq<ClosedTrade>)
    requires Executed(actions, sent, closed, sent', closed')
    requires sent'' == sent' + Cancels(a.t) + [Place(CloseOrder(a.t))] || sent'' == sent' + (Cancels(a.t) + [Place(CloseOrder(a.t))])
    requires closed'' == closed' + [RecordOf(a.t, a.exit, a.t.executedSize, a.reason)]
    ensures Executed(actions + [a], sent, closed, sent'', closed'')
  {
    hide Cancels, CloseOrder, RecordOf, ForcedRequests, RecordsOf, TradesOf;
    OneMoreAction(actions, a);
  }

  lemma {:induction false} OneMoreAction(actions: seq<CloseAction>, a: CloseAction)
    ensures ForcedRequests(TradesOf(actions + [a]), |actions| + 1) ==
      ForcedRequests(TradesOf(actions), |actions|) + Cancels(a.t) + [Place(CloseOrder(a.t))]
    ensures RecordsOf(actions + [a], |actions| + 1) == RecordsOf(actions, |actions|) + [RecordOf(a.t, a.exit, a.t.executedSize, a.reason)]
  {
    hide Cancels, CloseOrder, RecordOf;
    RequestsPrefix(TradesOf(actions), a.t, |actions|);
    RecordsPrefix(actions, a, |actions|);
    assert TradesOf(actions + [a]) == TradesOf(actions) + [a.t];
  }

  lemma {:induction false} RequestsPrefix(ts: seq<ActiveTrade>, t: ActiveTrade, n: nat)
    requires n <= |ts|
    ensures ForcedRequests(ts + [t], n) == ForcedRequests(ts, n)
  {
    hide Cancels, CloseOrder;
    if n > 0 {
      RequestsPrefix(ts, t, n - 1);
    }
  }

  lemma {:induction false} RecordsPrefix(actions: seq<CloseAction>, a: CloseAction, n: nat)
    requires n <= |actions|
    ensures RecordsOf(actions + [a], n) == RecordsOf(actions, n)
  {
    hide RecordOf;
    if n > 0 {
      RecordsPrefix(actions, a, n - 1);
    }
  }

  lemma {:induction false} SameRecord(t: ActiveTrade, t': ActiveTrade, marks: Marks, reason: Reason)
    requires t'.plan == t.plan && t'.avgPrice == t.avgPrice && t'.executedSize == t.executedSize
    ensures RecordOf(t', ExitEstimate(t', marks), t'.executedSize, reason) == RecordOf(t, ExitEstimate(t, marks), t.executedSize, reason)
  {
  }

  ghost predicate ListForced(list: seq<ActiveTrade>, list': seq<ActiveTrade>, marks: Marks, now: int, cfg: Config) {
    |list'| == |list| && forall i :: 0 <= i < |list| ==> list'[i] == Forced(list[i], marks, now, cfg)
  }

  /** Outside `todo`, exactly the trades that must close are being closed; nothing else changed. */
  ghost predicate AllForced(before: TradeBook, after: TradeBook, todo: set<Ticker>,
      marks: Marks, now: int, cfg: Config)
  {
    && after.Keys == before.Keys
    && forall t :: t in before ==> if t in todo then after[t] == before[t] else ListForced(before[t], after[t], marks, now, cfg)
  }

  /** Outside `todo`, the count of forced closes went up by one exactly for the trades that must close. */
  ghost predicate CountsRaised(before: TradeBook, counts: Tallies, counts': Tallies, todo: set<Ticker>,
      marks: Marks, now: int, cfg: Config)
  {
    && counts.Keys == counts'.Keys == before.Keys
    && forall t :: t in before ==>
      if t in todo then counts'[t] == counts[t] else ListCounted(before[t], counts[t], counts'[t], marks, now, cfg)
  }

  ghost predicate ListCounted(list: seq<ActiveTrade>, counts: seq<nat>, counts': seq<nat>, marks: Marks, now: int,
      cfg: Config) {
    && |counts| == |counts'| == |list|
    && forall i :: 0 <= i < |list| ==> counts'[i] == counts[i] + if MustClose(list[i], marks, now, cfg).Some? then 1 else 0
  }

  lemma {:induction false} CountingStarts(trades: TradeBook, counts: Tallies, marks: Marks, now: int, cfg: Config)
    requires ForcedOnce(trades, counts)
    ensures CountsRaised(trades, counts, counts, trades.Keys, marks, now, cfg)
  {
  }

  lemma {:induction false} UncountedYet(before: TradeBook, counts: Tallies, counts': Tallies,
      todo: set<Ticker>, t: Ticker, marks: Marks, now: int, cfg: Config)
    requires CountsRaised(before, counts, counts', todo, marks, now, cfg) && t in todo && t in before
    ensures t in counts && t in counts' && counts'[t] == counts[t]
  {
  }

  lemma {:induction false} CountingGoesOn(before: TradeBook, counts: Tallies, middle: Tallies,
      counts': Tallies, todo: set<Ticker>, t: Ticker, marks: Marks, now: int, cfg: Config)
    requires CountsRaised(before, counts, middle, todo, marks, now, cfg) && t in todo && t in before && t in counts' && t in middle
    requires counts' == middle[t := counts'[t]] && ListCounted(before[t], middle[t], counts'[t], marks, now, cfg)
    ensures CountsRaised(before, counts, counts', todo - {t}, marks, now, cfg)
  {
  }

  lemma {:induction false} CountingEnds(before: TradeBook, counts: Tallies, counts': Tallies,
      todo: set<Ticker>, marks: Marks, now: int, cfg: Config)
    requires CountsRaised(before, counts, counts', todo, marks, now, cfg) && todo == {}
    ensures CountsRaised(before, counts, counts', {}, marks, now, cfg)
  {
  }

  lemma {:induction false} ForcingStarts(trades: TradeBook, marks: Marks, now: int, cfg: Config)
    ensures AllForced(trades, trades, trades.Keys, marks, now, cfg) && VisitsAll([], trades.Keys - trades.Keys)
    ensures ActionsAlong(trades, [], marks, now, cfg, 0) == []
  {
  }

  lemma {:induction false} UntouchedYet(before: TradeBook, after: TradeBook, todo: set<Ticker>, t: Ticker,
      marks: Marks, now: int, cfg: Config)
    requires AllForced(before, after, todo, marks, now, cfg) && t in todo && todo <= after.Keys
    ensures t in before && t in after && after[t] == before[t] && after.Keys == before.Keys
  {
  }

  lemma {:induction false} ForcingGoesOn(before: TradeBook, middle: TradeBook, after: TradeBook,
      todo: set<Ticker>, t: Ticker, marks: Marks, now: int, cfg: Config)
    requires AllForced(before, middle, todo, marks, now, cfg) && t in todo && t in middle && t in after
    requires after == middle[t := after[t]] && ListForced(middle[t], after[t], marks, now, cfg)
    ensures AllForced(before, after, todo - {t}, marks, now, cfg)
  {
  }

  lemma {:induction false} ForcingEnds(before: TradeBook, after: TradeBook, todo: set<Ticker>,
      marks: Marks, now: int, cfg: Config)
    requires AllForced(before, after, todo, marks, now, cfg) && todo == {}
    ensures AllForced(before, after, {}, marks, now, cfg)
  {
  }

  lemma {:induction false} VisitOneMore(trades: TradeBook, order: seq<Ticker>, tickers: set<Ticker>, t: Ticker,
      marks: Marks, now: int, cfg: Config)
    requires VisitsAll(order, tickers) && t !in tickers && Visited(trades, order) && t in trades
    ensures VisitsAll(order + [t], tickers + {t}) && Visited(trades, order + [t])
    ensures ActionsAlong(trades, order + [t], marks, now, cfg, |order + [t]|) ==
      ActionsAlong(trades, order, marks, now, cfg, |order|) + ActionsOf(trades[t], marks, now, cfg, |trades[t]|)
  {
    hide ActionsOf;
    ActionsAlongPrefix(trades, order, t, marks, now, cfg, |order|);
  }

  function Repriced(t: ActiveTrade, side: Side, avgPriceFix: real): ActiveTrade {
    if t.state != Closed && t.plan.side == side then t.(avgPriceFix := avgPriceFix) else t
  }

  function NewTrade(plan: TradePlan, clientId: string, state: TradeState): ActiveTrade {
    ActiveTrade(plan, 0, 0, clientId, 0, 0, state, 0.0, 0.0, 0.0, false, 0)
  }

  function JoinedAllCounts(forced: Tallies, recovered: seq<ActiveTrade>, n: nat): Tallies
    requires n <= |recovered|
  {
    if n == 0 then forced else JoinedCounts(JoinedAllCounts(forced, recovered, n - 1), recovered[n - 1].plan.ticker)
  }

  function Joins(recovered: seq<ActiveTrade>, n: nat): seq<Move>
    requires n <= |recovered|
  {
    if n == 0 then [] else Joins(recovered, n - 1) + [Join(recovered[n - 1])]
  }

  function JoinedAll(trades: TradeBook, recovered: seq<ActiveTrade>, n: nat): TradeBook
    requires n <= |recovered|
  {
    if n == 0 then trades else Joined(JoinedAll(trades, recovered, n - 1), recovered[n - 1])
  }

  lemma {:induction false} ReleasedNone(reserved: real, list: seq<ActiveTrade>)
    ensures ReleasedPending(reserved, list, 0) == reserved
  {
  }

  lemma {:induction false} ReleasedOne(reserved: real, list: seq<ActiveTrade>, n: nat)
    requires n < |list|
    ensures ReleasedPending(reserved, list, n + 1) ==
      if list[n].state == PendingEntry then Released(ReleasedPending(reserved, list, n), list[n].plan) else ReleasedPending(reserved, list, n)
  {
  }

  lemma {:induction false} TickersInList(trades: TradeBook, ticker: Ticker)
    requires KeyedByTicker(trades) && ticker in trades
    ensures forall i :: 0 <= i < |trades[ticker]| ==> trades[ticker][i].plan.ticker == ticker
  {
  }

  /** A trade still takes updates. */
  predicate Takes(t: ActiveTrade) {
    t.state != Closed && t.state != EmergencyClosing
  }

  lemma {:induction false} BreakEvenReduces(t: ActiveTrade, rest: real, metas: Metas)
    requires rest <= t.executedSize
    ensures Reduces(BreakEvenOrder(t, rest), t, metas)
  {
  }

  lemma {:induction false} StopReduces(t: ActiveTrade, metas: Metas)
    ensures Reduces(StopOrder(t), t, metas) && Reduces(CloseOrder(t), t, metas)
  {
  }

  ghost predicate OnlyExitsDiffer(t: ActiveTrade, t': ActiveTrade) {
    t' == t.(stopId := t'.stopId, tp1Id := t'.tp1Id)
  }
}
