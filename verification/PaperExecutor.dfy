/** Paper trading: plans wait for a fill, positions for an exit. */
module PaperExecutor {
  import opened Domain
  import opened Trading
  import opened PaperModel

  class PaperExecutor {
    const slippageBps: real
    var pending: seq<TradePlan>
    var positions: Positions
    var closed: seq<ClosedTrade>
    /** Everything that happened to positions, and the closed trades already handed out. */
    ghost var log: seq<Event>
    ghost var popped: seq<ClosedTrade>

    ghost predicate Valid()
      reads this
    {
      Explains(log, positions, popped + closed)
    }

    constructor (bps: real)
      ensures Valid() && log == [] && popped == [] && pending == []
    {
      slippageBps := bps;
      pending, positions, closed, log, popped := [], map[], [], [], [];
    }

    method Submit(plan: TradePlan)
      requires Valid()
      modifies this
      ensures Valid() && log == old(log) && popped == old(popped)
      ensures pending == old(pending) + [plan]
    {
      pending := pending + [plan];
    }

    /** Hands out the closed trades, each once. */
    method PopClosedTrades() returns (out: seq<ClosedTrade>)
      requires Valid()
      modifies this
      ensures Valid() && log == old(log) && pending == old(pending) && positions == old(positions)
      ensures out == old(closed) && popped == old(popped) + out && closed == []
    {
      out := closed;
      popped := popped + closed;
      closed := [];
      assert popped + closed == old(popped) + old(closed);
    }

    /** Writes one event: the ledger, the position it concerns and the closed trades move together. */
    method Record(e: Event)
      requires Valid() && Fits(Lookup(positions, TickerOf(e)), e)
      modifies this
      ensures Valid() && log == old(log) + [e] && pending == old(pending) && popped == old(popped)
      ensures positions == Moved(old(positions), e)
      ensures closed == old(closed) + if e.Closing? then [e.trade] else []
      ensures Lookup(positions, TickerOf(e)) == After(old(Lookup(positions, TickerOf(e))), e)
      ensures OnlyAt(TickerOf(e), old(positions), positions)
    {
      RecordKeepsExplains(log, positions, popped + closed, e);
      MovedPositions(positions, e);
      hide Fits, Explains, After, Moved, Lookup;
      positions := Moved(positions, e);
      closed := closed + if e.Closing? then [e.trade] else [];
      assert popped + closed == old(popped + closed) + if e.Closing? then [e.trade] else [];
      log := log + [e];
    }

    /** A close asked for by the strategy: at the quote if there is one, else at the entry price; all of it. */
    method CloseTrade(ticker: Ticker, text: string, books: Quotes)
      requires Valid()
      modifies this
      ensures Valid() && pending == old(pending) && popped == old(popped)
      ensures ticker !in old(positions) ==> log == old(log)
      ensures ticker in old(positions) ==> log == old(log) + [Closing(Settle(old(positions)[ticker],
        Exit(AskedPrice(old(positions)[ticker], Lookup(books, ticker)), Requested(text)), slippageBps))]
      ensures Lookup(positions, ticker) == None
      ensures OnlyAt(ticker, old(positions), positions)
    {
      if ticker !in positions {
        return;
      }
      var p := positions[ticker];
      var price := 0.0;
      if ticker in books {
        var q := books[ticker];
        if q.bid > 0.0 && q.ask > 0.0 {
          price := if p.plan.side == Buy then q.bid else q.ask;
        }
      }
      if price == 0.0 {
        price := p.avgPrice;
      }
      assert Lookup(positions, ticker) == Some(p);
      Record(Closing(Settle(p, Exit(price, Requested(text)), slippageBps)));
    }

    /** Forgets the queued plans and the position of a ticker. */
    method CancelAll(ticker: Ticker)
      requires Valid()
      modifies this
      ensures Valid() && popped == old(popped) && closed == old(closed)
      ensures pending == Others(old(pending), ticker) && positions == old(positions) - {ticker}
      ensures log == old(log) + if ticker in old(positions) then [Dropped(old(positions)[ticker])] else []
    {
      if ticker in positions {
        Record(Dropped(positions[ticker]));
      }
      pending := Others(pending, ticker);
    }

    /** Takes over positions recovered at start-up; one already held for the ticker is replaced. */
    method InjectRecovered(trades: seq<ActiveTrade>)
      requires Valid()
      modifies this
      ensures Valid() && pending == old(pending) && popped == old(popped) && closed == old(closed)
      ensures forall t :: Lookup(positions, t) == Injected(old(Lookup(positions, t)), trades, t, |trades|)
      ensures log == old(log) + RestoreEvents(old(positions), trades, |trades|)
    {
      hide Explains, Injected;
      for i := 0 to |trades|
        invariant Valid() && pending == old(pending) && popped == old(popped) && closed == old(closed)
        invariant positions == Restored(old(positions), trades, i) && log == old(log) + RestoreEvents(old(positions), trades, i)
      {
        if trades[i].state == Open || trades[i].state == Exiting {
          Restore(trades[i]);
        }
      }
      RestoredIsInjected(old(positions), trades, |trades|);
    }

    method Restore(t: ActiveTrade)
      requires Valid()
      modifies this
      ensures Valid() && pending == old(pending) && popped == old(popped) && closed == old(closed)
      ensures positions == old(positions)[t.plan.ticker := AsPosition(t)]
      ensures log == old(log) + (if t.plan.ticker in old(positions) then [Dropped(old(positions)[t.plan.ticker])] else []) + [Opened(AsPosition(t))]
    {
      if t.plan.ticker in positions {
        Record(Dropped(positions[t.plan.ticker]));
      }
      Record(Opened(AsPosition(t)));
    }

    /** One ticker's turn: queued plans first, in order, then the position's exit. */
    method TickTicker(ticker: Ticker, now: int, books: Quotes)
      requires Valid()
      modifies this
      ensures Valid() && popped == old(popped) && OnlyAt(ticker, old(positions), positions)
      ensures log == old(log) + TickEvents(old(Lookup(positions, ticker)), old(pending), ticker, now, books, slippageBps)
      ensures pending == Waiting(old(pending), {ticker}, now, books, |old(pending)|)
      ensures Lookup(positions, ticker) == Ticked(old(Lookup(positions, ticker)), old(pending), ticker, now, books, slippageBps)
    {
      hide Explains, Waiting, Entered, Exited, Filling, ExitEvents, FillEvents, Lookup;
      FillPending(ticker, now, books);
      FillingIs(ticker, old(log), old(positions), log, positions);
      CheckExit(ticker, now, books);
    }

    method FillPending(ticker: Ticker, now: int, books: Quotes)
      requires Valid()
      modifies this
      ensures Valid() && popped == old(popped) && Filling(ticker, old(log), old(positions), log, positions)
      ensures pending == Waiting(old(pending), {ticker}, now, books, |old(pending)|)
      ensures Lookup(positions, ticker) ==
        Entered(old(Lookup(positions, ticker)), old(pending), ticker, now, books, slippageBps, |old(pending)|)
    {
      hide Explains, Waiting, Entered, Opening, Slipped, Filled, Filling, HalfWay, SoFar, Erase, Lookup;
      ghost var plans := pending;
      ghost var before := Lookup(positions, ticker);
      ghost var k: nat := 0;
      var i := 0;
      FillingStarts(log, positions, plans, ticker, now, books, slippageBps);
      while i < |pending|
        invariant Valid() && popped == old(popped) && Filling(ticker, old(log), old(positions), log, positions)
        invariant i <= |pending| && HalfWay(pending, i, plans, k, {ticker}, now, books)
        invariant k <= |plans| && |pending| - i == |plans| - k
        invariant SoFar(positions, before, plans, k, ticker, now, books, slippageBps)
        decreases |plans| - k
      {
        QueueStep(pending, i, plans, k, {ticker}, now, books);
        var plan := pending[i];
        k := k + 1;
        if plan.ticker != ticker {
          SoFarStep(positions, positions, before, plans, k - 1, ticker, now, books, slippageBps);
          i := i + 1;
        } else if now > plan.validUntil {
          SoFarStep(positions, positions, before, plans, k - 1, ticker, now, books, slippageBps);
          pending := Erase(pending, i);
        } else {
          var price := PriceNow(plan, books);
          if price.Some? {
            label Before:
            Enter(plan, Slipped(price.value, slippageBps, plan.side == Buy), now);
            SoFarStep(old@Before(positions), positions, before, plans, k - 1, ticker, now, books, slippageBps);
            FillingFurther(ticker, old(log), old(positions), old@Before(log), old@Before(positions), log, positions);
            pending := Erase(pending, i);
          } else {
            SoFarStep(positions, positions, before, plans, k - 1, ticker, now, books, slippageBps);
            i := i + 1;
          }
        }
      }
      QueueDone(pending, i, plans, k, {ticker}, now, books);
      SoFarIs(positions, before, plans, k, ticker, now, books, slippageBps);
    }

    /** Market plans fill at the touch, limit plans at their price or better. */
    method PriceNow(plan: TradePlan, books: Quotes) returns (price: Option<real>)
      ensures price == Filled(plan, books)
    {
      if plan.ticker !in books {
        return None;
      }
      var q := books[plan.ticker];
      if q.bid == 0.0 || q.ask == 0.0 {
        return None;
      }
      price := None;
      if plan.entryType == Market {
        price := Some(if plan.side == Buy then q.ask else q.bid);
      } else if plan.side == Buy && q.ask <= plan.entryPrice {
        price := Some(Min(plan.entryPrice, q.ask));
      } else if plan.side == Sell && q.bid >= plan.entryPrice {
        price := Some(Max(plan.entryPrice, q.bid));
      }
    }

    /** Opens a position, unless the ticker has one already. */
    method Enter(plan: TradePlan, price: real, now: int)
      requires Valid()
      modifies this
      ensures Valid() && popped == old(popped) && pending == old(pending)
      ensures Filling(plan.ticker, old(log), old(positions), log, positions)
      ensures Lookup(positions, plan.ticker) ==
        if plan.ticker in old(positions) then old(Lookup(positions, plan.ticker)) else Some(Opening(plan, price, now))
    {
      if plan.ticker !in positions {
        Record(Opened(Opening(plan, price, now)));
      }
    }

    method CheckExit(ticker: Ticker, now: int, books: Quotes)
      requires Valid()
      modifies this
      ensures Valid() && popped == old(popped) && pending == old(pending)
      ensures OnlyAt(ticker, old(positions), positions)
      ensures log == old(log) + ExitEvents(old(Lookup(positions, ticker)), books, now, slippageBps)
      ensures Lookup(positions, ticker) == Exited(old(Lookup(positions, ticker)), books, now, slippageBps)
    {
      if ticker !in positions {
        return;
      }
      var p := positions[ticker];
      if p.plan.ticker !in books {
        return;
      }
      var q := books[p.plan.ticker];
      if !(q.bid > 0.0 && q.ask > 0.0) {
        return;
      }
      var exit := Stopped(p, q);
      if exit == None && p.plan.tp1Price > 0.0 {
        exit := Targeted(p, q);
      }
      if exit == None {
        exit := Invalidated(p, q, now);
      }
      if exit.Some? {
        assert Lookup(positions, ticker) == Some(p);
        Record(Closing(Settle(p, exit.value, slippageBps)));
      }
    }

    /** Every ticker with a queued plan or a position gets one turn, in whichever order. */
    method Tick(now: int, books: Quotes) returns (ghost order: seq<Ticker>)
      requires Valid()
      modifies this
      ensures Valid() && popped == old(popped)
      ensures forall p :: p in pending <==> p in old(pending) && !Leaves(p, now, books)
      ensures forall t :: Lookup(positions, t) == Ticked(old(Lookup(positions, t)), old(pending), t, now, books, slippageBps)
      ensures log == old(log) + AllTickEvents(old(positions), old(pending), order, now, books, slippageBps, |order|)
      ensures forall i, j :: 0 <= i < j < |order| ==> order[i] != order[j]
    {
      hide Explains, Waiting, Entered, Exited, Ticked, TickEvents, AllTickEvents, TickedSoFar, Lookup, OnlyAt;
      ghost var plans := pending;
      var active := (set p | p in pending :: p.ticker) + positions.Keys;
      var todo := active;
      order := [];
      TickingStarts(log, positions, plans, now, books, slippageBps);
      assert active - todo == {};
      while todo != {}
        invariant Valid() && popped == old(popped) && todo <= active
        invariant TickedSoFar(old(log), old(positions), log, positions, plans, pending, order, active - todo, now, books, slippageBps)
        decreases |todo|
      {
        var ticker :| ticker in todo;
        label Before:
        TickTicker(ticker, now, books);
        TickingStep(old(log), old(positions), old@Before(log), old@Before(positions), log, positions, plans, old@Before(pending), order,
                    active - todo, ticker, now, books, slippageBps);
        assert active - todo + {ticker} == active - (todo - {ticker});
        order := order + [ticker];
        todo := todo - {ticker};
      }
      TickingDone(old(log), old(positions), log, positions, plans, pending, order, active - todo, now, books, slippageBps);
    }
  }

  function AskedPrice(p: Position, q: Option<Quote>): real {
    if q.Some? && q.value.bid > 0.0 && q.value.ask > 0.0 then
      if p.plan.side == Buy then q.value.bid else q.value.ask
    else p.avgPrice
  }

  function Others(plans: seq<TradePlan>, ticker: Ticker): (r: seq<TradePlan>)
    ensures forall p :: p in r <==> p in plans && p.ticker != ticker
  {
    if plans == [] then []
    else (if plans[0].ticker == ticker then [] else [plans[0]]) + Others(plans[1..], ticker)
  }

  function AsPosition(t: ActiveTrade): Position {
    Position(t.plan, t.executedSize, t.avgPrice, t.openedAt)
  }

  /** What the last recovered open trade of a ticker makes of its position. */
  function Injected(p: Option<Position>, trades: seq<ActiveTrade>, ticker: Ticker, n: nat): Option<Position>
    requires n <= |trades|
  {
    if n == 0 then p
    else if trades[n - 1].plan.ticker == ticker && (trades[n - 1].state == Open || trades[n - 1].state == Exiting)
    then Some(AsPosition(trades[n - 1]))
    else Injected(p, trades, ticker, n - 1)
  }

  ghost function Restored(positions: Positions, trades: seq<ActiveTrade>, n: nat): Positions
    requires n <= |trades|
  {
    if n == 0 then positions
    else if trades[n - 1].state == Open || trades[n - 1].state == Exiting
    then Restored(positions, trades, n - 1)[trades[n - 1].plan.ticker := AsPosition(trades[n - 1])]
    else Restored(positions, trades, n - 1)
  }

  /** The ledger of a restoration: a position held before is dropped, then the recovered one is opened. */
  ghost function RestoreEvents(positions: Positions, trades: seq<ActiveTrade>, n: nat): seq<Event>
    requires n <= |trades|
  {
    if n == 0 then []
    else
      var before, t := RestoreEvents(positions, trades, n - 1), trades[n - 1];
      var held := Lookup(Restored(positions, trades, n - 1), t.plan.ticker);
      if t.state != Open && t.state != Exiting then before
      else before + (if held.Some? then [Dropped(held.value)] else []) + [Opened(AsPosition(t))]
  }

  lemma {:induction false} RestoredIsInjected(positions: Positions, trades: seq<ActiveTrade>, n: nat)
    requires n <= |trades|
    ensures forall t :: Lookup(Restored(positions, trades, n), t) == Injected(Lookup(positions, t), trades, t, n)
  {
    if n > 0 {
      RestoredIsInjected(positions, trades, n - 1);
    }
  }
}
