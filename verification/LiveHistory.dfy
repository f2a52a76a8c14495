/** The books an executor has had, the moves between them, and the book each order was sent from. */
module LiveHistory {
  import opened Domain
  import opened Increments
  import opened LiveModel
  import opened Trading

  /** What may change a book: everything but fills leaves the executed sizes as they are. */
  datatype Move =
    | Join(t: ActiveTrade)
    | CancelTicker(ticker: Ticker)
    | Purge(ticker: Ticker)
    | Fill(at: Spot, u: OrderUpdate)
    | Step

  datatype Spot = Spot(ticker: Ticker, index: nat)

  /** For an order: the number of the book it was sent from, and the trade of that book. */
  datatype Origin = Origin(step: nat, at: Spot)

  datatype Trace = Trace(books: seq<TradeBook>, moves: seq<Move>, origins: seq<Option<Origin>>, entries: set<nat>)

  ghost predicate Holds(book: TradeBook, at: Spot) {
    at.ticker in book && at.index < |book[at.ticker]|
  }

  function TradeAt(book: TradeBook, at: Spot): ActiveTrade
    requires Holds(book, at)
  {
    book[at.ticker][at.index]
  }

  // ---------------------------------------------------------------- moves

  ghost predicate SizesStayIn(a: seq<ActiveTrade>, b: seq<ActiveTrade>) {
    |a| == |b| && forall i :: 0 <= i < |a| ==> b[i].executedSize == a[i].executedSize
  }

  ghost predicate SizesStay(a: TradeBook, b: TradeBook) {
    a.Keys == b.Keys && forall t :: t in a ==> SizesStayIn(a[t], b[t])
  }

  /** The executed size after a fill: a final report sets it, a partial one adds to it. */
  function SizeAfter(t: ActiveTrade, u: OrderUpdate): real {
    if u.status == Done then u.filledSize else t.executedSize + u.filledSize
  }

  ghost predicate Filled(a: TradeBook, b: TradeBook, at: Spot, u: OrderUpdate) {
    && Holds(a, at) && Holds(b, at) && u.filledSize > 0.0
    && b == With(a, at.ticker, at.index, TradeAt(b, at))
    && Follows(TradeAt(a, at), TradeAt(b, at))
    && TradeAt(b, at).executedSize == SizeAfter(TradeAt(a, at), u)
  }

  ghost predicate Linked(a: TradeBook, b: TradeBook, m: Move) {
    match m
    case Join(t) => b == Joined(a, t)
    case CancelTicker(ticker) => ticker in a && b == a[ticker := CancelledList(a[ticker])]
    case Purge(ticker) => ticker in a && b == a[ticker := Alive(a[ticker], a[ticker], |a[ticker]|)]
    case Fill(at, u) => Filled(a, b, at, u)
    case Step => BookFollows(a, b) && SizesStay(a, b)
  }

  /** Every book came from the one before by its move, the first one is empty. */
  ghost predicate Chain(books: seq<TradeBook>, moves: seq<Move>) {
    && |books| == |moves| + 1 && books[0] == map[]
    && forall n :: 0 <= n < |moves| ==> Linked(books[n], books[n + 1], moves[n])
  }

  lemma {:induction false} ChainGrows(books: seq<TradeBook>, moves: seq<Move>, b: TradeBook, m: Move)
    requires Chain(books, moves) && Linked(books[|books| - 1], b, m)
    ensures Chain(books + [b], moves + [m])
  {
    hide Linked;
    forall n | 0 <= n < |moves| + 1 ensures Linked((books + [b])[n], (books + [b])[n + 1], (moves + [m])[n]) {
      if n < |moves| {
        assert Linked(books[n], books[n + 1], moves[n]);
      }
    }
  }

  // ---------------------------------------------------------------- orders and the books they were sent from

  /** The order reduces the trade it was sent for, as that trade stood in the book at that moment. */
  ghost predicate SentFrom(o: Order, origin: Option<Origin>, books: seq<TradeBook>, metas: Metas) {
    && origin.Some? && origin.value.step < |books|
    && Holds(books[origin.value.step], origin.value.at)
    && Reduces(o, TradeAt(books[origin.value.step], origin.value.at), metas)
  }

  /** Every order but the submissions was sent from a book of the run, for a trade of it, and reduces that trade. */
  ghost predicate OrdersReduce(sent: seq<Request>, trace: Trace, metas: Metas) {
    && |trace.origins| == |sent| && (forall k :: k in trace.entries ==> k < |sent| && trace.origins[k] == None)
    && forall k :: 0 <= k < |sent| && sent[k].Place? && k !in trace.entries ==>
      SentFrom(sent[k].order, trace.origins[k], trace.books, metas)
  }

  /** The book, the requests, and the trace of how they came about. */
  datatype Run = Run(trades: TradeBook, sent: seq<Request>, trace: Trace)

  ghost predicate Traced(a: Run, metas: Metas) {
    && Chain(a.trace.books, a.trace.moves) && a.trace.books[|a.trace.books| - 1] == a.trades
    && OrdersReduce(a.sent, a.trace, metas)
  }

  /** What a call adds: later books, and requests sent from one of the books the call went through, none a submission. */
  ghost predicate Grows(a: Run, b: Run) {
    && a.sent <= b.sent && a.trace.books <= b.trace.books && a.trace.moves <= b.trace.moves && a.trace.origins <= b.trace.origins
    && |a.trace.origins| == |a.sent| && |b.trace.origins| == |b.sent| && a.trace.books != [] && b.trace.entries == a.trace.entries
    && forall k :: |a.sent| <= k < |b.sent| && b.trace.origins[k].Some? ==> b.trace.origins[k].value.step >= |a.trace.books| - 1
  }

  lemma {:induction false} GrowsFurther(a: Run, b: Run, c: Run)
    requires Grows(a, b) && Grows(b, c)
    ensures Grows(a, c)
  {
    forall k | |a.sent| <= k < |c.sent| && c.trace.origins[k].Some? ensures c.trace.origins[k].value.step >= |a.trace.books| - 1 {
      if k < |b.sent| {
        assert c.trace.origins[k] == b.trace.origins[k];
      }
    }
  }

  /** The run after a move to this book. */
  function Written(a: Run, trades: TradeBook, m: Move): Run {
    a.(trades := trades, trace := a.trace.(books := a.trace.books + [trades], moves := a.trace.moves + [m]))
  }

  /** The run after a request, sent from the last book for the trade there, if for one. */
  function Noted(a: Run, request: Request, at: Option<Spot>): Run
    requires a.trace.books != []
  {
    var origin := if at.Some? then Some(Origin(|a.trace.books| - 1, at.value)) else None;
    a.(sent := a.sent + [request], trace := a.trace.(origins := a.trace.origins + [origin]))
  }

  /** The run after a submission. */
  function Submitted(a: Run, request: Request): Run {
    a.(sent := a.sent + [request], trace := a.trace.(origins := a.trace.origins + [None], entries := a.trace.entries + {|a.sent|}))
  }

  function WithEntries(a: Run, entries: set<nat>): Run {
    a.(trace := a.trace.(entries := entries))
  }

  lemma {:induction false} WritingKeeps(a: Run, metas: Metas, trades: TradeBook, m: Move)
    requires Traced(a, metas) && Linked(a.trades, trades, m)
    ensures Traced(Written(a, trades, m), metas) && Grows(a, Written(a, trades, m))
  {
    hide Linked, Reduces, Holds, TradeAt;
    ChainGrows(a.trace.books, a.trace.moves, trades, m);
    hide Chain;
    forall k | 0 <= k < |a.sent| && a.sent[k].Place? && k !in a.trace.entries
      ensures SentFrom(a.sent[k].order, a.trace.origins[k], a.trace.books + [trades], metas)
    {
      assert SentFrom(a.sent[k].order, a.trace.origins[k], a.trace.books, metas);
    }
  }

  lemma {:induction false} AskingKeeps(a: Run, metas: Metas, request: Request, at: Option<Spot>)
    requires Traced(a, metas)
    requires request.Place? ==> at.Some? && Holds(a.trades, at.value) && Reduces(request.order, TradeAt(a.trades, at.value), metas)
    ensures a.trace.books != []
    ensures Traced(Noted(a, request, at), metas) && Grows(a, Noted(a, request, at))
  {
    hide Linked, Reduces;
    assert Chain(a.trace.books, a.trace.moves);
  }

  lemma {:induction false} SubmittingKeeps(a: Run, metas: Metas, request: Request)
    requires Traced(a, metas)
    ensures Traced(Submitted(a, request), metas)
    ensures Grows(WithEntries(a, Submitted(a, request).trace.entries), Submitted(a, request))
  {
    hide Linked, Reduces;
    assert Chain(a.trace.books, a.trace.moves);
  }

  /** Every request since `a` was sent for this trade. */
  ghost predicate AllFor(a: Run, b: Run, at: Spot) {
    forall k :: |a.sent| <= k < |b.trace.origins| ==> b.trace.origins[k].Some? && b.trace.origins[k].value.at == at
  }

  /** Requests alone: the book stays as it is. */
  ghost predicate Asks(a: Run, b: Run) {
    Grows(a, b) && b.trades == a.trades && b.trace.books == a.trace.books && b.trace.moves == a.trace.moves
  }

  lemma {:induction false} AsksNothing(a: Run, metas: Metas)
    requires Traced(a, metas)
    ensures Asks(a, a)
  {
  }

  lemma {:induction false} AsksFurther(a: Run, b: Run, c: Run)
    requires Asks(a, b) && Asks(b, c)
    ensures Asks(a, c)
  {
    GrowsFurther(a, b, c);
  }

  /** Requests for one trade alone. */
  ghost predicate Sends(a: Run, b: Run, at: Spot) {
    Asks(a, b) && AllFor(a, b, at)
  }

  lemma {:induction false} SendsNothing(a: Run, metas: Metas, at: Spot)
    requires Traced(a, metas)
    ensures Sends(a, a, at)
  {
  }

  lemma {:induction false} SendsFurther(a: Run, b: Run, c: Run, at: Spot)
    requires Sends(a, b, at) && Sends(b, c, at)
    ensures Sends(a, c, at)
  {
    GrowsFurther(a, b, c);
  }

  ghost predicate MovedBy(a: Run, b: Run, allowed: set<Move>) {
    a.trace.moves <= b.trace.moves && forall n :: |a.trace.moves| <= n < |b.trace.moves| ==> b.trace.moves[n] in allowed
  }

  /** Growth in which no executed size changed. */
  ghost predicate NoFills(a: Run, b: Run) {
    Grows(a, b) && MovedBy(a, b, {Step}) && BookFollows(a.trades, b.trades) && b.trades.Keys == a.trades.Keys
  }

  lemma {:induction false} NoFillsYet(a: Run, metas: Metas)
    requires Traced(a, metas)
    ensures NoFills(a, a)
  {
    BookStays(a.trades);
  }

  lemma {:induction false} NoFillsFurther(a: Run, b: Run, c: Run)
    requires NoFills(a, b) && NoFills(b, c)
    ensures NoFills(a, c)
  {
    hide BookFollows;
    GrowsFurther(a, b, c);
    BookFollowsFurther(a.trades, b.trades, c.trades);
  }

  lemma {:induction false} AskingIsNoFill(a: Run, b: Run)
    requires Asks(a, b)
    ensures NoFills(a, b)
  {
    BookStays(a.trades);
  }

  /** The work of one update: nothing but this trade changed, requests were sent for no other, and only this fill changed its size. */
  ghost predicate Worked(a: Run, b: Run, at: Spot, u: OrderUpdate) {
    && Grows(a, b) && AllFor(a, b, at) && MovedBy(a, b, {Step, Fill(at, u)})
    && Holds(a.trades, at) && Holds(b.trades, at) && b.trades == With(a.trades, at.ticker, at.index, TradeAt(b.trades, at))
    && BookFollows(a.trades, b.trades)
  }

  lemma {:induction false} WorkedFurther(a: Run, b: Run, c: Run, at: Spot, u: OrderUpdate)
    requires Worked(a, b, at, u) && Worked(b, c, at, u)
    ensures Worked(a, c, at, u)
  {
    hide BookFollows, With;
    GrowsFurther(a, b, c);
    BookFollowsFurther(a.trades, b.trades, c.trades);
    WithTwice(a.trades, at.ticker, at.index, TradeAt(b.trades, at), TradeAt(c.trades, at));
  }

  /** Requests alone, for a trade of the book. */
  lemma {:induction false} SendingIsWork(a: Run, b: Run, at: Spot, u: OrderUpdate)
    requires Sends(a, b, at) && Holds(a.trades, at)
    ensures Worked(a, b, at, u)
  {
    BookStays(a.trades);
    assert a.trades[at.ticker][at.index := a.trades[at.ticker][at.index]] == a.trades[at.ticker];
  }

  /** A trade written, alone. */
  lemma {:induction false} WritingIsWork(a: Run, metas: Metas, at: Spot, t: ActiveTrade, u: OrderUpdate, move: Move)
    requires Traced(a, metas) && Holds(a.trades, at) && move in {Step, Fill(at, u)}
    requires Linked(a.trades, With(a.trades, at.ticker, at.index, t), move) && BookFollows(a.trades, With(a.trades, at.ticker, at.index, t))
    ensures var b := Written(a, With(a.trades, at.ticker, at.index, t), move);
      Traced(b, metas) && Holds(b.trades, at) && TradeAt(b.trades, at) == t && Worked(a, b, at, u)
  {
    hide Linked, BookFollows, Chain;
    WritingKeeps(a, metas, With(a.trades, at.ticker, at.index, t), move);
  }

  /** A trade replaced by what it became, with its size unless this is a fill. */
  lemma {:induction false} ReplaceLinks(trades: TradeBook, at: Spot, t: ActiveTrade, move: Move)
    requires Holds(trades, at) && Follows(TradeAt(trades, at), t)
    requires match move
      case Step => t.executedSize == TradeAt(trades, at).executedSize
      case Fill(there, u) => there == at && u.filledSize > 0.0 && t.executedSize == SizeAfter(TradeAt(trades, at), u)
      case _ => false
    ensures Linked(trades, With(trades, at.ticker, at.index, t), move)
  {
    OneTradeMoves(trades, at.ticker, at.index, t);
  }

  /** A list replaced by one of the same sizes. */
  lemma {:induction false} ListWritten(a: Run, metas: Metas, ticker: Ticker, list: seq<ActiveTrade>)
    requires Traced(a, metas) && ticker in a.trades && SizesStayIn(a.trades[ticker], list)
    requires BookFollows(a.trades, a.trades[ticker := list])
    ensures var b := Written(a, a.trades[ticker := list], Step); Traced(b, metas) && NoFills(a, b)
  {
    hide BookFollows, Chain, OrdersReduce;
    WritingKeeps(a, metas, a.trades[ticker := list], Step);
  }

  // ---------------------------------------------------------------- what holds over every run

  /**
   * In every run, every order outside the submissions is reduce-only, opposite to its plan, and no
   * larger than what was executed of a trade that was in the book when the order was sent, up to a
   * billionth of an increment (for target fractions of at most one).
   */
  lemma {:induction false} ExitsWithinExecuted(a: Run, metas: Metas, k: nat)
    requires Traced(a, metas) && k < |a.sent| && a.sent[k].Place? && k !in a.trace.entries
    ensures a.trace.origins[k].Some? && a.trace.origins[k].value.step < |a.trace.books|
    ensures var o := a.trace.origins[k].value; Holds(a.trace.books[o.step], o.at)
    ensures var o, order := a.trace.origins[k].value, a.sent[k].order;
      var t := TradeAt(a.trace.books[o.step], o.at);
      && order.reduceOnly && order.ticker == t.plan.ticker && order.side == Opposite(t.plan.side)
      && (order.kind != TakeProfit ==> order.size <= t.executedSize)
      && (t.plan.tp1SizeRatio <= 1.0 ==> order.size <= t.executedSize + Slack(MetaOf(metas, t.plan.ticker)))
  {
    hide Chain, MetaOf;
    assert SentFrom(a.sent[k].order, a.trace.origins[k], a.trace.books, metas);
    var o := a.trace.origins[k].value;
    var t := TradeAt(a.trace.books[o.step], o.at);
    if t.plan.tp1SizeRatio <= 1.0 {
      ReducesWithinSize(a.sent[k].order, t, metas);
    }
  }

  /** Where a trade of book `n` is in book `m`, if it is still there. */
  ghost function Where(books: seq<TradeBook>, moves: seq<Move>, at: Spot, n: nat, m: nat): Option<Spot>
    requires n <= m < |books| == |moves| + 1
    decreases m
  {
    if m == n then Some(at)
    else
      var before := Where(books, moves, at, n, m - 1);
      if before == None then None else Moved(books[m - 1], moves[m - 1], before.value)
  }

  /** A clean-up drops closed trades and lets the others close ranks; no other move displaces a trade. */
  ghost function Moved(a: TradeBook, move: Move, at: Spot): Option<Spot> {
    if move != Purge(at.ticker) || !Holds(a, at) then Some(at)
    else if TradeAt(a, at).state == Closed then None
    else Some(Spot(at.ticker, |Alive(a[at.ticker], a[at.ticker], at.index)|))
  }

  ghost predicate NotCancelled(moves: seq<Move>, ticker: Ticker, n: nat, m: nat)
    requires m <= |moves|
  {
    forall j :: n <= j < m ==> moves[j] != CancelTicker(ticker)
  }

  lemma {:induction false} MoveKeepsTrade(a: TradeBook, b: TradeBook, move: Move, at: Spot)
    requires Linked(a, b, move) && Holds(a, at)
    ensures var there := Moved(a, move, at);
      && (there.Some? ==> there.value.ticker == at.ticker && Holds(b, there.value))
      && (there.Some? && move != CancelTicker(at.ticker) ==> Follows(TradeAt(a, at), TradeAt(b, there.value)))
      && (there.Some? && TradeAt(a, at).state == Closed ==> TradeAt(b, there.value) == TradeAt(a, at))
      && (there == None ==> TradeAt(a, at).state == Closed)
  {
    match move {
      case Purge(ticker) =>
        if ticker == at.ticker && TradeAt(a, at).state != Closed {
          AliveAt(a[at.ticker], at.index, |a[at.ticker]|);
        }
      case Step => assert AllFollow(a[at.ticker], b[at.ticker]);
      case _ =>
    }
  }

  /** A trade that is still somewhere in a later book is held there, by its own ticker. */
  lemma {:induction false} WhereHolds(books: seq<TradeBook>, moves: seq<Move>, at: Spot, n: nat, m: nat)
    requires Chain(books, moves) && n <= m < |books| && Holds(books[n], at)
    ensures var there := Where(books, moves, at, n, m); there.Some? ==> there.value.ticker == at.ticker && Holds(books[m], there.value)
    decreases m
  {
    hide Linked, Moved, Holds, TradeAt;
    if n < m {
      WhereHolds(books, moves, at, n, m - 1);
      var before := Where(books, moves, at, n, m - 1);
      if before.Some? {
        assert Linked(books[m - 1], books[m - 1 + 1], moves[m - 1]);
        MoveKeepsTrade(books[m - 1], books[m], moves[m - 1], before.value);
      }
    }
  }

  /** Over every run, whatever is called: a closed trade never changes until a clean-up drops it. */
  lemma {:induction false} ClosedThroughRun(books: seq<TradeBook>, moves: seq<Move>, at: Spot, n: nat, m: nat)
    requires Chain(books, moves) && n <= m < |books| && Holds(books[n], at) && TradeAt(books[n], at).state == Closed
    ensures var there := Where(books, moves, at, n, m);
      there.Some? ==> Holds(books[m], there.value) && TradeAt(books[m], there.value) == TradeAt(books[n], at)
    decreases m
  {
    hide Linked, Moved, Holds, TradeAt;
    if n < m {
      ClosedThroughRun(books, moves, at, n, m - 1);
      var before := Where(books, moves, at, n, m - 1);
      if before.Some? {
        assert Linked(books[m - 1], books[m - 1 + 1], moves[m - 1]);
        MoveKeepsTrade(books[m - 1], books[m], moves[m - 1], before.value);
      }
    }
  }

  /** Over every run, whatever is called: a trade disappears only after it was closed, by a clean-up. */
  lemma {:induction false} GoneOnlyIfClosed(books: seq<TradeBook>, moves: seq<Move>, at: Spot, n: nat, m: nat) returns (j: nat)
    requires Chain(books, moves) && n <= m < |books| && Holds(books[n], at) && Where(books, moves, at, n, m) == None
    ensures n <= j < m && moves[j] == Purge(at.ticker)
    ensures var there := Where(books, moves, at, n, j); there.Some? && Holds(books[j], there.value) && TradeAt(books[j], there.value).state == Closed
    decreases m
  {
    hide Linked, Holds, TradeAt;
    var before := Where(books, moves, at, n, m - 1);
    if before == None {
      j := GoneOnlyIfClosed(books, moves, at, n, m - 1);
    } else {
      j := m - 1;
      WhereHolds(books, moves, at, n, j);
      assert Linked(books[j], books[j + 1], moves[j]);
      MoveKeepsTrade(books[j], books[j + 1], moves[j], before.value);
    }
  }

  /**
   * Over every run until its ticker is cancelled, a trade moves on: one being closed by force stays
   * so, with its size, and in the book, through every update, tick, submission and clean-up.
   */
  lemma {:induction false} ForcedThroughRun(books: seq<TradeBook>, moves: seq<Move>, at: Spot, n: nat, m: nat)
    requires Chain(books, moves) && n <= m < |books| && Holds(books[n], at) && NotCancelled(moves, at.ticker, n, m)
    ensures var t, there := TradeAt(books[n], at), Where(books, moves, at, n, m);
      && (there.Some? ==> there.value.ticker == at.ticker && Holds(books[m], there.value) && Follows(t, TradeAt(books[m], there.value)))
      && (t.state == EmergencyClosing ==> there.Some? && TradeAt(books[m], there.value) == t.(avgPriceFix := TradeAt(books[m], there.value).avgPriceFix))
    decreases m
  {
    hide Linked, Moved, Holds, TradeAt;
    if n < m {
      ForcedThroughRun(books, moves, at, n, m - 1);
      var before := Where(books, moves, at, n, m - 1);
      if before.Some? {
        assert Linked(books[m - 1], books[m - 1 + 1], moves[m - 1]);
        MoveKeepsTrade(books[m - 1], books[m], moves[m - 1], before.value);
      }
    }
  }

  /** The executed size of a trade is the size its fills reported: nothing else changes it, cancellations included. */
  lemma {:induction false} OnlyFillsChangeSize(books: seq<TradeBook>, moves: seq<Move>, at: Spot, n: nat)
    requires Chain(books, moves) && n < |moves| && Holds(books[n], at) && Moved(books[n], moves[n], at).Some?
    ensures var there := Moved(books[n], moves[n], at).value;
      && Holds(books[n + 1], there)
      && TradeAt(books[n + 1], there).executedSize ==
        if moves[n].Fill? && moves[n].at == at then SizeAfter(TradeAt(books[n], at), moves[n].u) else TradeAt(books[n], at).executedSize
  {
    var a, b := books[n], books[n + 1];
    assert Linked(a, b, moves[n]);
    match moves[n] {
      case Purge(ticker) =>
        if ticker == at.ticker {
          AliveAt(a[at.ticker], at.index, |a[at.ticker]|);
        }
      case Step => assert SizesStayIn(a[at.ticker], b[at.ticker]);
      case _ =>
    }
  }
}
