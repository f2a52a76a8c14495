/** The stop orders that stand at the exchange, and whether the trades they protect still know them. */
module LiveStops {
  import opened Domain
  import opened Increments
  import opened LiveHistory
  import opened LiveModel
  import opened Trading

  predicate IsStop(r: Request) {
    r.Place? && r.order.kind == StopLoss
  }

  predicate TakesBack(r: Request, id: int, ticker: Ticker) {
    match r
    case CancelOrder(i, _) => i == id
    case CancelAllOrders(t) => t == ticker
    case Place(_) => false
  }

  /** The k-th request placed a stop, the exchange gave it an id, and has taken none of its cancellations since. */
  ghost predicate Standing(sent: seq<Request>, gateway: Gateway, k: nat) {
    && k < |sent| && IsStop(sent[k]) && gateway(k).Some? && gateway(k).value != 0
    && forall j :: k < j < |sent| ==> !(TakesBack(sent[j], gateway(k).value, sent[k].order.ticker) && gateway(j).Some?)
  }

  /** Where the trade that an order was sent for is now. */
  ghost function Holder(a: Run, k: nat): Option<Spot> {
    if k < |a.trace.origins| && a.trace.origins[k].Some? && a.trace.origins[k].value.step < |a.trace.books| == |a.trace.moves| + 1 then
      Where(a.trace.books, a.trace.moves, a.trace.origins[k].value.at, a.trace.origins[k].value.step, |a.trace.books| - 1)
    else None
  }

  /** The trade has the order's id as that of its stop. */
  ghost predicate Knows(book: TradeBook, at: Spot, id: int) {
    Holds(book, at) && TradeAt(book, at).stopId == id
  }

  /** Every standing stop but the lost ones is known to its trade, if that is still there. */
  ghost predicate Known(a: Run, gateway: Gateway, lost: set<nat>) {
    forall k :: 0 <= k < |a.sent| && Standing(a.sent, gateway, k) && k !in lost && Holder(a, k).Some? ==>
      Knows(a.trades, Holder(a, k).value, gateway(k).value)
  }

  /** The exchange never gives two stops the same id. */
  ghost predicate DistinctIds(sent: seq<Request>, gateway: Gateway) {
    forall j, k :: 0 <= j < k < |sent| && IsStop(sent[j]) && IsStop(sent[k]) && gateway(j).Some? && gateway(j) == gateway(k) ==> gateway(j) == Some(0)
  }

  /** No trade has two standing stops, but for lost ones. */
  lemma {:induction false} OneStop(a: Run, gateway: Gateway, lost: set<nat>, j: nat, k: nat)
    requires Known(a, gateway, lost) && DistinctIds(a.sent, gateway)
    requires Standing(a.sent, gateway, j) && Standing(a.sent, gateway, k) && j !in lost && k !in lost
    requires Holder(a, j).Some? && Holder(a, j) == Holder(a, k)
    ensures j == k
  {
    hide Holder;
    assert Knows(a.trades, Holder(a, j).value, gateway(j).value) && Knows(a.trades, Holder(a, k).value, gateway(k).value);
  }

  // ---------------------------------------------------------------- runs that go on

  lemma {:induction false} StoodBefore(sent: seq<Request>, sent': seq<Request>, gateway: Gateway, k: nat)
    requires sent <= sent' && k < |sent| && Standing(sent', gateway, k)
    ensures Standing(sent, gateway, k)
    ensures forall j :: |sent| <= j < |sent'| ==> !(TakesBack(sent'[j], gateway(k).value, sent[k].order.ticker) && gateway(j).Some?)
  {
    assert forall j :: 0 <= j < |sent| ==> sent'[j] == sent[j];
  }

  lemma {:induction false} WherePrefix(books: seq<TradeBook>, moves: seq<Move>, books': seq<TradeBook>, moves': seq<Move>, at: Spot, n: nat, m: nat)
    requires books <= books' && moves <= moves' && |books| == |moves| + 1 && |books'| == |moves'| + 1 && n <= m < |books|
    ensures Where(books', moves', at, n, m) == Where(books, moves, at, n, m)
    decreases m
  {
    hide Moved;
    if n < m {
      WherePrefix(books, moves, books', moves', at, n, m - 1);
      assert books'[m - 1] == books[m - 1] && moves'[m - 1] == moves[m - 1];
    }
  }

  ghost predicate NoPurges(moves: seq<Move>, n: nat) {
    forall j :: n <= j < |moves| ==> !moves[j].Purge?
  }

  /** Only clean-ups displace trades. */
  lemma {:induction false} WhereStays(books: seq<TradeBook>, moves: seq<Move>, at: Spot, n: nat, l: nat, m: nat)
    requires |books| == |moves| + 1 && n <= l <= m < |books| && NoPurges(moves, l)
    ensures Where(books, moves, at, n, m) == Where(books, moves, at, n, l)
    decreases m
  {
    if l < m {
      WhereStays(books, moves, at, n, l, m - 1);
    }
  }

  /** The trace fits the requests; a sent stop is a submission or was sent from a book of the run. */
  ghost predicate Tracks(a: Run) {
    && |a.trace.books| == |a.trace.moves| + 1 && |a.trace.origins| == |a.sent|
    && forall k :: 0 <= k < |a.sent| && IsStop(a.sent[k]) && a.trace.origins[k].Some? ==> a.trace.origins[k].value.step < |a.trace.books|
  }

  lemma {:induction false} TracedTracks(a: Run, metas: Metas)
    requires Traced(a, metas)
    ensures Tracks(a)
  {
    hide Linked, Reduces;
    forall k | 0 <= k < |a.sent| && IsStop(a.sent[k]) && a.trace.origins[k].Some? ensures a.trace.origins[k].value.step < |a.trace.books| {
      assert SentFrom(a.sent[k].order, a.trace.origins[k], a.trace.books, metas);
    }
  }

  /** The run goes on without a clean-up. */
  ghost predicate GoesOn(a: Run, b: Run) {
    && Tracks(a) && Tracks(b) && a.sent <= b.sent
    && a.trace.books <= b.trace.books && a.trace.moves <= b.trace.moves && a.trace.origins <= b.trace.origins
    && NoPurges(b.trace.moves, |a.trace.moves|)
    && forall k :: |a.sent| <= k < |b.sent| && b.trace.origins[k].Some? ==> b.trace.origins[k].value.step >= |a.trace.books| - 1
  }

  lemma {:induction false} HolderStays(a: Run, b: Run, k: nat)
    requires GoesOn(a, b) && k < |a.sent| && IsStop(a.sent[k])
    ensures Holder(b, k) == Holder(a, k)
  {
    assert b.trace.origins[k] == a.trace.origins[k] && b.sent[k] == a.sent[k];
    if a.trace.origins[k].Some? {
      var o, m := a.trace.origins[k].value, |a.trace.books| - 1;
      WhereStays(b.trace.books, b.trace.moves, o.at, o.step, m, |b.trace.books| - 1);
      WherePrefix(a.trace.books, a.trace.moves, b.trace.books, b.trace.moves, o.at, o.step, m);
    }
  }

  ghost predicate SameStops(a: TradeBook, b: TradeBook) {
    forall at :: Holds(a, at) ==> Holds(b, at) && TradeAt(b, at).stopId == TradeAt(a, at).stopId
  }

  /** No trade changed its stop, and no stop was sent but by submissions. */
  lemma {:induction false} KnownStays(a: Run, b: Run, gateway: Gateway, lost: set<nat>)
    requires GoesOn(a, b) && Known(a, gateway, lost) && SameStops(a.trades, b.trades)
    requires forall k :: |a.sent| <= k < |b.sent| && IsStop(b.sent[k]) ==> b.trace.origins[k] == None
    ensures Known(b, gateway, lost)
  {
    hide GoesOn, Holds, TradeAt;
    forall k | 0 <= k < |b.sent| && Standing(b.sent, gateway, k) && k !in lost && Holder(b, k).Some?
      ensures Knows(b.trades, Holder(b, k).value, gateway(k).value)
    {
      StillKnown(a, b, gateway, k);
    }
  }

  lemma {:induction false} StillKnown(a: Run, b: Run, gateway: Gateway, k: nat)
    requires GoesOn(a, b) && k < |b.sent| && Standing(b.sent, gateway, k)
    ensures IsStop(b.sent[k]) && |b.trace.origins| == |b.sent|
    ensures k < |a.sent| ==> Standing(a.sent, gateway, k) && Holder(b, k) == Holder(a, k)
    ensures k >= |a.sent| && b.trace.origins[k] == None ==> Holder(b, k) == None
  {
    hide Where;
    if k < |a.sent| {
      StoodBefore(a.sent, b.sent, gateway, k);
      HolderStays(a, b, k);
    }
  }

  // ---------------------------------------------------------------- what a step for one trade does to its stops

  ghost predicate CancelAnswered(requests: seq<Request>, gateway: Gateway, k: nat, id: int) {
    exists j :: 0 <= j < |requests| && requests[j].CancelOrder? && requests[j].id == id && gateway(k + j).Some?
  }

  /** The orders before the `k`-th that got this id. */
  function Named(gateway: Gateway, k: nat, id: int): set<nat> {
    set j | 0 <= j < k && gateway(j) == Some(id)
  }

  /**
   * A trade's stop follows what is sent for it from request `k` on: a stop it no longer knows was
   * taken back, a stop that was placed is known, or else lost.
   */
  ghost predicate StopsFollow(t: ActiveTrade, t': ActiveTrade, requests: seq<Request>, gateway: Gateway, k: nat, lost: set<nat>) {
    && (t.stopId == 0 || t'.stopId == t.stopId || CancelAnswered(requests, gateway, k, t.stopId) || Named(gateway, k, t.stopId) <= lost)
    && forall j :: 0 <= j < |requests| && IsStop(requests[j]) && gateway(k + j).Some? && gateway(k + j).value != 0 ==>
      t'.stopId == gateway(k + j).value || k + j in lost
  }

  lemma {:induction false} KnownFollows(a: Run, b: Run, gateway: Gateway, lost: set<nat>, lost': set<nat>, at: Spot, t': ActiveTrade,
      requests: seq<Request>)
    requires GoesOn(a, b) && AllFor(a, b, at) && Known(a, gateway, lost) && lost <= lost'
    requires Holds(a.trades, at) && b.trades == With(a.trades, at.ticker, at.index, t') && b.sent == a.sent + requests
    requires StopsFollow(TradeAt(a.trades, at), t', requests, gateway, |a.sent|, lost')
    ensures Known(b, gateway, lost')
  {
    hide GoesOn, AllFor, StopsFollow;
    forall k | 0 <= k < |b.sent| && Standing(b.sent, gateway, k) && k !in lost' && Holder(b, k).Some?
      ensures Knows(b.trades, Holder(b, k).value, gateway(k).value)
    {
      StillKnown(a, b, gateway, k);
      if k < |a.sent| {
        if Holder(a, k).value == at {
          OldFollows(a, b, gateway, lost', at, t', requests, k);
        }
      } else {
        NewFollows(a, b, gateway, lost', at, t', requests, k);
      }
    }
  }

  lemma {:induction false} OldFollows(a: Run, b: Run, gateway: Gateway, lost: set<nat>, at: Spot, t': ActiveTrade, requests: seq<Request>, k: nat)
    requires b.sent == a.sent + requests && k < |a.sent| && k !in lost && Standing(b.sent, gateway, k)
    requires Knows(a.trades, at, gateway(k).value) && StopsFollow(TradeAt(a.trades, at), t', requests, gateway, |a.sent|, lost)
    ensures t'.stopId == gateway(k).value
  {
    StoodBefore(a.sent, b.sent, gateway, k);
    var id := gateway(k).value;
    if t'.stopId != id {
      assert k in Named(gateway, |a.sent|, id);
      var j :| 0 <= j < |requests| && requests[j].CancelOrder? && requests[j].id == id && gateway(|a.sent| + j).Some?;
      assert b.sent[|a.sent| + j] == requests[j];
      assert TakesBack(b.sent[|a.sent| + j], id, a.sent[k].order.ticker);
    }
  }

  lemma {:induction false} NewFollows(a: Run, b: Run, gateway: Gateway, lost: set<nat>, at: Spot, t': ActiveTrade, requests: seq<Request>, k: nat)
    requires GoesOn(a, b) && AllFor(a, b, at) && Holds(a.trades, at) && b.trades == With(a.trades, at.ticker, at.index, t')
    requires b.sent == a.sent + requests && |a.sent| <= k < |b.sent| && k !in lost && Standing(b.sent, gateway, k) && Holder(b, k).Some?
    requires StopsFollow(TradeAt(a.trades, at), t', requests, gateway, |a.sent|, lost)
    ensures Knows(b.trades, Holder(b, k).value, gateway(k).value)
  {
    assert b.sent[k] == requests[k - |a.sent|];
    var o, m := b.trace.origins[k].value, |b.trace.books| - 1;
    assert NoPurges(b.trace.moves, o.step);
    WhereStays(b.trace.books, b.trace.moves, o.at, o.step, o.step, m);
    assert Holder(b, k) == Some(at);
  }

  lemma {:induction false} ProtectedStops(t: ActiveTrade, t': ActiveTrade, requests: seq<Request>, gateway: Gateway, k: nat, meta: TickerMeta,
      lost: set<nat>)
    requires Protected(t, t', requests, gateway, k, meta)
    ensures StopsFollow(t, t', requests, gateway, k, lost)
  {
    hide TargetSize, Named;
    if t.stopId != 0 && requests != [] {
      assert requests[0] == CancelOrder(t.stopId, t.plan.ticker);
      assert gateway(k + 0).Some? || t' == t;
    }
    var n := |Cancels(t)|;
    assert n < |requests| ==> requests[n] == Place(StopOrder(t));
    forall j | 0 <= j < |requests| && IsStop(requests[j]) ensures j == n {
    }
  }

  /** The orders lost when the stop's cancellation is refused as request `k`. */
  function Refused(t: ActiveTrade, gateway: Gateway, k: nat): set<nat> {
    if t.stopId != 0 && gateway(k) == None then Named(gateway, k, t.stopId) else {}
  }

  lemma {:induction false} ForcedOutStops(t: ActiveTrade, t': ActiveTrade, requests: seq<Request>, gateway: Gateway, k: nat, lost: set<nat>)
    requires ForcedOut(t, t', requests, gateway, k) && Refused(t, gateway, k) <= lost
    ensures StopsFollow(t, t', requests, gateway, k, lost)
  {
    hide Named;
    if t.stopId != 0 {
      assert requests[0] == CancelOrder(t.stopId, t.plan.ticker);
      assert gateway(k + 0).Some? || gateway(k) == None;
    }
    forall j | 0 <= j < |requests| ensures !IsStop(requests[j]) {
    }
  }

  /** The update reports the fill of the first target. */
  predicate HitsTarget(t: ActiveTrade, u: OrderUpdate) {
    u.status == Done && u.filledSize > 0.0 && !RolesOf(t, u).entry && RolesOf(t, u).tp1 && !Claim(t, u).tp1Filled
  }

  /** It places a break-even stop, as this request. */
  function BreakEvenAt(t: ActiveTrade, u: OrderUpdate, k: nat): Option<nat> {
    if HitsTarget(t, u) && WantsBreakEven(Claim(t, u), u) then Some(k + if Claim(t, u).stopId != 0 then 1 else 0) else None
  }

  /**
   * The stops an update loses: of a target fill the break-even stop, whose id is not kept, and the
   * old stop if the exchange refuses to take it back.
   */
  function LostByUpdate(t: ActiveTrade, u: OrderUpdate, gateway: Gateway, k: nat): set<nat> {
    var be := BreakEvenAt(t, u, k);
    (if HitsTarget(t, u) then Refused(Claim(t, u), gateway, k) else {}) + (if be.Some? && gateway(be.value).Some? then {be.value} else {})
  }

  lemma {:induction false} HandledStops(t: ActiveTrade, u: OrderUpdate, t': ActiveTrade, requests: seq<Request>, records: seq<ClosedTrade>,
      gateway: Gateway, k: nat, meta: TickerMeta, marks: Marks, cfg: Config, lost: set<nat>)
    requires Handled(t, u, t', requests, records, gateway, k, meta, marks, cfg) && LostByUpdate(t, u, gateway, k) <= lost
    ensures StopsFollow(t, t', requests, gateway, k, lost)
  {
    hide RolesOf, FilledInPart, FilledWhole, TargetFilled, StopsFollow, Named, WantsBreakEven, Refused;
    ClaimKeepsKnownIds(t, u);
    var r, c := RolesOf(t, u), Claim(t, u);
    if u.status == Working && r.entry && u.filledSize > 0.0 {
      PartlyStops(c, u, t', requests, gateway, k, meta, lost);
      ClaimedStops(t, c, t', requests, gateway, k, lost);
    } else if u.status == Done && u.filledSize > 0.0 && r.entry {
      WholeStops(c, u, t', requests, gateway, k, meta, cfg, lost);
      ClaimedStops(t, c, t', requests, gateway, k, lost);
    } else if HitsTarget(t, u) {
      TargetStops(c, u, t', requests, records, gateway, k, marks, lost);
      ClaimedStops(t, c, t', requests, gateway, k, lost);
    } else {
      QuietStops(t, t', gateway, k, lost);
    }
  }

  lemma {:induction false} QuietStops(t: ActiveTrade, t': ActiveTrade, gateway: Gateway, k: nat, lost: set<nat>)
    requires t.stopId == 0 || t'.stopId == t.stopId
    ensures StopsFollow(t, t', [], gateway, k, lost)
  {
  }

  lemma {:induction false} ClaimedStops(t: ActiveTrade, c: ActiveTrade, t': ActiveTrade, requests: seq<Request>, gateway: Gateway, k: nat, lost: set<nat>)
    requires StopsFollow(c, t', requests, gateway, k, lost) && (t.stopId == 0 || c.stopId == t.stopId)
    ensures StopsFollow(t, t', requests, gateway, k, lost)
  {
  }

  lemma {:induction false} PartlyStops(c: ActiveTrade, u: OrderUpdate, t': ActiveTrade, requests: seq<Request>, gateway: Gateway, k: nat,
      meta: TickerMeta, lost: set<nat>)
    requires FilledInPart(c, u, t', requests, gateway, k, meta)
    ensures StopsFollow(c, t', requests, gateway, k, lost)
  {
    hide Protected, StopsFollow;
    if c.state == Open {
      QuietStops(c, t', gateway, k, lost);
    } else {
      var p :| Protected(PartlyEntered(c, u), p, requests, gateway, k, meta) && t' == Counted(p, u);
      ProtectedStops(PartlyEntered(c, u), p, requests, gateway, k, meta, lost);
      SameFollow(PartlyEntered(c, u), p, c, t', requests, gateway, k, lost);
    }
  }

  lemma {:induction false} SameFollow(t: ActiveTrade, t': ActiveTrade, s: ActiveTrade, s': ActiveTrade, requests: seq<Request>, gateway: Gateway,
      k: nat, lost: set<nat>)
    requires StopsFollow(t, t', requests, gateway, k, lost) && s.stopId == t.stopId && s'.stopId == t'.stopId
    ensures StopsFollow(s, s', requests, gateway, k, lost)
  {
  }

  lemma {:induction false} WholeStops(c: ActiveTrade, u: OrderUpdate, t': ActiveTrade, requests: seq<Request>, gateway: Gateway, k: nat,
      meta: TickerMeta, cfg: Config, lost: set<nat>)
    requires FilledWhole(c, u, t', requests, gateway, k, meta, cfg)
    ensures StopsFollow(c, t', requests, gateway, k, lost)
  {
    hide Protected, SlippedTooFar, Named;
    var e := Entered(c, u);
    if !SlippedTooFar(e.avgPrice, e.plan.entryPrice, cfg.maxSlippageBps) {
      ProtectedStops(e, t', requests, gateway, k, meta, lost);
      SameFollow(e, t', c, t', requests, gateway, k, lost);
    }
  }

  lemma {:induction false} TargetStops(c: ActiveTrade, u: OrderUpdate, t': ActiveTrade, requests: seq<Request>, records: seq<ClosedTrade>,
      gateway: Gateway, k: nat, marks: Marks, lost: set<nat>)
    requires TargetFilled(c.(tp1Filled := true), u, t', requests, records, gateway, k, marks)
    requires Refused(c, gateway, k) <= lost
    requires var n := if c.stopId != 0 then 1 else 0; WantsBreakEven(c, u) && gateway(k + n).Some? ==> k + n in lost
    ensures StopsFollow(c, t', requests, gateway, k, lost)
  {
    hide Named, Trailed, StopsFollow, WantsBreakEven, Refused;
    var n, d := if c.stopId != 0 then 1 else 0, c.(tp1Filled := true, stopId := 0);
    var cancel := if c.stopId != 0 then [CancelOrder(c.stopId, c.plan.ticker)] else [];
    if WantsBreakEven(c, u) {
      var rest := Max(0.0, c.executedSize - u.filledSize);
      assert WantsBreakEven(c.(tp1Filled := true), u) by {
        SameWish(c, u);
      }
      var more :| requests == cancel + more && Trailed(d, rest, t', more, records, gateway, k + |cancel|, marks);
      TrailStops(d, rest, t', more, records, gateway, k + n, marks);
      assert forall j :: n <= j < |requests| ==> requests[j] == more[j - n];
    } else {
      assert !WantsBreakEven(c.(tp1Filled := true), u) by {
        SameWish(c, u);
      }
    }
    TargetFollows(c, t', requests, gateway, k, n, lost);
  }

  lemma {:induction false} SameWish(c: ActiveTrade, u: OrderUpdate)
    ensures WantsBreakEven(c.(tp1Filled := true), u) == WantsBreakEven(c, u)
  {
  }

  lemma {:induction false} TargetFollows(c: ActiveTrade, t': ActiveTrade, requests: seq<Request>, gateway: Gateway, k: nat, n: nat, lost: set<nat>)
    requires t'.stopId == 0 && Refused(c, gateway, k) <= lost
    requires c.stopId != 0 ==> requests != [] && requests[0] == CancelOrder(c.stopId, c.plan.ticker)
    requires forall j :: 0 <= j < |requests| && IsStop(requests[j]) ==> j == n && (gateway(k + n) == None || k + n in lost)
    ensures StopsFollow(c, t', requests, gateway, k, lost)
  {
    hide Named;
    if c.stopId != 0 && gateway(k) != None {
      assert requests[0].CancelOrder? && gateway(k + 0).Some?;
    }
  }

  lemma {:induction false} TrailStops(d: ActiveTrade, rest: real, t': ActiveTrade, requests: seq<Request>, records: seq<ClosedTrade>,
      gateway: Gateway, k: nat, marks: Marks)
    requires Trailed(d, rest, t', requests, records, gateway, k, marks) && d.stopId == 0
    ensures t'.stopId == 0 && forall j :: 0 <= j < |requests| && IsStop(requests[j]) ==> j == 0
  {
    hide RecordOf, ExitEstimate;
    if gateway(k) == None {
      var more :| requests == [Place(BreakEvenOrder(d, rest))] + more && ForcedOut(d, t', more, gateway, k + 1);
    }
  }

  // ---------------------------------------------------------------- what whole calls do to the stops

  lemma {:induction false} GrowsGoesOn(a: Run, b: Run, metas: Metas)
    requires Traced(a, metas) && Traced(b, metas) && Grows(WithEntries(a, b.trace.entries), b) && NoPurges(b.trace.moves, |a.trace.moves|)
    ensures GoesOn(a, b)
  {
    hide Traced;
    TracedTracks(a, metas);
    TracedTracks(b, metas);
  }

  lemma {:induction false} NoFillsGoesOn(a: Run, b: Run, metas: Metas)
    requires Traced(a, metas) && Traced(b, metas) && NoFills(a, b)
    ensures GoesOn(a, b)
  {
    hide Traced, BookFollows;
    assert WithEntries(a, b.trace.entries) == a;
    GrowsGoesOn(a, b, metas);
  }

  /** What one update does to the stops of its trade, and to no others. */
  lemma {:induction false} WorkedKnown(a: Run, b: Run, metas: Metas, gateway: Gateway, lost: set<nat>, lost': set<nat>, at: Spot, u: OrderUpdate,
      requests: seq<Request>)
    requires Traced(a, metas) && Traced(b, metas) && Worked(a, b, at, u) && Known(a, gateway, lost) && lost <= lost' && b.sent == a.sent + requests
    requires StopsFollow(TradeAt(a.trades, at), TradeAt(b.trades, at), requests, gateway, |a.sent|, lost')
    ensures Known(b, gateway, lost')
  {
    hide Traced, BookFollows, Known, StopsFollow, AllFor;
    assert WithEntries(a, b.trace.entries) == a;
    GrowsGoesOn(a, b, metas);
    KnownFollows(a, b, gateway, lost, lost', at, TradeAt(b.trades, at), requests);
  }

  /** No executed size and no stop of a trade changed, and no stop was sent. */
  lemma {:induction false} NoFillsKnown(a: Run, b: Run, metas: Metas, gateway: Gateway, lost: set<nat>)
    requires Traced(a, metas) && Traced(b, metas) && NoFills(a, b) && Known(a, gateway, lost) && SameStops(a.trades, b.trades)
    requires forall k :: |a.sent| <= k < |b.sent| ==> !IsStop(b.sent[k])
    ensures Known(b, gateway, lost)
  {
    hide Traced, NoFills, Known, SameStops, GoesOn;
    NoFillsGoesOn(a, b, metas);
    KnownStays(a, b, gateway, lost);
  }

  /** A list that is being worked through: the trade at `i` becomes `t'`, and `requests` were sent for it. */
  lemma {:induction false} ListKnown(a: Run, b: Run, metas: Metas, gateway: Gateway, lost: set<nat>, lost': set<nat>, ticker: Ticker,
      list: seq<ActiveTrade>, i: nat, t': ActiveTrade, requests: seq<Request>)
    requires Traced(a, metas) && Traced(b, metas) && Sends(a, b, Spot(ticker, i)) && i < |list| && lost <= lost' && b.sent == a.sent + requests
    requires StopsFollow(list[i], t', requests, gateway, |a.sent|, lost')
    requires Known(a.(trades := a.trades[ticker := list]), gateway, lost)
    ensures Known(b.(trades := b.trades[ticker := list[i := t']]), gateway, lost')
  {
    hide Traced, Known, StopsFollow, Tracks;
    var v, w := a.(trades := a.trades[ticker := list]), b.(trades := b.trades[ticker := list[i := t']]);
    TracedTracks(a, metas);
    TracedTracks(b, metas);
    SameTracks(a, v);
    SameTracks(b, w);
    hide Where;
    KnownFollows(v, w, gateway, lost, lost', Spot(ticker, i), t', requests);
  }

  lemma {:induction false} SameTracks(a: Run, b: Run)
    requires Tracks(a) && b == a.(trades := b.trades)
    ensures Tracks(b)
  {
  }

  /** The worked list is written back. */
  lemma {:induction false} WrittenKnown(a: Run, b: Run, metas: Metas, gateway: Gateway, lost: set<nat>)
    requires Traced(a, metas) && Traced(b, metas) && NoFills(a, b) && b.sent == a.sent && Known(a.(trades := b.trades), gateway, lost)
    ensures Known(b, gateway, lost)
  {
    hide Traced, Known, BookFollows, Tracks;
    TracedTracks(a, metas);
    TracedTracks(b, metas);
    SameTracks(a, a.(trades := b.trades));
    KnownStays(a.(trades := b.trades), b, gateway, lost);
  }

  /** A clean-up takes the holders along. */
  lemma {:induction false} PurgedKnown(a: Run, metas: Metas, gateway: Gateway, lost: set<nat>, ticker: Ticker)
    requires Traced(a, metas) && Known(a, gateway, lost) && ticker in a.trades
    ensures Known(Written(a, a.trades[ticker := Alive(a.trades[ticker], a.trades[ticker], |a.trades[ticker]|)], Purge(ticker)), gateway, lost)
  {
    var list := a.trades[ticker];
    var b := Written(a, a.trades[ticker := Alive(list, list, |list|)], Purge(ticker));
    TracedTracks(a, metas);
    assert a.trace.books[|a.trace.books| - 1] == a.trades;
    hide Traced, Alive;
    forall k | 0 <= k < |b.sent| && Standing(b.sent, gateway, k) && k !in lost && Holder(b, k).Some?
      ensures Knows(b.trades, Holder(b, k).value, gateway(k).value)
    {
      PurgedHolder(a, b, ticker, k);
      var at := Holder(a, k).value;
      assert Knows(a.trades, at, gateway(k).value);
      if at.ticker == ticker {
        AliveAt(list, at.index, |list|);
      }
    }
  }

  lemma {:induction false} PurgedHolder(a: Run, b: Run, ticker: Ticker, k: nat)
    requires Tracks(a) && a.trace.books[|a.trace.books| - 1] == a.trades && k < |a.sent| && IsStop(a.sent[k])
    requires b == Written(a, b.trades, Purge(ticker))
    ensures Holder(b, k) == if Holder(a, k) == None then None else Moved(a.trades, Purge(ticker), Holder(a, k).value)
  {
    if a.trace.origins[k].Some? {
      var o, m := a.trace.origins[k].value, |a.trace.books| - 1;
      WherePrefix(a.trace.books, a.trace.moves, b.trace.books, b.trace.moves, o.at, o.step, m);
    }
  }

  // ---------------------------------------------------------------- the break-even stop is not known

  /**
   * After a target fill whose break-even stop the exchange accepted, the trade knows no stop: as
   * soon as it is older than some seconds, and exactly then, it is taken for bare, and a tick sends a
   * second stop, at the planned price and for all of the executed size.
   */
  lemma {:induction false} SecondStopIff(t: ActiveTrade, u: OrderUpdate, t': ActiveTrade, requests: seq<Request>, records: seq<ClosedTrade>,
      gateway: Gateway, k: nat, meta: TickerMeta, marks: Marks, cfg: Config, now: int, later: nat)
    requires Handled(t, u, t', requests, records, gateway, k, meta, marks, cfg)
    requires BreakEvenAt(t, u, k).Some? && gateway(BreakEvenAt(t, u, k).value).Some?
    ensures var at := BreakEvenAt(t, u, k).value - k; at < |requests| && IsStop(requests[at]) && t'.stopId == 0
    ensures Place(StopOrder(t')) in ProtectionSent(t', gateway, later, meta) && Bare(t', now) <==>
      t.state == Open && now - t.openedAt > REARM_AFTER
  {
    hide RolesOf, RecordOf, ExitEstimate, SizeClose;
  }

  const HALF_TARGET := OrderUpdate(3, Ticker("A"), Sell, TakeProfit, 102.0, 0.5, 0.5, Done, 10, "")

  const PROTECTED_TRADE := FRESH.(entryId := 1, stopId := 2, tp1Id := 3, state := Open, executedSize := 1.0, avgPrice := 100.0, avgPriceFix := 100.0)

  /** Half of 1.0 goes at the target, the other half gets a stop, and after the fifth second a second stop for all of 1.0 is sent. */
  lemma {:induction false} TwoStops(t': ActiveTrade, requests: seq<Request>, records: seq<ClosedTrade>, gateway: Gateway, k: nat, meta: TickerMeta,
      marks: Marks, cfg: Config, later: nat)
    requires Handled(PROTECTED_TRADE, HALF_TARGET, t', requests, records, gateway, k, meta, marks, cfg) && gateway(k + 1).Some?
    ensures LostByUpdate(PROTECTED_TRADE, HALF_TARGET, gateway, k) >= {k + 1} && |requests| == 2
    ensures requests[1] == Place(Order(Ticker("A"), Sell, 100.0, 0.5, StopLoss, true))
    ensures Bare(t', REARM_AFTER + 1)
    ensures Place(Order(Ticker("A"), Sell, 99.0, 1.0, StopLoss, true)) in ProtectionSent(t', gateway, later, meta)
  {
    hide RecordOf, ExitEstimate, SizeClose, Named;
    var t, u := PROTECTED_TRADE, HALF_TARGET;
    assert BreakEvenAt(t, u, k) == Some(k + 1);
    SecondStopIff(t, u, t', requests, records, gateway, k, meta, marks, cfg, REARM_AFTER + 1, later);
    assert StopOrder(t') == Order(Ticker("A"), Sell, 99.0, 1.0, StopLoss, true);
  }
}
