/** Which unclear submission an answer settles, and what the last part of a tick makes of trades, records and reservations. */
module LiveReconcile {
  import opened Domain
  import opened LiveHistory
  import opened LiveModel
  import opened Trading

  /** Each of the tickers once. */
  ghost predicate VisitsAll(order: seq<Ticker>, tickers: set<Ticker>) {
    && (forall i, j :: 0 <= i < j < |order| ==> order[i] != order[j])
    && (forall t :: t in tickers <==> t in order)
  }

  ghost predicate Visited(trades: TradeBook, order: seq<Ticker>) {
    forall i :: 0 <= i < |order| ==> order[i] in trades
  }

  // ---------------------------------------------------------------- where an answer lands

  ghost function FirstIn(list: seq<ActiveTrade>, intent: Intent, n: nat): (r: Option<nat>)
    requires n <= |list|
    ensures r.Some? ==> r.value < n
  {
    if n == 0 then None
    else
      var before := FirstIn(list, intent, n - 1);
      if before.Some? then before else if SameIntent(list[n - 1], intent) then Some(n - 1) else None
  }

  lemma {:induction false} FirstInIs(list: seq<ActiveTrade>, intent: Intent, n: nat)
    requires n <= |list|
    ensures var r := FirstIn(list, intent, n);
      && (r.Some? ==> SameIntent(list[r.value], intent))
      && forall i :: 0 <= i < (if r.Some? then r.value else n) ==> !SameIntent(list[i], intent)
    decreases n
  {
    hide SameIntent;
    if n > 0 {
      FirstInIs(list, intent, n - 1);
    }
  }

  /** The first unclear submission of this side and size, along the first `n` tickers. */
  ghost function FirstMatch(book: TradeBook, order: seq<Ticker>, intent: Intent, n: nat): (r: Option<Spot>)
    requires n <= |order|
    ensures r.Some? ==> Holds(book, r.value)
  {
    if n == 0 then None
    else
      var before, t := FirstMatch(book, order, intent, n - 1), order[n - 1];
      if before.Some? || t !in book then before
      else
        var i := FirstIn(book[t], intent, |book[t]|);
        if i.Some? then Some(Spot(t, i.value)) else None
  }

  ghost predicate NoMatchIn(book: TradeBook, ticker: Ticker, intent: Intent) {
    ticker in book ==> forall i :: 0 <= i < |book[ticker]| ==> !SameIntent(book[ticker][i], intent)
  }

  /** An answer settles this submission exactly when it matches and nothing before it does. */
  lemma {:induction false} FirstMatchIff(book: TradeBook, order: seq<Ticker>, intent: Intent, n: nat, j: nat, i: nat)
    requires j < n <= |order| && Holds(book, Spot(order[j], i))
    requires forall a, b :: 0 <= a < b < |order| ==> order[a] != order[b]
    ensures FirstMatch(book, order, intent, n) == Some(Spot(order[j], i)) <==>
      && SameIntent(book[order[j]][i], intent) && (forall k :: 0 <= k < i ==> !SameIntent(book[order[j]][k], intent))
      && forall k :: 0 <= k < j ==> NoMatchIn(book, order[k], intent)
    decreases n
  {
    hide SameIntent, NoMatchIn;
    FirstInIs(book[order[j]], intent, |book[order[j]]|);
    FirstMatchNone(book, order, intent, j);
    if j < n - 1 {
      FirstMatchIff(book, order, intent, n - 1, j, i);
    }
    if FirstMatch(book, order, intent, j).Some? {
      FirstMatchStays(book, order, intent, j, n);
    }
  }

  lemma {:induction false} FirstMatchStays(book: TradeBook, order: seq<Ticker>, intent: Intent, j: nat, n: nat)
    requires j <= n <= |order| && FirstMatch(book, order, intent, j).Some?
    ensures FirstMatch(book, order, intent, n) == FirstMatch(book, order, intent, j)
    ensures exists k :: 0 <= k < j && FirstMatch(book, order, intent, j).value.ticker == order[k]
    decreases n
  {
    if j < n {
      FirstMatchStays(book, order, intent, j, n - 1);
    } else if FirstMatch(book, order, intent, j - 1).Some? {
      FirstMatchStays(book, order, intent, j - 1, j - 1);
    }
  }

  /** Nothing along the earlier tickers, nothing earlier in the list: this is the first. */
  lemma {:induction false} FirstMatchHere(book: TradeBook, order: seq<Ticker>, intent: Intent, j: nat, i: nat)
    requires j < |order| && Holds(book, Spot(order[j], i)) && FirstMatch(book, order, intent, j) == None
    requires FirstIn(book[order[j]], intent, i) == None && SameIntent(book[order[j]][i], intent)
    ensures FirstMatch(book, order, intent, |order|) == Some(Spot(order[j], i))
  {
    hide SameIntent;
    FirstInIs(book[order[j]], intent, i);
    FirstInIs(book[order[j]], intent, |book[order[j]]|);
    FirstMatchStays(book, order, intent, j + 1, |order|);
  }

  lemma {:induction false} FirstMatchNone(book: TradeBook, order: seq<Ticker>, intent: Intent, n: nat)
    requires n <= |order|
    ensures FirstMatch(book, order, intent, n) == None <==> forall k :: 0 <= k < n ==> NoMatchIn(book, order[k], intent)
    decreases n
  {
    hide SameIntent;
    if n > 0 {
      FirstMatchNone(book, order, intent, n - 1);
      if order[n - 1] in book {
        FirstInIs(book[order[n - 1]], intent, |book[order[n - 1]]|);
      }
    }
  }

  /**
   * The submission settled belongs to the answer's own ticker exactly when that ticker has one of
   * this side and size, and no ticker before it does: the answer's ticker itself is not looked at.
   */
  lemma {:induction false} OwnTickerIff(book: TradeBook, order: seq<Ticker>, intent: Intent, j: nat)
    requires VisitsAll(order, book.Keys) && j < |order| && order[j] == intent.ticker
    ensures var at := FirstMatch(book, order, intent, |order|);
      at.Some? && at.value.ticker == intent.ticker <==>
        !NoMatchIn(book, intent.ticker, intent) && forall k :: 0 <= k < j ==> NoMatchIn(book, order[k], intent)
  {
    hide SameIntent, FirstMatch, Holds;
    FirstMatchNone(book, order, intent, j);
    FirstMatchNone(book, order, intent, j + 1);
    if FirstMatch(book, order, intent, j).Some? {
      FirstMatchStays(book, order, intent, j, |order|);
    } else if FirstMatch(book, order, intent, j + 1).Some? {
      FirstMatchStays(book, order, intent, j + 1, |order|);
      LaterMatch(book, order, intent, j, j + 1);
    } else if FirstMatch(book, order, intent, |order|).Some? {
      LaterMatch(book, order, intent, j + 1, |order|);
    }
  }

  /** A match found after place `j` is for a later ticker. */
  lemma {:induction false} LaterMatch(book: TradeBook, order: seq<Ticker>, intent: Intent, j: nat, n: nat)
    requires j <= n <= |order| && FirstMatch(book, order, intent, j) == None && FirstMatch(book, order, intent, n).Some?
    ensures exists k :: j <= k < n && FirstMatch(book, order, intent, n).value.ticker == order[k]
    decreases n
  {
    if FirstMatch(book, order, intent, n - 1).Some? {
      LaterMatch(book, order, intent, j, n - 1);
    }
  }

  const UNCLEAR := ActiveTrade(
    TradePlan(Ticker("A"), Buy, Limit, 100.0, 99.0, 102.0, None, 0.5, 1.0, 0, 120.0, 0.0, 0.0),
    0, 0, "", 0, 0, SubmitUnknown, 0.0, 0.0, 0.0, false, 0)

  /** An answer about B settles the submission of A, of the same side and size, that comes first. */
  lemma {:induction false} AnswerCrosses()
    ensures var book := map[Ticker("A") := [UNCLEAR], Ticker("B") := [UNCLEAR.(plan := UNCLEAR.plan.(ticker := Ticker("B")))]];
      FirstMatch(book, [Ticker("A"), Ticker("B")], Intent(Ticker("B"), Buy, 1.0), 2) == Some(Spot(Ticker("A"), 0))
  {
    var book := map[Ticker("A") := [UNCLEAR], Ticker("B") := [UNCLEAR.(plan := UNCLEAR.plan.(ticker := Ticker("B")))]];
    var order, intent := [Ticker("A"), Ticker("B")], Intent(Ticker("B"), Buy, 1.0);
    assert order[0] != order[1];
    assert SameIntent(book[order[0]][0], intent);
    FirstMatchIff(book, order, intent, 2, 0, 0);
  }

  // ---------------------------------------------------------------- the last part of a tick

  /** What answers change. */
  datatype Desk = Desk(trades: TradeBook, closed: seq<ClosedTrade>, reserved: real)

  ghost function SettledAt(d: Desk, marks: Marks, r: Reconciled, at: Spot): Desk
    requires Holds(d.trades, at)
  {
    var t := TradeAt(d.trades, at);
    Desk(With(d.trades, at.ticker, at.index, Reconcile(t, r)),
         d.closed + (if r.outcome == NotFound then [TimeoutRecord(t, marks)] else []),
         if r.outcome == NotFound then Released(d.reserved, t.plan) else d.reserved)
  }

  /** The spot an answer settles, if any. */
  ghost function LandsAt(book: TradeBook, order: seq<Ticker>, r: Reconciled): (at: Option<Spot>)
    ensures at.Some? ==> Holds(book, at.value)
  {
    if r.outcome == Waiting || r.intent == None then None else FirstMatch(book, order, r.intent.value, |order|)
  }

  ghost function Settled(d: Desk, order: seq<Ticker>, marks: Marks, r: Reconciled): Desk {
    var at := LandsAt(d.trades, order, r);
    if at.Some? then SettledAt(d, marks, r, at.value) else d
  }

  ghost function SettledAll(d: Desk, order: seq<Ticker>, marks: Marks, results: seq<Reconciled>, n: nat): Desk
    requires n <= |results|
  {
    if n == 0 then d else Settled(SettledAll(d, order, marks, results, n - 1), order, marks, results[n - 1])
  }

  ghost function RearmedList(list: seq<ActiveTrade>, gateway: Gateway, k: nat, metas: Metas, now: int): (r: seq<ActiveTrade>)
    ensures ListRearmed(list, r, gateway, k, metas, now)
  {
    seq(|list|, i requires 0 <= i < |list| => RearmedTrade(list, gateway, k, metas, now, i))
  }

  /** After the first `n` tickers: settled where `results` has answers, given the missing stops where not. */
  ghost function Attended(d: Desk, order: seq<Ticker>, results: map<Ticker, seq<Reconciled>>, gateway: Gateway, k: nat, metas: Metas,
      marks: Marks, now: int, n: nat): Desk
    requires n <= |order|
  {
    if n == 0 then d
    else
      var before, t := Attended(d, order, results, gateway, k, metas, marks, now, n - 1), order[n - 1];
      var at := k + |AllRearmRequests(d.trades, order, results.Keys, gateway, k, metas, now, n - 1)|;
      if t in results then SettledAll(before, order, marks, results[t], |results[t]|)
      else if t !in before.trades then before
      else before.(trades := before.trades[t := RearmedList(before.trades[t], gateway, at, metas, now)])
  }

  lemma {:induction false} ListRearmedIs(list: seq<ActiveTrade>, list': seq<ActiveTrade>, gateway: Gateway, k: nat, metas: Metas, now: int)
    requires ListRearmed(list, list', gateway, k, metas, now)
    ensures list' == RearmedList(list, gateway, k, metas, now)
  {
  }

  lemma {:induction false} AttendingStarts(d: Desk, order: seq<Ticker>, results: map<Ticker, seq<Reconciled>>, gateway: Gateway, k: nat,
      metas: Metas, marks: Marks, now: int)
    ensures Attended(d, order, results, gateway, k, metas, marks, now, 0) == d
  {
  }

  lemma {:induction false} SettlingAttends(d: Desk, order: seq<Ticker>, results: map<Ticker, seq<Reconciled>>, gateway: Gateway, k: nat,
      metas: Metas, marks: Marks, now: int, n: nat)
    requires n < |order| && order[n] in results
    ensures var before, answers := Attended(d, order, results, gateway, k, metas, marks, now, n), results[order[n]];
      Attended(d, order, results, gateway, k, metas, marks, now, n + 1) == SettledAll(before, order, marks, answers, |answers|)
  {
  }

  lemma {:induction false} RearmingAttends(d: Desk, order: seq<Ticker>, results: map<Ticker, seq<Reconciled>>, gateway: Gateway, k: nat,
      metas: Metas, marks: Marks, now: int, n: nat, b: TradeBook, c: TradeBook)
    requires n < |order| && order[n] !in results && order[n] in b && order[n] in c && c == b[order[n] := c[order[n]]]
    requires Attended(d, order, results, gateway, k, metas, marks, now, n).trades == b
    requires var at := k + |AllRearmRequests(d.trades, order, results.Keys, gateway, k, metas, now, n)|;
      ListRearmed(b[order[n]], c[order[n]], gateway, at, metas, now)
    ensures Attended(d, order, results, gateway, k, metas, marks, now, n + 1) ==
      Attended(d, order, results, gateway, k, metas, marks, now, n).(trades := c)
  {
    hide ListRearmed, AllRearmRequests, RearmedList;
    ListRearmedIs(b[order[n]], c[order[n]], gateway, k + |AllRearmRequests(d.trades, order, results.Keys, gateway, k, metas, now, n)|, metas, now);
  }

  /** Without unclear submissions, records and reservations stay, and every trade gets just the exits it was short of. */
  lemma {:induction false} QuietlyAttended(d: Desk, order: seq<Ticker>, gateway: Gateway, k: nat, metas: Metas, marks: Marks, now: int, n: nat)
    requires VisitsAll(order, d.trades.Keys) && n <= |order|
    ensures var e := Attended(d, order, map[], gateway, k, metas, marks, now, n);
      e.closed == d.closed && e.reserved == d.reserved && BookRearmed(d.trades, e.trades, order, gateway, k, metas, now, n)
    decreases n
  {
    hide ListRearmed, RearmedList, BookRearmed, AllRearmRequests;
    var none: map<Ticker, seq<Reconciled>> := map[];
    assert none.Keys == {};
    if n == 0 {
      NothingRearmed(d.trades, order, gateway, k, metas, now);
    } else {
      QuietlyAttended(d, order, gateway, k, metas, marks, now, n - 1);
      var b, e := Attended(d, order, map[], gateway, k, metas, marks, now, n - 1), Attended(d, order, map[], gateway, k, metas, marks, now, n);
      SameKeys(d.trades, b.trades, order, gateway, k, metas, now, n - 1);
      assert order[n - 1] in order;
      OneMoreRearmed(d.trades, b.trades, e.trades, order, gateway, k, metas, now, n - 1);
    }
  }

  lemma {:induction false} NothingRearmed(a: TradeBook, order: seq<Ticker>, gateway: Gateway, k: nat, metas: Metas, now: int)
    ensures BookRearmed(a, a, order, gateway, k, metas, now, 0)
  {
  }

  lemma {:induction false} SameKeys(a: TradeBook, b: TradeBook, order: seq<Ticker>, gateway: Gateway, k: nat, metas: Metas, now: int, n: nat)
    requires BookRearmed(a, b, order, gateway, k, metas, now, n)
    ensures b.Keys == a.Keys
  {
  }

  lemma {:induction false} OneMoreRearmed(a: TradeBook, b: TradeBook, c: TradeBook, order: seq<Ticker>, gateway: Gateway, k: nat, metas: Metas,
      now: int, n: nat)
    requires n < |order| && VisitsAll(order, a.Keys) && BookRearmed(a, b, order, gateway, k, metas, now, n)
    requires order[n] in b && order[n] in c && c == b[order[n] := c[order[n]]]
    requires ListRearmed(b[order[n]], c[order[n]], gateway, k + |AllRearmRequests(a, order, {}, gateway, k, metas, now, n)|, metas, now)
    ensures BookRearmed(a, c, order, gateway, k, metas, now, n + 1)
  {
    hide ListRearmed, AllRearmRequests;
  }
}
