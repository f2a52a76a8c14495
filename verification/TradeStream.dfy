/** Recent trades in one ring, with running buy and sell volumes over three time windows. */
module TradeStream {
  import opened Domain

  const MAX_TRADES: nat := 65536

  const SECOND: int := 1_000_000_000

  /** Timestamps in nanoseconds. */
  datatype Trade = Trade(price: real, size: real, side: Side, timestamp: int)

  /** Oldest slot still counted, and the volumes counted. */
  datatype Window = Window(tail: nat, buy: real, sell: real)

  function Slot(i: nat): (x: nat)
    ensures x < MAX_TRADES
  {
    i % MAX_TRADES
  }

  lemma {:induction false} NextSlot(i: nat)
    ensures Slot(Slot(i) + 1) == Slot(i + 1)
  {
  }

  lemma {:induction false} SlotsApart(i: nat, j: nat)
    requires i <= j < i + MAX_TRADES
    ensures Slot(i) == Slot(j) <==> i == j
  {
  }

  lemma {:induction false} SlotTurns(i: nat)
    ensures Slot(i + MAX_TRADES) == Slot(i)
  {
  }

  // ---------------------------------------------------------------- volumes

  function Volume(t: Trade, side: Side): real {
    if t.side == side then t.size else 0.0
  }

  /** The volume of one side among the trades from `a` up to `b`. */
  ghost function Total(log: seq<Trade>, side: Side, a: nat, b: nat): real
    requires b <= |log|
    decreases b
  {
    if b <= a then 0.0 else Total(log, side, a, b - 1) + Volume(log[b - 1], side)
  }

  lemma {:induction false} TotalOfPrefix(log: seq<Trade>, t: Trade, side: Side, a: nat, b: nat)
    requires b <= |log|
    ensures Total(log + [t], side, a, b) == Total(log, side, a, b)
    decreases b
  {
    if a < b {
      TotalOfPrefix(log, t, side, a, b - 1);
    }
  }

  lemma {:induction false} TotalDropsFirst(log: seq<Trade>, side: Side, a: nat, b: nat)
    requires a < b <= |log|
    ensures Total(log, side, a, b) == Volume(log[a], side) + Total(log, side, a + 1, b)
    decreases b
  {
    if a + 1 < b {
      TotalDropsFirst(log, side, a, b - 1);
    }
  }

  /** The volume of one side among all trades no older than the span. */
  ghost function Recent(log: seq<Trade>, side: Side, now: int, span: int, n: nat): real
    requires n <= |log|
  {
    if n == 0 then 0.0
    else Recent(log, side, now, span, n - 1) + if now - log[n - 1].timestamp <= span then Volume(log[n - 1], side) else 0.0
  }

  /** The window's volumes are those of the trades from position `t` of the whole history on. */
  ghost predicate Counts(log: seq<Trade>, w: Window, t: nat) {
    && t <= |log| < t + MAX_TRADES && w.tail == Slot(t)
    && w.buy == Total(log, Buy, t, |log|) && w.sell == Total(log, Sell, t, |log|)
  }

  /** The ring holds the last trades of the history, each in its slot. */
  ghost predicate Ring(log: seq<Trade>, trades: seq<Trade>, head: nat, count: nat) {
    && |trades| == MAX_TRADES && head == Slot(|log|)
    && count == (if |log| < MAX_TRADES then |log| else MAX_TRADES)
    && forall i :: 0 <= i < |log| < i + MAX_TRADES + 1 ==> trades[Slot(i)] == log[i]
  }

  // ---------------------------------------------------------------- one trade, one window

  function Signed(w: Window, t: Trade, sign: real): Window {
    w.(buy := w.buy + sign * Volume(t, Buy), sell := w.sell + sign * Volume(t, Sell))
  }

  /** The window's reaction to an arriving trade; `evicted` is the overwritten trade of a full ring. */
  function Arrive(w: Window, trade: Trade, full: bool, oldHead: nat, evicted: Trade): Window {
    var added := Signed(w, trade, 1.0);
    if full && added.tail == oldHead then Signed(added, evicted, -1.0).(tail := Slot(added.tail + 1)) else added
  }

  /** How many trades a window holds, as the program reads it off the ring. */
  function Held(tail: nat, head: nat): nat
    requires tail < MAX_TRADES && head < MAX_TRADES
  {
    if tail <= head then head - tail else head + MAX_TRADES - tail
  }

  lemma {:induction false} HeldIsDistance(t: nat, n: nat)
    requires t <= n < t + MAX_TRADES
    ensures Held(Slot(t), Slot(n)) == n - t
  {
  }

  /** The window agrees with the ring: its volumes are those of the slots from tail up to head. */
  ghost predicate AgreesWithRing(log: seq<Trade>, w: Window)
    requires w.tail < MAX_TRADES
  {
    var held := Held(w.tail, Slot(|log|));
    held <= |log| && w.buy == Total(log, Buy, |log| - held, |log|) && w.sell == Total(log, Sell, |log| - held, |log|)
  }

  /** Room for one more: not nearly full, and not empty once every slot is in use. */
  ghost predicate Room(log: seq<Trade>, t: nat) {
    |log| - t <= MAX_TRADES - 2 && (|log| >= MAX_TRADES ==> t < |log|)
  }

  lemma {:induction false} ArriveKeepsCounts(log: seq<Trade>, w: Window, t: nat, trade: Trade, evicted: Trade)
    requires Counts(log, w, t) && Room(log, t)
    ensures Counts(log + [trade], Arrive(w, trade, |log| >= MAX_TRADES, Slot(|log|), evicted), t)
  {
    TotalOfPrefix(log, trade, Buy, t, |log|);
    TotalOfPrefix(log, trade, Sell, t, |log|);
    SlotsApart(t, |log|);
    hide Slot;
  }

  lemma {:induction false} CountsAgrees(log: seq<Trade>, w: Window, t: nat)
    requires Counts(log, w, t)
    ensures AgreesWithRing(log, w)
  {
  }

  lemma {:induction false} TotalNonNegative(log: seq<Trade>, side: Side, a: nat, b: nat)
    requires b <= |log| && forall i :: 0 <= i < |log| ==> log[i].size > 0.0
    ensures Total(log, side, a, b) >= 0.0
    ensures a < b && log[b - 1].side == side ==> Total(log, side, a, b) > 0.0
    decreases b
  {
    if a < b {
      TotalNonNegative(log, side, a, b - 1);
    }
  }

  /**
   * With positive sizes on real sides, a window still agrees with the ring after a trade exactly
   * when it had room, or was empty over a full ring and the overwritten trade cancels the new one.
   */
  lemma {:induction false} ArriveAgreesIff(log: seq<Trade>, w: Window, t: nat, trade: Trade, evicted: Trade)
    requires Counts(log, w, t) && trade.size > 0.0 && trade.side != NoSide
    requires forall i :: 0 <= i < |log| ==> log[i].size > 0.0
    requires |log| >= MAX_TRADES ==> evicted == log[|log| - MAX_TRADES]
    ensures AgreesWithRing(log + [trade], Arrive(w, trade, |log| >= MAX_TRADES, Slot(|log|), evicted)) <==>
      Room(log, t) || (t == |log| >= MAX_TRADES && evicted.side == trade.side && evicted.size == trade.size)
  {
    var log', w' := log + [trade], Arrive(w, trade, |log| >= MAX_TRADES, Slot(|log|), evicted);
    if Room(log, t) {
      ArriveKeepsCounts(log, w, t, trade, evicted);
      CountsAgrees(log', w', t);
    } else if t == |log| {
      NextSlot(|log|);
      HeldIsDistance(|log'|, |log'|);
      hide Slot, Held;
    } else {
      NearlyFullBreaks(log, w, t, trade, evicted);
    }
  }

  lemma {:induction false} NearlyFullBreaks(log: seq<Trade>, w: Window, t: nat, trade: Trade, evicted: Trade)
    requires Counts(log, w, t) && trade.size > 0.0 && trade.side != NoSide
    requires forall i :: 0 <= i < |log| ==> log[i].size > 0.0
    requires |log| - t == MAX_TRADES - 1
    ensures !AgreesWithRing(log + [trade], Arrive(w, trade, |log| >= MAX_TRADES, Slot(|log|), evicted))
  {
    var log' := log + [trade];
    SlotsApart(t, |log|);
    SlotTurns(t);
    HeldIsDistance(|log'|, |log'|);
    TotalNonNegative(log, Buy, t, |log|);
    TotalNonNegative(log, Sell, t, |log|);
    hide Slot, Held;
  }

  /** The window without the trades too old at its tail. */
  function Dropped(w: Window, trades: seq<Trade>, head: nat, now: int, span: int): Window
    requires |trades| == MAX_TRADES && w.tail < MAX_TRADES && head < MAX_TRADES
    decreases Held(w.tail, head)
  {
    if w.tail == head || now - trades[w.tail].timestamp <= span then w
    else Dropped(Signed(w, trades[w.tail], -1.0).(tail := Slot(w.tail + 1)), trades, head, now, span)
  }

  // ---------------------------------------------------------------- the stream

  class TradeStream {
    const trades: array<Trade>
    var head: nat
    var count: nat
    var w1: Window
    var w5: Window
    var w30: Window
    /** Every trade so far, and where in it each window starts, while it does not lose count. */
    ghost var log: seq<Trade>
    ghost var f1: Front
    ghost var f5: Front
    ghost var f30: Front
    /** The latest time any update was called with. */
    ghost var clock: Option<int>

    ghost predicate Valid()
      reads this, trades
    {
      && Ring(log, trades[..], head, count)
      && Tracks(log, w1, f1, clock, 1 * SECOND) && Tracks(log, w5, f5, clock, 5 * SECOND) && Tracks(log, w30, f30, clock, 30 * SECOND)
    }

    constructor ()
      ensures Valid() && log == [] && fresh(trades) && f1 == f5 == f30 == Some(0)
    {
      trades := new Trade[MAX_TRADES](_ => Trade(0.0, 0.0, NoSide, 0));
      head, count := 0, 0;
      w1, w5, w30 := Window(0, 0.0, 0.0), Window(0, 0.0, 0.0), Window(0, 0.0, 0.0);
      log, f1, f5, f30, clock := [], Some(0), Some(0), Some(0), None;
    }

    /**
     * Records a trade. A window with room keeps count of the trades it covers; `ArriveAgreesIff`
     * says what happens to a window without room.
     */
    method OnTrade(trade: Trade)
      requires Valid()
      modifies this, trades
      ensures Valid() && log == old(log) + [trade] && clock == old(clock)
      ensures var full, at := |old(log)| >= MAX_TRADES, Slot(|old(log)|); var evicted := old(trades[Slot(|log|)]);
        && w1 == Arrive(old(w1), trade, full, at, evicted)
        && w5 == Arrive(old(w5), trade, full, at, evicted)
        && w30 == Arrive(old(w30), trade, full, at, evicted)
      ensures f1 == IfRoom(old(log), old(f1)) && f5 == IfRoom(old(log), old(f5)) && f30 == IfRoom(old(log), old(f30))
    {
      hide Ring, Slot, Arrive, Tracks, IfRoom;
      RingTurns(log, trades[..], head, count, trade);
      var full := count >= MAX_TRADES;
      var oldHead := head;
      var evicted := trades[head];
      trades[head] := trade;
      w1 := Arrive(w1, trade, full, oldHead, evicted);
      w5 := Arrive(w5, trade, full, oldHead, evicted);
      w30 := Arrive(w30, trade, full, oldHead, evicted);
      head := Slot(head + 1);
      if !full { count := count + 1; }
      ArriveTracks(log, old(w1), f1, clock, 1 * SECOND, trade, evicted);
      ArriveTracks(log, old(w5), f5, clock, 5 * SECOND, trade, evicted);
      ArriveTracks(log, old(w30), f30, clock, 30 * SECOND, trade, evicted);
      f1, f5, f30 := IfRoom(log, f1), IfRoom(log, f5), IfRoom(log, f30);
      log := log + [trade];
    }

    /**
     * Drops what is too old. If timestamps arrived in order and the clock did not go back, the
     * volumes of a window that kept count are then exactly those of the trades aged at most 1, 5
     * and 30 seconds.
     */
    method Update(now: int)
      requires Valid()
      modifies this
      ensures Valid() && log == old(log) && head == old(head)
      ensures head < MAX_TRADES && old(w1).tail < MAX_TRADES && old(w5).tail < MAX_TRADES && old(w30).tail < MAX_TRADES
      ensures w1 == Dropped(old(w1), trades[..], head, now, 1 * SECOND) && (f1.Some? <==> old(f1).Some?)
      ensures w5 == Dropped(old(w5), trades[..], head, now, 5 * SECOND) && (f5.Some? <==> old(f5).Some?)
      ensures w30 == Dropped(old(w30), trades[..], head, now, 30 * SECOND) && (f30.Some? <==> old(f30).Some?)
      ensures InOrder(log) && (old(clock) == None || old(clock).value <= now) ==>
        && (f1.Some? ==> IsRecent(log, w1, now, 1 * SECOND)) && (f5.Some? ==> IsRecent(log, w5, now, 5 * SECOND))
        && (f30.Some? ==> IsRecent(log, w30, now, 30 * SECOND))
    {
      hide Slot, Counts, Expired, Ring, IsRecent, InOrder, Dropped;
      RingFits(log, trades[..], head, count);
      ghost var latest := if clock == None || clock.value <= now then Some(now) else clock;
      f1 := DroppedTracks(log, trades[..], head, count, w1, f1, clock, latest, now, 1 * SECOND);
      f5 := DroppedTracks(log, trades[..], head, count, w5, f5, clock, latest, now, 5 * SECOND);
      f30 := DroppedTracks(log, trades[..], head, count, w30, f30, clock, latest, now, 30 * SECOND);
      w1 := Evict(w1, now, 1 * SECOND);
      w5 := Evict(w5, now, 5 * SECOND);
      w30 := Evict(w30, now, 30 * SECOND);
      clock := latest;
    }

    /** Moves the tail of one window past the trades older than the span. */
    method Evict(w: Window, now: int, span: int) returns (w': Window)
      requires trades.Length == MAX_TRADES && w.tail < MAX_TRADES && head < MAX_TRADES
      ensures w' == Dropped(w, trades[..], head, now, span)
    {
      w' := w;
      while w'.tail != head
        invariant w'.tail < MAX_TRADES && Dropped(w', trades[..], head, now, span) == Dropped(w, trades[..], head, now, span)
        decreases Held(w'.tail, head)
      {
        var oldest := trades[w'.tail];
        if now - oldest.timestamp <= span {
          break;
        }
        w' := Signed(w', oldest, -1.0).(tail := Slot(w'.tail + 1));
      }
    }
  }

  /** Where a window starts in the history, for as long as it keeps count. */
  type Front = Option<nat>

  ghost predicate Tracks(log: seq<Trade>, w: Window, f: Front, clock: Option<int>, span: int) {
    w.tail < MAX_TRADES && (f.Some? ==> Counts(log, w, f.value) && Expired(log, clock, span, f.value))
  }

  ghost function IfRoom(log: seq<Trade>, f: Front): Front {
    if f.Some? && Room(log, f.value) then f else None
  }

  lemma {:induction false} ArriveTracks(log: seq<Trade>, w: Window, f: Front, clock: Option<int>, span: int, trade: Trade, evicted: Trade)
    requires Tracks(log, w, f, clock, span)
    ensures Tracks(log + [trade], Arrive(w, trade, |log| >= MAX_TRADES, Slot(|log|), evicted), IfRoom(log, f), clock, span)
  {
    hide Slot, Counts, Expired, Room;
    if f.Some? && Room(log, f.value) {
      ArriveKeepsCounts(log, w, f.value, trade, evicted);
      ExpiredGrows(log, trade, clock, span, f.value);
    }
  }

  lemma {:induction false} RingFits(log: seq<Trade>, trades: seq<Trade>, head: nat, count: nat)
    requires Ring(log, trades, head, count)
    ensures |trades| == MAX_TRADES && head < MAX_TRADES
  {
  }

  /** The window holds the volumes of the trades no older than the span. */
  ghost predicate IsRecent(log: seq<Trade>, w: Window, now: int, span: int) {
    w.buy == Recent(log, Buy, now, span, |log|) && w.sell == Recent(log, Sell, now, span, |log|)
  }

  /** Dropping old trades keeps count, and leaves exactly the recent ones. */
  lemma {:induction false} DroppedTracks(log: seq<Trade>, trades: seq<Trade>, head: nat, count: nat, w: Window, f: Front,
      clock: Option<int>, latest: Option<int>, now: int, span: int) returns (f': Front)
    requires Ring(log, trades, head, count) && |trades| == MAX_TRADES && head < MAX_TRADES && Tracks(log, w, f, clock, span)
    requires latest == if clock == None || clock.value <= now then Some(now) else clock
    ensures Tracks(log, Dropped(w, trades, head, now, span), f', latest, span) && (f'.Some? <==> f.Some?)
    ensures f.Some? && InOrder(log) && (clock == None || clock.value <= now) ==> IsRecent(log, Dropped(w, trades, head, now, span), now, span)
  {
    hide Slot, Counts, Expired, Ring, IsRecent, InOrder, Dropped;
    DroppedFits(w, trades, head, now, span);
    f' := None;
    if f.Some? {
      ExpiredLater(log, clock, latest, span, f.value);
      var t := DroppedCounts(log, trades, head, count, w, f.value, latest, now, span);
      f' := Some(t);
    }
  }

  lemma {:induction false} DroppedFits(w: Window, trades: seq<Trade>, head: nat, now: int, span: int)
    requires |trades| == MAX_TRADES && w.tail < MAX_TRADES && head < MAX_TRADES
    ensures Dropped(w, trades, head, now, span).tail < MAX_TRADES
    decreases Held(w.tail, head)
  {
    if w.tail != head && now - trades[w.tail].timestamp > span {
      DroppedFits(Signed(w, trades[w.tail], -1.0).(tail := Slot(w.tail + 1)), trades, head, now, span);
    }
  }

  lemma {:induction false} DroppedCounts(log: seq<Trade>, trades: seq<Trade>, head: nat, count: nat, w: Window, t: nat,
      latest: Option<int>, now: int, span: int) returns (t': nat)
    requires Ring(log, trades, head, count) && |trades| == MAX_TRADES && head < MAX_TRADES && w.tail < MAX_TRADES
    requires Counts(log, w, t) && Expired(log, latest, span, t) && latest.Some? && now <= latest.value
    ensures Counts(log, Dropped(w, trades, head, now, span), t') && Expired(log, latest, span, t')
    ensures InOrder(log) && latest.value == now ==> IsRecent(log, Dropped(w, trades, head, now, span), now, span)
    decreases |log| - t
  {
    hide Slot, Total, Volume, Recent, InOrder;
    SlotsApart(t, |log|);
    if w.tail == head || now - trades[w.tail].timestamp <= span {
      t' := t;
      if InOrder(log) && latest.value == now {
        RecentIsTail(log, Buy, now, span, t, |log|);
        RecentIsTail(log, Sell, now, span, t, |log|);
      }
    } else {
      CountsAdvance(log, w, t);
      ExpiredOneMore(log, now, latest, span, t);
      t' := DroppedCounts(log, trades, head, count, Signed(w, trades[w.tail], -1.0).(tail := Slot(w.tail + 1)), t + 1, latest, now, span);
    }
  }

  /** The trades before `t` were too old at the latest update. */
  ghost predicate Expired(log: seq<Trade>, clock: Option<int>, span: int, t: nat) {
    && t <= |log| && (clock == None ==> t == 0)
    && (clock.Some? ==> forall i :: 0 <= i < t ==> clock.value - log[i].timestamp > span)
  }

  ghost predicate InOrder(log: seq<Trade>) {
    forall i, j :: 0 <= i < j < |log| ==> log[i].timestamp <= log[j].timestamp
  }

  lemma {:induction false} ExpiredGrows(log: seq<Trade>, trade: Trade, clock: Option<int>, span: int, t: nat)
    requires Expired(log, clock, span, t)
    ensures Expired(log + [trade], clock, span, t)
  {
  }

  lemma {:induction false} ExpiredLater(log: seq<Trade>, clock: Option<int>, latest: Option<int>, span: int, t: nat)
    requires Expired(log, clock, span, t)
    requires clock == None || (latest.Some? && clock.value <= latest.value)
    ensures Expired(log, latest, span, t)
  {
  }

  lemma {:induction false} ExpiredOneMore(log: seq<Trade>, now: int, latest: Option<int>, span: int, t: nat)
    requires Expired(log, latest, span, t) && t < |log| && now - log[t].timestamp > span
    requires latest.Some? && now <= latest.value
    ensures Expired(log, latest, span, t + 1)
  {
  }

  lemma {:induction false} CountsAdvance(log: seq<Trade>, w: Window, t: nat)
    requires Counts(log, w, t) && t < |log|
    ensures Counts(log, Signed(w, log[t], -1.0).(tail := Slot(w.tail + 1)), t + 1)
  {
    NextSlot(t);
    TotalDropsFirst(log, Buy, t, |log|);
    TotalDropsFirst(log, Sell, t, |log|);
    hide Slot, Total;
  }

  lemma {:induction false} RingTurns(log: seq<Trade>, trades: seq<Trade>, head: nat, count: nat, trade: Trade)
    requires Ring(log, trades, head, count)
    ensures head < |trades| && head == Slot(|log|) && Slot(head + 1) == Slot(|log| + 1)
    ensures |log| >= MAX_TRADES <==> count >= MAX_TRADES
    ensures Ring(log + [trade], trades[head := trade], Slot(head + 1), if count >= MAX_TRADES then count else count + 1)
  {
    NextSlot(|log|);
    var after := trades[head := trade];
    forall i | 0 <= i < |log| + 1 && |log| + 1 < i + MAX_TRADES + 1 ensures after[Slot(i)] == (log + [trade])[i] {
      SlotsApart(i, |log|);
    }
  }

  lemma {:induction false} RecentIsTail(log: seq<Trade>, side: Side, now: int, span: int, t: nat, n: nat)
    requires t <= |log| && n <= |log| && InOrder(log)
    requires forall i :: 0 <= i < t ==> now - log[i].timestamp > span
    requires t < |log| ==> now - log[t].timestamp <= span
    ensures Recent(log, side, now, span, n) == Total(log, side, t, n)
    decreases n
  {
    if n > 0 {
      RecentIsTail(log, side, now, span, t, n - 1);
      if t < n - 1 {
        assert log[t].timestamp <= log[n - 1].timestamp;
      }
    }
  }
}
