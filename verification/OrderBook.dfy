/** The order book as the program keeps it, updated in place. */
module OrderBook {
  import opened Domain
  import opened BookModel

  class OrderBook {
    const grid: Grid
    var bids: Levels
    var asks: Levels
    var bestBidTick: Option<int>
    var bestAskTick: Option<int>
    var topDirty: bool
    var synced: bool
    var updateCount: int

    ghost predicate Valid()
      reads this
    {
      grid.Valid()
    }

    ghost function View(): Book
      reads this
    {
      Book(bids, asks, bestBidTick, bestAskTick, topDirty)
    }

    constructor (grid: Grid)
      requires grid.Valid()
      ensures Valid() && this.grid == grid && View() == EMPTY && !synced && updateCount == 0
    {
      this.grid := grid;
      bids, asks := map[], map[];
      bestBidTick, bestAskTick := None, None;
      topDirty, synced := false, false;
      updateCount := 0;
    }

    /** Construction fails on increments that are not positive. */
    static method Create(priceIncrement: real, sizeIncrement: real) returns (book: Option<OrderBook>)
      ensures book.Some? <==> priceIncrement > 0.0 && sizeIncrement > 0.0
      ensures book.Some? ==> book.value.Valid() && book.value.View() == EMPTY
    {
      if priceIncrement <= 0.0 || sizeIncrement <= 0.0 {
        return None;
      }
      var b := new OrderBook(Grid(priceIncrement, sizeIncrement));
      return Some(b);
    }

    method RefreshTopOfBook()
      modifies this`bestBidTick, this`bestAskTick
      ensures View() == Refresh(old(View()))
    {
      bestBidTick := if bids == map[] then None else Some(Highest(bids.Keys));
      bestAskTick := if asks == map[] then None else Some(Lowest(asks.Keys));
    }

    /** Erases ask levels from the front while they are at or below `tick`. */
    method EraseCrossedAsks(tick: int)
      modifies this`asks
      ensures asks == Evict(old(asks), tick, Sell)
    {
      while asks != map[] && Lowest(asks.Keys) <= tick
        invariant asks.Keys <= old(asks).Keys
        invariant forall k :: k in asks ==> asks[k] == old(asks)[k]
        invariant forall k :: k in old(asks) && k !in asks ==> k <= tick
        decreases |asks|
      {
        var first := Lowest(asks.Keys);
        FewerLevels(asks, first);
        asks := asks - {first};
      }
      assert forall k :: k in asks ==> k > tick;
    }

    /** Erases bid levels from the front while they are at or above `tick`. */
    method EraseCrossedBids(tick: int)
      modifies this`bids
      ensures bids == Evict(old(bids), tick, Buy)
    {
      while bids != map[] && Highest(bids.Keys) >= tick
        invariant bids.Keys <= old(bids).Keys
        invariant forall k :: k in bids ==> bids[k] == old(bids)[k]
        invariant forall k :: k in old(bids) && k !in bids ==> k >= tick
        decreases |bids|
      {
        var first := Highest(bids.Keys);
        FewerLevels(bids, first);
        bids := bids - {first};
      }
      assert forall k :: k in bids ==> k < tick;
    }

    method ApplyOne(c: Change)
      requires Valid()
      modifies this`bids, this`asks, this`bestBidTick, this`bestAskTick, this`topDirty
      ensures View() == ApplyChange(old(View()), grid, c)
    {
      var side := c.side;
      if side == NoSide {
        if topDirty {
          RefreshTopOfBook();
          topDirty := false;
        }
        side := Infer(grid, bestBidTick, bestAskTick, c.price);
        if side == NoSide {
          return;
        }
      }
      var tick, size := grid.Tick(c.price), grid.Size(c.size);
      if c.size > 0.0 {
        if side == Buy {
          bids := bids[tick := size];
          EraseCrossedAsks(tick);
        } else {
          asks := asks[tick := size];
          EraseCrossedBids(tick);
        }
      } else {
        if side == Buy { bids := bids - {tick}; } else { asks := asks - {tick}; }
      }
      topDirty := true;
    }

    method ApplyEach(changes: seq<Change>)
      requires Valid()
      modifies this`bids, this`asks, this`bestBidTick, this`bestAskTick, this`topDirty
      ensures View() == Fold(old(View()), grid, changes, |changes|)
    {
      for i := 0 to |changes|
        invariant View() == Fold(old(View()), grid, changes, i)
      {
        ApplyOne(changes[i]);
      }
    }

    method Finish()
      modifies this`bestBidTick, this`bestAskTick, this`topDirty, this`updateCount
      ensures View() == Settle(old(View())) && updateCount == old(updateCount) + 1
    {
      if topDirty {
        RefreshTopOfBook();
        topDirty := false;
      }
      updateCount := updateCount + 1;
    }

    method ApplySnapshot(snapBids: seq<Change>, snapAsks: seq<Change>)
      requires Valid()
      modifies this
      ensures Valid() && View() == ReplaceAll(grid, snapBids, snapAsks)
      ensures synced && updateCount == old(updateCount) + 1
    {
      bids, asks := map[], map[];
      for i := 0 to |snapBids|
        invariant bids == Snapshot(grid, snapBids, i) && asks == map[]
        invariant updateCount == old(updateCount)
      {
        var l := snapBids[i];
        if l.size > 0.0 { bids := bids[grid.Tick(l.price) := grid.Size(l.size)]; }
      }
      for i := 0 to |snapAsks|
        invariant asks == Snapshot(grid, snapAsks, i) && bids == Snapshot(grid, snapBids, |snapBids|)
        invariant updateCount == old(updateCount)
      {
        var l := snapAsks[i];
        if l.size > 0.0 { asks := asks[grid.Tick(l.price) := grid.Size(l.size)]; }
      }
      RefreshTopOfBook();
      topDirty, synced := false, true;
      updateCount := updateCount + 1;
    }

    method ApplyUpdate(changes: seq<Change>)
      requires Valid()
      modifies this
      ensures Valid() && View() == Update(old(View()), grid, changes)
      ensures synced && updateCount == old(updateCount) + 1
    {
      synced := true;
      ApplyEach(changes);
      Finish();
    }

    method ApplyUpdateBatch(changes: seq<Change>)
      requires Valid()
      modifies this
      ensures Valid() && View() == Batch(old(View()), grid, changes)
      ensures synced && updateCount == old(updateCount) + 1
    {
      synced := true;
      if |changes| >= 64 {
        ApplyUnsided(changes);
        UpdateMaps(changes);
        var maxNewBid, minNewAsk := Extremes(changes);
        if maxNewBid.Some? { EraseCrossedAsks(maxNewBid.value); }
        if minNewAsk.Some? { EraseCrossedBids(minNewAsk.value); }
      } else {
        ApplyEach(changes);
      }
      Finish();
    }

    method ApplyUnsided(changes: seq<Change>)
      requires Valid()
      modifies this`bids, this`asks, this`bestBidTick, this`bestAskTick, this`topDirty
      ensures View() == FoldUnsided(old(View()), grid, changes, |changes|)
    {
      for i := 0 to |changes|
        invariant View() == FoldUnsided(old(View()), grid, changes, i)
      {
        if changes[i].side == NoSide { ApplyOne(changes[i]); }
      }
    }

    /** The collected inserts and erases of each side, applied to its own map. */
    method UpdateMaps(changes: seq<Change>)
      requires Valid()
      modifies this`bids, this`asks, this`topDirty
      ensures bids == Work(old(bids), grid, changes, Buy, |changes|)
      ensures asks == Work(old(asks), grid, changes, Sell, |changes|)
      ensures topDirty
    {
      topDirty := true;
      for i := 0 to |changes|
        invariant bids == Work(old(bids), grid, changes, Buy, i)
        invariant asks == Work(old(asks), grid, changes, Sell, i)
        invariant topDirty
      {
        var c := changes[i];
        var tick, size := grid.Tick(c.price), grid.Size(c.size);
        if c.side == Buy {
          bids := if size > 0 then bids[tick := size] else bids - {tick};
        } else if c.side == Sell {
          asks := if size > 0 then asks[tick := size] else asks - {tick};
        }
      }
    }

    /** The highest new bid and the lowest new ask of positive size. */
    method Extremes(changes: seq<Change>) returns (maxNewBid: Option<int>, minNewAsk: Option<int>)
      requires Valid()
      ensures maxNewBid == Reach(grid, changes, Sell, |changes|)
      ensures minNewAsk == Reach(grid, changes, Buy, |changes|)
    {
      maxNewBid, minNewAsk := None, None;
      for i := 0 to |changes|
        invariant maxNewBid == Reach(grid, changes, Sell, i)
        invariant minNewAsk == Reach(grid, changes, Buy, i)
      {
        var c := changes[i];
        var tick := grid.Tick(c.price);
        if grid.Size(c.size) > 0 {
          if c.side == Buy && (maxNewBid == None || tick > maxNewBid.value) { maxNewBid := Some(tick); }
          if c.side == Sell && (minNewAsk == None || tick < minNewAsk.value) { minNewAsk := Some(tick); }
        }
      }
    }
  }

  lemma {:induction false} FewerLevels(m: Levels, k: int)
    requires k in m
    ensures |m - {k}| < |m|
  {
  }
}
