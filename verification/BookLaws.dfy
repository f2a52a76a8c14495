/** What every run of the order book keeps, and when the fast batch path agrees with the simple one. */
module BookLaws {
  import opened Domain
  import opened BookModel

  // ---------------------------------------------------------------- invariants of a run

  ghost predicate Uncrossed(b: Book) {
    forall i, j :: i in b.bids && j in b.asks ==> i < j
  }

  ghost predicate TopIsExtreme(b: Book) {
    && (b.bestBid == None <==> b.bids == map[])
    && (b.bestBid.Some? ==> IsHighest(b.bestBid.value, b.bids.Keys))
    && (b.bestAsk == None <==> b.asks == map[])
    && (b.bestAsk.Some? ==> IsLowest(b.bestAsk.value, b.asks.Keys))
  }

  /** Between public calls: the cached top is fresh, and no bid reaches an ask. */
  ghost predicate AtRest(b: Book) {
    Uncrossed(b) && TopIsExtreme(b) && !b.dirty
  }

  lemma {:induction false} SettledIsFresh(b: Book)
    requires b.dirty || TopIsExtreme(b)
    ensures TopIsExtreme(Settle(b)) && !Settle(b).dirty
    ensures Settle(b).bids == b.bids && Settle(b).asks == b.asks
  {
  }

  lemma {:induction false} ChangeKeepsUncrossed(b: Book, g: Grid, c: Change)
    requires g.Valid() && Uncrossed(b) && (b.dirty || TopIsExtreme(b))
    ensures Uncrossed(ApplyChange(b, g, c))
    ensures var b' := ApplyChange(b, g, c); b'.dirty || TopIsExtreme(b')
  {
    SettledIsFresh(b);
  }

  lemma {:induction false} FoldKeepsUncrossed(b: Book, g: Grid, cs: seq<Change>, t: nat)
    requires g.Valid() && t <= |cs| && Uncrossed(b) && (b.dirty || TopIsExtreme(b))
    ensures var b' := Fold(b, g, cs, t); Uncrossed(b') && (b'.dirty || TopIsExtreme(b'))
    ensures var b' := FoldUnsided(b, g, cs, t); Uncrossed(b') && (b'.dirty || TopIsExtreme(b'))
    decreases t
  {
    if t > 0 {
      FoldKeepsUncrossed(b, g, cs, t - 1);
      ChangeKeepsUncrossed(Fold(b, g, cs, t - 1), g, cs[t - 1]);
      ChangeKeepsUncrossed(FoldUnsided(b, g, cs, t - 1), g, cs[t - 1]);
    }
  }

  /** A level that was not there before lies within reach of the batch's own orders. */
  lemma {:induction false} WorkWithinReach(m: Levels, g: Grid, cs: seq<Change>, x: Side, t: nat, k: int)
    requires g.Valid() && t <= |cs| && x != NoSide && k in Work(m, g, cs, x, t)
    ensures k in m || (Reach(g, cs, Opposite(x), t).Some? && !Safe(k, Reach(g, cs, Opposite(x), t).value, Opposite(x)))
    decreases t
  {
    if t > 0 && k in Work(m, g, cs, x, t - 1) {
      WorkWithinReach(m, g, cs, x, t - 1, k);
    }
  }

  lemma {:induction false} BatchKeepsUncrossed(b: Book, g: Grid, cs: seq<Change>)
    requires g.Valid() && AtRest(b)
    ensures AtRest(Batch(b, g, cs))
  {
    FoldKeepsUncrossed(b, g, cs, |cs|);
    if |cs| < 64 {
      SettledIsFresh(Fold(b, g, cs, |cs|));
    } else {
      var u := FoldUnsided(b, g, cs, |cs|);
      var bids, asks := BatchSide(u.bids, g, cs, Buy), BatchSide(u.asks, g, cs, Sell);
      forall i, j | i in bids && j in asks ensures i < j {
        WorkWithinReach(u.bids, g, cs, Buy, |cs|, i);
        WorkWithinReach(u.asks, g, cs, Sell, |cs|, j);
      }
      SettledIsFresh(u.(bids := bids, asks := asks, dirty := true));
    }
  }

  lemma {:induction false} SnapshotLevels(g: Grid, levels: seq<Change>, t: nat, k: int)
    requires g.Valid() && t <= |levels|
    ensures k in Snapshot(g, levels, t) <==> exists i :: 0 <= i < t && levels[i].size > 0.0 && g.Tick(levels[i].price) == k
    decreases t
  {
    if t > 0 {
      SnapshotLevels(g, levels, t - 1, k);
    }
  }

  ghost predicate CleanSnapshot(g: Grid, bids: seq<Change>, asks: seq<Change>)
    requires g.Valid()
  {
    forall i, j :: 0 <= i < |bids| && 0 <= j < |asks| && bids[i].size > 0.0 && asks[j].size > 0.0
      ==> g.Tick(bids[i].price) < g.Tick(asks[j].price)
  }

  /** A snapshot replaces everything: the book is uncrossed exactly when the snapshot is. */
  lemma {:induction false} SnapshotUncrossedIff(g: Grid, bids: seq<Change>, asks: seq<Change>)
    requires g.Valid()
    ensures AtRest(ReplaceAll(g, bids, asks)) <==> CleanSnapshot(g, bids, asks)
  {
    var b := ReplaceAll(g, bids, asks);
    if CleanSnapshot(g, bids, asks) {
      forall i, j | i in b.bids && j in b.asks ensures i < j {
        SnapshotLevels(g, bids, |bids|, i);
        SnapshotLevels(g, asks, |asks|, j);
      }
    }
    if Uncrossed(b) {
      forall i, j | 0 <= i < |bids| && 0 <= j < |asks| && bids[i].size > 0.0 && asks[j].size > 0.0
        ensures g.Tick(bids[i].price) < g.Tick(asks[j].price)
      {
        SnapshotLevels(g, bids, |bids|, g.Tick(bids[i].price));
        SnapshotLevels(g, asks, |asks|, g.Tick(asks[j].price));
      }
    }
  }

  datatype Op =
    | SnapshotOp(bids: seq<Change>, asks: seq<Change>)
    | UpdateOp(changes: seq<Change>)
    | BatchOp(changes: seq<Change>)

  ghost function Perform(b: Book, g: Grid, op: Op): Book
    requires g.Valid()
  {
    match op
    case SnapshotOp(bids, asks) => ReplaceAll(g, bids, asks)
    case UpdateOp(changes) => Update(b, g, changes)
    case BatchOp(changes) => Batch(b, g, changes)
  }

  /** The book after the first `t` public calls. */
  ghost function Run(g: Grid, ops: seq<Op>, t: nat): Book
    requires g.Valid() && t <= |ops|
  {
    if t == 0 then EMPTY else Perform(Run(g, ops, t - 1), g, ops[t - 1])
  }

  /**
   * After every public call of every run whose snapshots are uncrossed, the best bid is below
   * the best ask and the cached top is exact, whatever updates and batches arrive in between.
   */
  lemma {:induction false} EveryRunAtRest(g: Grid, ops: seq<Op>, t: nat)
    requires g.Valid() && t <= |ops|
    requires forall i :: 0 <= i < t && ops[i].SnapshotOp? ==> CleanSnapshot(g, ops[i].bids, ops[i].asks)
    ensures AtRest(Run(g, ops, t))
    decreases t
  {
    if t > 0 {
      EveryRunAtRest(g, ops, t - 1);
      var b, op := Run(g, ops, t - 1), ops[t - 1];
      match op
      case SnapshotOp(bids, asks) => SnapshotUncrossedIff(g, bids, asks);
      case UpdateOp(changes) =>
        FoldKeepsUncrossed(b, g, changes, |changes|);
        SettledIsFresh(Fold(b, g, changes, |changes|));
      case BatchOp(changes) => BatchKeepsUncrossed(b, g, changes);
    }
  }

  // ---------------------------------------------------------------- the fast path refines the simple one

  ghost predicate Sided(cs: seq<Change>) {
    forall i :: 0 <= i < |cs| ==> cs[i].side != NoSide
  }

  /** No positive size is lost to rounding. */
  ghost predicate ExactSizes(g: Grid, cs: seq<Change>)
    requires g.Valid()
  {
    forall i :: 0 <= i < |cs| && cs[i].size > 0.0 ==> g.Size(cs[i].size) > 0
  }

  /** Positive sizes that round to nothing, read as the deletions the fast path takes them for. */
  function SweptChange(g: Grid, c: Change): Change
    requires g.Valid()
  {
    if c.size > 0.0 && g.Size(c.size) == 0 then c.(size := 0.0) else c
  }

  function Swept(g: Grid, cs: seq<Change>): (r: seq<Change>)
    requires g.Valid()
    ensures |r| == |cs| && forall i :: 0 <= i < |cs| ==> r[i] == SweptChange(g, cs[i])
  {
    seq(|cs|, i requires 0 <= i < |cs| => SweptChange(g, cs[i]))
  }

  /** Only the changes with a side, or only those without, in order. */
  function Select(cs: seq<Change>, sided: bool, t: nat): seq<Change>
    requires t <= |cs|
  {
    if t == 0 then []
    else if sided == (cs[t - 1].side != NoSide) then Select(cs, sided, t - 1) + [cs[t - 1]]
    else Select(cs, sided, t - 1)
  }

  /** A batch as the fast path reads it: changes without a side first, then the others, without rounded-away sizes. */
  function Reordered(g: Grid, cs: seq<Change>): seq<Change>
    requires g.Valid()
  {
    Select(cs, false, |cs|) + Select(Swept(g, cs), true, |cs|)
  }

  /** One side of the book under the simple path, which does not depend on the other side; changes without a side are passed over. */
  ghost function OneSide(m: Levels, g: Grid, cs: seq<Change>, x: Side, t: nat): Levels
    requires g.Valid() && t <= |cs|
  {
    if t == 0 then m else Touch(OneSide(m, g, cs, x, t - 1), g, cs[t - 1], x)
  }

  lemma {:induction false} FoldBySide(b: Book, g: Grid, cs: seq<Change>, t: nat)
    requires g.Valid() && t <= |cs| && Sided(cs)
    ensures Fold(b, g, cs, t) ==
      b.(bids := OneSide(b.bids, g, cs, Buy, t), asks := OneSide(b.asks, g, cs, Sell, t), dirty := b.dirty || t > 0)
    decreases t
  {
    if t > 0 {
      FoldBySide(b, g, cs, t - 1);
    }
  }

  ghost predicate Puts(g: Grid, c: Change, k: int, x: Side)
    requires g.Valid()
  {
    c.side == x && c.size > 0.0 && g.Tick(c.price) == k
  }

  ghost predicate Clears(g: Grid, c: Change, k: int, x: Side)
    requires g.Valid()
  {
    if c.size > 0.0 then c.side == Opposite(x) && !Safe(k, g.Tick(c.price), x)
    else c.side == x && g.Tick(c.price) == k
  }

  /** No change from position `i` up to `t` removes level `k`. */
  ghost predicate Kept(g: Grid, cs: seq<Change>, k: int, x: Side, i: nat, t: nat)
    requires g.Valid() && t <= |cs|
  {
    forall j :: i <= j < t ==> !Clears(g, cs[j], k, x)
  }

  ghost predicate PutAndKept(g: Grid, cs: seq<Change>, k: int, x: Side, i: nat, t: nat)
    requires g.Valid() && i < t <= |cs|
  {
    Puts(g, cs[i], k, x) && Kept(g, cs, k, x, i + 1, t)
  }

  ghost predicate PutBefore(g: Grid, cs: seq<Change>, k: int, x: Side, t: nat)
    requires g.Valid() && t <= |cs|
  {
    exists i :: 0 <= i < t && PutAndKept(g, cs, k, x, i, t)
  }

  lemma {:induction false} PutBeforeStep(g: Grid, cs: seq<Change>, k: int, x: Side, t: nat)
    requires g.Valid() && t < |cs|
    ensures Kept(g, cs, k, x, 0, t + 1) <==> Kept(g, cs, k, x, 0, t) && !Clears(g, cs[t], k, x)
    ensures PutBefore(g, cs, k, x, t + 1) <==>
      Puts(g, cs[t], k, x) || (PutBefore(g, cs, k, x, t) && !Clears(g, cs[t], k, x))
  {
    hide Puts, Clears;
    var c := cs[t];
    forall i | 0 <= i < t
      ensures PutAndKept(g, cs, k, x, i, t + 1) <==> PutAndKept(g, cs, k, x, i, t) && !Clears(g, c, k, x)
    {
      assert Kept(g, cs, k, x, i + 1, t + 1) <==> Kept(g, cs, k, x, i + 1, t) && !Clears(g, c, k, x);
    }
    assert PutAndKept(g, cs, k, x, t, t + 1) <==> Puts(g, c, k, x);
    if PutBefore(g, cs, k, x, t + 1) {
      var i :| 0 <= i < t + 1 && PutAndKept(g, cs, k, x, i, t + 1);
      assert i < t ==> PutAndKept(g, cs, k, x, i, t);
    }
    if PutBefore(g, cs, k, x, t) && !Clears(g, c, k, x) {
      var i :| 0 <= i < t && PutAndKept(g, cs, k, x, i, t);
      assert PutAndKept(g, cs, k, x, i, t + 1);
    }
  }

  /** A level stands exactly when it was put, or there from the start, and nothing cleared it since. */
  lemma {:induction false} OneSideHolds(m: Levels, g: Grid, cs: seq<Change>, x: Side, t: nat, k: int)
    requires g.Valid() && t <= |cs| && x != NoSide
    ensures k in OneSide(m, g, cs, x, t) <==>
      (k in m && Kept(g, cs, k, x, 0, t)) || PutBefore(g, cs, k, x, t)
    decreases t
  {
    hide Puts, Clears, Touch;
    if t > 0 {
      OneSideHolds(m, g, cs, x, t - 1, k);
      PutBeforeStep(g, cs, k, x, t - 1);
      LastTouch(OneSide(m, g, cs, x, t - 1), g, cs[t - 1], x, k);
      hide Kept, PutBefore;
    }
  }

  lemma {:induction false} LastTouch(m: Levels, g: Grid, c: Change, x: Side, k: int)
    requires g.Valid() && x != NoSide
    ensures k in Touch(m, g, c, x) <==> Puts(g, c, k, x) || (k in m && !Clears(g, c, k, x))
  {
  }

  /** The reach is attained by an order of the other side, and no such order reaches further. */
  lemma {:induction false} ReachIsStrongest(g: Grid, cs: seq<Change>, x: Side, t: nat)
    requires g.Valid() && t <= |cs| && x != NoSide
    ensures var r := Reach(g, cs, x, t);
      && (r.Some? ==> exists i :: 0 <= i < t && cs[i].side == Opposite(x) && g.Size(cs[i].size) > 0 && g.Tick(cs[i].price) == r.value)
      && (forall i :: 0 <= i < t && cs[i].side == Opposite(x) && g.Size(cs[i].size) > 0 ==>
          r.Some? && !Safe(g.Tick(cs[i].price), r.value, x))
    decreases t
  {
    if t > 0 {
      ReachIsStrongest(g, cs, x, t - 1);
    }
  }

  ghost predicate WithinReach(k: int, r: Option<int>, x: Side) {
    r.Some? && !Safe(k, r.value, x)
  }

  /** Sizes rounded away or not, the fast path does the same work and reaches as far. */
  lemma {:induction false} SweptWork(m: Levels, g: Grid, cs: seq<Change>, x: Side, t: nat)
    requires g.Valid() && t <= |cs|
    ensures Work(m, g, Swept(g, cs), x, t) == Work(m, g, cs, x, t) && Reach(g, Swept(g, cs), x, t) == Reach(g, cs, x, t)
    decreases t
  {
    hide Grid.Tick;
    if t > 0 {
      SweptWork(m, g, cs, x, t - 1);
    }
  }

  lemma {:induction false} SweptIsExact(g: Grid, cs: seq<Change>)
    requires g.Valid()
    ensures ExactSizes(g, Swept(g, cs))
    ensures ExactSizes(g, cs) ==> Swept(g, cs) == cs
  {
    SizeNotNegative(g);
    hide Grid.Size;
  }

  lemma {:induction false} SizeNotNegative(g: Grid)
    requires g.Valid()
    ensures forall size :: g.Size(size) >= 0
  {
  }

  /** Levels out of the batch's reach are the same on both paths at every point of the list. */
  lemma {:induction false} WorkAgrees(m: Levels, g: Grid, cs: seq<Change>, x: Side, t: nat, k: int)
    requires g.Valid() && t <= |cs| && ExactSizes(g, cs) && x != NoSide
    requires !WithinReach(k, Reach(g, cs, x, |cs|), x)
    ensures k in Work(m, g, cs, x, t) <==> k in OneSide(m, g, cs, x, t)
    ensures k in Work(m, g, cs, x, t) ==> Work(m, g, cs, x, t)[k] == OneSide(m, g, cs, x, t)[k]
    decreases t
  {
    if t > 0 {
      WorkAgrees(m, g, cs, x, t - 1, k);
      ReachIsStrongest(g, cs, x, |cs|);
    }
  }

  /**
   * For every batch, the fast path gives the levels that applying the changes with a side one by
   * one would, without those the batch's other side reaches; sizes rounded to nothing count as
   * deletions.
   */
  lemma {:induction false} BatchTrimsSequential(m: Levels, g: Grid, cs: seq<Change>, x: Side)
    requires g.Valid() && x != NoSide
    ensures BatchSide(m, g, cs, x) == Trim(OneSide(m, g, Swept(g, cs), x, |cs|), Reach(g, cs, x, |cs|), x)
  {
    SweptWork(m, g, cs, x, |cs|);
    SweptIsExact(g, cs);
    ExactBatchTrims(m, g, Swept(g, cs), x);
    hide Work, Reach, OneSide, Swept;
  }

  lemma {:induction false} ExactBatchTrims(m: Levels, g: Grid, cs: seq<Change>, x: Side)
    requires g.Valid() && ExactSizes(g, cs) && x != NoSide
    ensures BatchSide(m, g, cs, x) == Trim(OneSide(m, g, cs, x, |cs|), Reach(g, cs, x, |cs|), x)
  {
    var r := Reach(g, cs, x, |cs|);
    var fast, slow := BatchSide(m, g, cs, x), Trim(OneSide(m, g, cs, x, |cs|), r, x);
    forall k ensures k in fast <==> k in slow
      ensures k in fast ==> fast[k] == slow[k]
    {
      if !WithinReach(k, r, x) {
        WorkAgrees(m, g, cs, x, |cs|, k);
      }
    }
  }

  /**
   * The batch leaves a crossed level behind on the simple path: some order of side `x` within
   * reach of the other side of the batch is never cleared by a later change.
   */
  ghost predicate Lingers(g: Grid, cs: seq<Change>, x: Side)
    requires g.Valid()
  {
    exists i :: 0 <= i < |cs|
      && WithinReach(g.Tick(cs[i].price), Reach(g, cs, x, |cs|), x)
      && PutAndKept(g, cs, g.Tick(cs[i].price), x, i, |cs|)
  }

  lemma {:induction false} SideAgreesIff(m: Levels, g: Grid, cs: seq<Change>, x: Side)
    requires g.Valid() && x != NoSide
    ensures BatchSide(m, g, cs, x) == OneSide(m, g, Swept(g, cs), x, |cs|) <==> !Lingers(g, Swept(g, cs), x)
  {
    hide Work, Swept;
    SweptWork(m, g, cs, x, |cs|);
    SweptIsExact(g, cs);
    ExactSideAgreesIff(m, g, Swept(g, cs), x);
  }

  lemma {:induction false} ExactSideAgreesIff(m: Levels, g: Grid, cs: seq<Change>, x: Side)
    requires g.Valid() && ExactSizes(g, cs) && x != NoSide
    ensures BatchSide(m, g, cs, x) == OneSide(m, g, cs, x, |cs|) <==> !Lingers(g, cs, x)
  {
    var r := Reach(g, cs, x, |cs|);
    var slow := OneSide(m, g, cs, x, |cs|);
    ExactBatchTrims(m, g, cs, x);
    if Lingers(g, cs, x) {
      var i :| 0 <= i < |cs| && WithinReach(g.Tick(cs[i].price), r, x)
        && PutAndKept(g, cs, g.Tick(cs[i].price), x, i, |cs|);
      var k := g.Tick(cs[i].price);
      OneSideHolds(m, g, cs, x, |cs|, k);
      assert k in slow && k !in Trim(slow, r, x);
    } else {
      forall k | k in slow ensures !WithinReach(k, r, x) {
        ReachedLevelGone(m, g, cs, x, k);
      }
      assert Trim(slow, r, x) == slow;
    }
  }

  lemma {:induction false} ReachedLevelGone(m: Levels, g: Grid, cs: seq<Change>, x: Side, k: int)
    requires g.Valid() && ExactSizes(g, cs) && x != NoSide
    requires !Lingers(g, cs, x) && k in OneSide(m, g, cs, x, |cs|)
    ensures !WithinReach(k, Reach(g, cs, x, |cs|), x)
  {
    var r := Reach(g, cs, x, |cs|);
    ReachIsStrongest(g, cs, x, |cs|);
    OneSideHolds(m, g, cs, x, |cs|, k);
    if PutBefore(g, cs, k, x, |cs|) {
      var i :| 0 <= i < |cs| && PutAndKept(g, cs, k, x, i, |cs|);
      assert g.Tick(cs[i].price) == k;
    } else if r.Some? {
      var j :| 0 <= j < |cs| && cs[j].side == Opposite(x) && g.Size(cs[j].size) > 0 && g.Tick(cs[j].price) == r.value;
      assert !Clears(g, cs[j], k, x);
    }
  }

  lemma {:induction false} FoldOver(b: Book, g: Grid, first: seq<Change>, second: seq<Change>, t: nat)
    requires g.Valid() && t <= |first + second|
    ensures Fold(b, g, first + second, t) == if t <= |first| then Fold(b, g, first, t) else Fold(Fold(b, g, first, |first|), g, second, t - |first|)
    decreases t
  {
    hide ApplyChange;
    if t > 0 {
      FoldOver(b, g, first, second, t - 1);
    }
  }

  lemma {:induction false} OneSideOver(m: Levels, g: Grid, cs: seq<Change>, c: Change, x: Side, t: nat)
    requires g.Valid() && t <= |cs|
    ensures OneSide(m, g, cs + [c], x, t) == OneSide(m, g, cs, x, t)
    decreases t
  {
    hide Touch;
    if t > 0 {
      OneSideOver(m, g, cs, c, x, t - 1);
    }
  }

  /** The changes without a side, taken out of the list, do what they do inside it. */
  lemma {:induction false} UnsidedSelected(b: Book, g: Grid, cs: seq<Change>, t: nat)
    requires g.Valid() && t <= |cs|
    ensures var s := Select(cs, false, t); Fold(b, g, s, |s|) == FoldUnsided(b, g, cs, t)
    decreases t
  {
    hide ApplyChange;
    if t > 0 {
      UnsidedSelected(b, g, cs, t - 1);
      FoldOver(b, g, Select(cs, false, t - 1), [cs[t - 1]], |Select(cs, false, t - 1)| + 1);
    }
  }

  /** The changes with a side, taken out of the list, do what they do inside it. */
  lemma {:induction false} SidedSelected(m: Levels, g: Grid, cs: seq<Change>, x: Side, t: nat)
    requires g.Valid() && t <= |cs| && x != NoSide
    ensures var s := Select(cs, true, t); Sided(s) && OneSide(m, g, s, x, |s|) == OneSide(m, g, cs, x, t)
    decreases t
  {
    if t > 0 {
      SidedSelected(m, g, cs, x, t - 1);
      OneSideOver(m, g, Select(cs, true, t - 1), cs[t - 1], x, |Select(cs, true, t - 1)|);
    }
  }

  /**
   * Every batch long enough for the fast path ends as its changes applied one by one would, those
   * without a side first and sizes rounded to nothing as deletions, exactly when no order lingers
   * within reach of the batch's other side.
   */
  lemma {:induction false} BatchIsReorderedIff(b: Book, g: Grid, cs: seq<Change>)
    requires g.Valid() && |cs| >= 64 && AtRest(b)
    ensures Batch(b, g, cs) == Update(b, g, Reordered(g, cs)) <==> !Lingers(g, Swept(g, cs), Buy) && !Lingers(g, Swept(g, cs), Sell)
  {
    hide Fold, FoldUnsided, Select, BatchSide, Lingers, Swept, Uncrossed, TopIsExtreme;
    var u := FoldUnsided(b, g, cs, |cs|);
    var first, second := Select(cs, false, |cs|), Select(Swept(g, cs), true, |cs|);
    FoldKeepsUncrossed(b, g, cs, |cs|);
    FoldOver(b, g, first, second, |first + second|);
    UnsidedSelected(b, g, cs, |cs|);
    SidedSelected(u.bids, g, Swept(g, cs), Buy, |cs|);
    SidedSelected(u.asks, g, Swept(g, cs), Sell, |cs|);
    FoldBySide(u, g, second, |second|);
    SideAgreesIff(u.bids, g, cs, Buy);
    SideAgreesIff(u.asks, g, cs, Sell);
    SettledAlike(u, OneSide(u.bids, g, second, Buy, |second|), OneSide(u.asks, g, second, Sell, |second|), u.dirty || |second| > 0);
  }

  /** A fresh top need not be marked stale to be settled the same way. */
  lemma {:induction false} SettledAlike(u: Book, bids: Levels, asks: Levels, dirty: bool)
    requires u.dirty || TopIsExtreme(u)
    requires dirty || (!u.dirty && bids == u.bids && asks == u.asks)
    ensures Settle(u.(bids := bids, asks := asks, dirty := dirty)) == Settle(u.(bids := bids, asks := asks, dirty := true))
  {
  }

  // ---------------------------------------------------------------- when a batch of sided changes ends the same on both paths

  ghost predicate Own(g: Grid, c: Change, k: int, x: Side)
    requires g.Valid()
  {
    c.side == x && g.Tick(c.price) == k
  }

  /** The last of the first `t` changes that is for level `k` of side `x`. */
  ghost function LastOwn(g: Grid, cs: seq<Change>, k: int, x: Side, t: nat): (r: Option<nat>)
    requires g.Valid() && t <= |cs|
    ensures r.Some? ==> r.value < t && Own(g, cs[r.value], k, x)
    ensures forall i :: (if r.Some? then r.value + 1 else 0) <= i < t ==> !Own(g, cs[i], k, x)
  {
    if t == 0 then None else if Own(g, cs[t - 1], k, x) then Some(t - 1) else LastOwn(g, cs, k, x, t - 1)
  }

  /**
   * A level ends the same on both paths. The last order for it decides: a deletion always does; an
   * order of positive size has to be cleared by a later change if it rounds to nothing or an order
   * of the other side reaches it, and otherwise nothing may clear it; without any order for it,
   * nothing may clear a level of the book that only orders rounded to nothing reach.
   */
  ghost predicate LevelAgrees(m: Levels, g: Grid, cs: seq<Change>, k: int, x: Side)
    requires g.Valid()
  {
    var reached := WithinReach(k, Reach(g, cs, x, |cs|), x);
    match LastOwn(g, cs, k, x, |cs|)
    case None => k !in m || reached || Kept(g, cs, k, x, 0, |cs|)
    case Some(i) =>
      cs[i].size <= 0.0 || (Kept(g, cs, k, x, i + 1, |cs|) <==> g.Size(cs[i].size) > 0 && !reached)
  }

  function At(m: Levels, k: int): Option<int> {
    if k in m then Some(m[k]) else None
  }

  /** A level on the fast path before trimming: as its last own order left it. */
  lemma {:induction false} WorkAt(m: Levels, g: Grid, cs: seq<Change>, k: int, x: Side, t: nat)
    requires g.Valid() && t <= |cs|
    ensures At(Work(m, g, cs, x, t), k) ==
      match LastOwn(g, cs, k, x, t)
      case None => At(m, k)
      case Some(i) => if g.Size(cs[i].size) > 0 then Some(g.Size(cs[i].size)) else None
    decreases t
  {
    hide Grid.Tick, Grid.Size;
    if t > 0 {
      WorkAt(m, g, cs, k, x, t - 1);
    }
  }

  /** A level on the simple path: as its last own order left it, if nothing cleared it since. */
  lemma {:induction false} OneSideAt(m: Levels, g: Grid, cs: seq<Change>, k: int, x: Side, t: nat)
    requires g.Valid() && t <= |cs| && x != NoSide
    ensures At(OneSide(m, g, cs, x, t), k) ==
      match LastOwn(g, cs, k, x, t)
      case None => if Kept(g, cs, k, x, 0, t) then At(m, k) else None
      case Some(i) => if cs[i].size > 0.0 && Kept(g, cs, k, x, i + 1, t) then Some(g.Size(cs[i].size)) else None
    decreases t
  {
    hide Grid.Tick, Grid.Size, Kept, Own, Clears, Touch;
    if t > 0 {
      OneSideAt(m, g, cs, k, x, t - 1);
      KeptStep(g, cs, k, x, t, 0);
      TouchAt(OneSide(m, g, cs, x, t - 1), g, cs[t - 1], k, x);
      var last := LastOwn(g, cs, k, x, t - 1);
      if last.Some? {
        KeptStep(g, cs, k, x, t, last.value + 1);
      }
    } else {
      NothingClears(g, cs, k, x);
    }
  }

  lemma {:induction false} NothingClears(g: Grid, cs: seq<Change>, k: int, x: Side)
    requires g.Valid()
    ensures Kept(g, cs, k, x, 0, 0)
  {
  }

  lemma {:induction false} KeptStep(g: Grid, cs: seq<Change>, k: int, x: Side, t: nat, i: nat)
    requires g.Valid() && i < t <= |cs|
    ensures Kept(g, cs, k, x, i, t) <==> Kept(g, cs, k, x, i, t - 1) && !Clears(g, cs[t - 1], k, x)
    ensures Kept(g, cs, k, x, t, t)
  {
    hide Clears;
  }

  lemma {:induction false} TouchAt(m: Levels, g: Grid, c: Change, k: int, x: Side)
    requires g.Valid() && x != NoSide
    ensures At(Touch(m, g, c, x), k) ==
      if Own(g, c, k, x) then if c.size > 0.0 then Some(g.Size(c.size)) else None
      else if Clears(g, c, k, x) then None else At(m, k)
  {
    hide Grid.Tick, Grid.Size;
  }

  /** A level that an order of positive rounded size reaches is cleared by that order. */
  lemma {:induction false} ReachedIsCleared(g: Grid, cs: seq<Change>, k: int, x: Side)
    requires g.Valid() && x != NoSide && WithinReach(k, Reach(g, cs, x, |cs|), x)
    ensures !Kept(g, cs, k, x, 0, |cs|)
  {
    ReachIsStrongest(g, cs, x, |cs|);
    var r := Reach(g, cs, x, |cs|);
    var j :| 0 <= j < |cs| && cs[j].side == Opposite(x) && g.Size(cs[j].size) > 0 && g.Tick(cs[j].price) == r.value;
    assert Clears(g, cs[j], k, x);
  }

  lemma {:induction false} LevelAgreesIff(m: Levels, g: Grid, cs: seq<Change>, k: int, x: Side)
    requires g.Valid() && x != NoSide
    ensures At(BatchSide(m, g, cs, x), k) == At(OneSide(m, g, cs, x, |cs|), k) <==> LevelAgrees(m, g, cs, k, x)
  {
    hide Work, OneSide, Reach, Kept, Grid.Tick;
    WorkAt(m, g, cs, k, x, |cs|);
    OneSideAt(m, g, cs, k, x, |cs|);
    if WithinReach(k, Reach(g, cs, x, |cs|), x) {
      ReachedIsCleared(g, cs, k, x);
    }
  }

  lemma {:induction false} SameLevels(a: Levels, b: Levels)
    ensures a == b <==> forall k :: At(a, k) == At(b, k)
  {
    if forall k :: At(a, k) == At(b, k) {
      forall k ensures k in a <==> k in b
        ensures k in a ==> a[k] == b[k]
      {
        assert At(a, k) == At(b, k);
      }
    }
  }

  ghost predicate SideAgrees(m: Levels, g: Grid, cs: seq<Change>, x: Side)
    requires g.Valid()
  {
    forall k :: LevelAgrees(m, g, cs, k, x)
  }

  lemma {:induction false} PathsAgreeIff(m: Levels, g: Grid, cs: seq<Change>, x: Side)
    requires g.Valid() && x != NoSide
    ensures BatchSide(m, g, cs, x) == OneSide(m, g, cs, x, |cs|) <==> SideAgrees(m, g, cs, x)
  {
    hide BatchSide, OneSide, LevelAgrees, At;
    SameLevels(BatchSide(m, g, cs, x), OneSide(m, g, cs, x, |cs|));
    forall k ensures At(BatchSide(m, g, cs, x), k) == At(OneSide(m, g, cs, x, |cs|), k) <==> LevelAgrees(m, g, cs, k, x) {
      LevelAgreesIff(m, g, cs, k, x);
    }
  }

  /**
   * For every batch of changes with a side, whatever their sizes, and every starting book: the fast
   * path agrees with applying the changes one by one as they come exactly when every level does.
   */
  lemma {:induction false} BatchMatchesSequentialIff(b: Book, g: Grid, cs: seq<Change>)
    requires g.Valid() && |cs| >= 64 && Sided(cs)
    ensures Batch(b, g, cs) == Update(b, g, cs) <==> SideAgrees(b.bids, g, cs, Buy) && SideAgrees(b.asks, g, cs, Sell)
  {
    FoldBySide(b, g, cs, |cs|);
    NothingUnsided(b, g, cs, |cs|);
    PathsAgreeIff(b.bids, g, cs, Buy);
    PathsAgreeIff(b.asks, g, cs, Sell);
    hide SideAgrees, BatchSide, OneSide;
  }

  /** Sizes that do not round to nothing leave one condition, and the book no part in it. */
  lemma {:induction false} ExactBatchMatchesIff(b: Book, g: Grid, cs: seq<Change>)
    requires g.Valid() && |cs| >= 64 && Sided(cs) && ExactSizes(g, cs)
    ensures Batch(b, g, cs) == Update(b, g, cs) <==> !Lingers(g, cs, Buy) && !Lingers(g, cs, Sell)
  {
    FoldBySide(b, g, cs, |cs|);
    NothingUnsided(b, g, cs, |cs|);
    ExactSideAgreesIff(b.bids, g, cs, Buy);
    ExactSideAgreesIff(b.asks, g, cs, Sell);
  }

  lemma {:induction false} NothingUnsided(b: Book, g: Grid, cs: seq<Change>, t: nat)
    requires g.Valid() && t <= |cs| && Sided(cs)
    ensures FoldUnsided(b, g, cs, t) == b
    decreases t
  {
    if t > 0 {
      NothingUnsided(b, g, cs, t - 1);
    }
  }

  /** Every positive bid of the batch lies below every positive ask of it. */
  ghost predicate BatchUncrossed(g: Grid, cs: seq<Change>)
    requires g.Valid()
  {
    forall i, j :: 0 <= i < |cs| && 0 <= j < |cs|
      && cs[i].side == Buy && cs[i].size > 0.0 && cs[j].side == Sell && cs[j].size > 0.0
      ==> g.Tick(cs[i].price) < g.Tick(cs[j].price)
  }

  /** In particular a batch that does not cross itself may take either path. */
  lemma {:induction false} UncrossedBatchMatches(b: Book, g: Grid, cs: seq<Change>)
    requires g.Valid() && |cs| >= 64 && Sided(cs) && ExactSizes(g, cs) && BatchUncrossed(g, cs)
    ensures Batch(b, g, cs) == Update(b, g, cs)
  {
    ReachIsStrongest(g, cs, Buy, |cs|);
    ReachIsStrongest(g, cs, Sell, |cs|);
    ExactBatchMatchesIff(b, g, cs);
  }

  /** A bid at 10, an ask at 5, then nothing but deletions of the absent bid 1. */
  ghost function CrossedBatch(): (cs: seq<Change>)
    ensures |cs| == 64 && cs[0] == Change(Buy, 10.0, 1.0) && cs[1] == Change(Sell, 5.0, 1.0)
    ensures forall i :: 2 <= i < 64 ==> cs[i] == Change(Buy, 1.0, 0.0)
  {
    [Change(Buy, 10.0, 1.0), Change(Sell, 5.0, 1.0)] + seq(62, _ => Change(Buy, 1.0, 0.0))
  }

  /** A batch that crosses itself can end differently, whatever the book was before. */
  lemma {:induction false} CrossedBatchDiffers(b: Book)
    ensures Batch(b, Grid(1.0, 1.0), CrossedBatch()) != Update(b, Grid(1.0, 1.0), CrossedBatch())
  {
    var g, cs := Grid(1.0, 1.0), CrossedBatch();
    assert g.Tick(10.0) == 10 && g.Tick(5.0) == 5 && g.Size(1.0) == 1;
    ReachIsStrongest(g, cs, Sell, |cs|);
    assert cs[0].side == Buy && cs[1].side == Sell;
    assert PutAndKept(g, cs, 5, Sell, 1, |cs|);
    ExactBatchMatchesIff(b, g, cs);
  }

  /** The last change that touches its level is a positive size that rounds to nothing. */
  ghost predicate EndsInDust(g: Grid, cs: seq<Change>, i: nat)
    requires g.Valid() && i < |cs|
  {
    && cs[i].side != NoSide && cs[i].size > 0.0 && g.Size(cs[i].size) == 0
    && forall j :: i < j < |cs| ==> !Puts(g, cs[j], g.Tick(cs[i].price), cs[i].side) && !Clears(g, cs[j], g.Tick(cs[i].price), cs[i].side)
  }

  /** Such an order is a level without size on the simple path and no level on the fast one, whatever the book was. */
  lemma {:induction false} DustDiffers(b: Book, g: Grid, cs: seq<Change>, i: nat)
    requires g.Valid() && |cs| >= 64 && Sided(cs) && i < |cs| && EndsInDust(g, cs, i)
    ensures Batch(b, g, cs) != Update(b, g, cs)
  {
    var x, k := cs[i].side, g.Tick(cs[i].price);
    FoldBySide(b, g, cs, |cs|);
    NothingUnsided(b, g, cs, |cs|);
    var m := if x == Buy then b.bids else b.asks;
    OneSideHolds(m, g, cs, x, |cs|, k);
    assert PutAndKept(g, cs, k, x, i, |cs|);
    NotPutAgain(m, g, cs, i, |cs|);
    hide OneSide, Work, Reach, Fold, FoldUnsided, Grid.Tick, Grid.Size;
  }

  lemma {:induction false} NotPutAgain(m: Levels, g: Grid, cs: seq<Change>, i: nat, t: nat)
    requires g.Valid() && i < t <= |cs| && EndsInDust(g, cs, i)
    ensures g.Tick(cs[i].price) !in Work(m, g, cs, cs[i].side, t)
    decreases t
  {
    hide Grid.Tick;
    if t > i + 1 {
      NotPutAgain(m, g, cs, i, t - 1);
      assert !Puts(g, cs[t - 1], g.Tick(cs[i].price), cs[i].side);
    }
  }

  /** A batch of bids too small for one increment. */
  lemma {:induction false} RoundedSizesDiffer(b: Book)
    ensures var cs := seq(64, _ => Change(Buy, 7.0, 0.25)); Batch(b, Grid(1.0, 1.0), cs) != Update(b, Grid(1.0, 1.0), cs)
  {
    var g, cs := Grid(1.0, 1.0), seq(64, _ => Change(Buy, 7.0, 0.25));
    assert g.Size(0.25) == 0;
    DustDiffers(b, g, cs, 63);
  }

  /** A bid at 10 that rounds to nothing, then nothing but deletions of it. */
  ghost function PassingDust(): (cs: seq<Change>)
    ensures |cs| == 64 && cs[0] == Change(Buy, 10.0, 0.25) && forall i :: 1 <= i < 64 ==> cs[i] == Change(Buy, 10.0, 0.0)
  {
    [Change(Buy, 10.0, 0.25)] + seq(63, _ => Change(Buy, 10.0, 0.0))
  }

  /** Deleted or not, it has evicted the asks it crosses on the simple path, and none on the fast one. */
  lemma {:induction false} PassingDustDiffers(b: Book)
    requires 5 in b.asks
    ensures Batch(b, Grid(1.0, 1.0), PassingDust()) != Update(b, Grid(1.0, 1.0), PassingDust())
  {
    var g, cs := Grid(1.0, 1.0), PassingDust();
    assert g.Tick(10.0) == 10 && g.Size(0.25) == 0;
    ReachIsStrongest(g, cs, Sell, |cs|);
    assert Clears(g, cs[0], 5, Sell);
    assert LastOwn(g, cs, 5, Sell, |cs|) == None;
    assert !LevelAgrees(b.asks, g, cs, 5, Sell);
    BatchMatchesSequentialIff(b, g, cs);
  }

  /** An ask at 10, an order without a side at 5, then nothing but deletions of the absent bid 1. */
  ghost function LateBatch(): (cs: seq<Change>)
    ensures |cs| == 64 && cs[0] == Change(Sell, 10.0, 1.0) && cs[1] == Change(NoSide, 5.0, 1.0)
    ensures forall i :: 2 <= i < 64 ==> cs[i] == Change(Buy, 1.0, 0.0)
  {
    [Change(Sell, 10.0, 1.0), Change(NoSide, 5.0, 1.0)] + seq(62, _ => Change(Buy, 1.0, 0.0))
  }

  /** Below the ask that came first the order is a bid; taken first, over an empty book, it has no side and is lost. */
  lemma {:induction false} UnsidedFirstDiffers()
    ensures Batch(EMPTY, Grid(1.0, 1.0), LateBatch()) != Update(EMPTY, Grid(1.0, 1.0), LateBatch())
  {
    LateBidStands(64);
    LateBidLost(64);
  }

  lemma {:induction false} LateBidStands(t: nat)
    requires 2 <= t <= 64
    ensures 5 in Fold(EMPTY, Grid(1.0, 1.0), LateBatch(), t).bids
    decreases t
  {
    var g, cs := Grid(1.0, 1.0), LateBatch();
    assert g.Tick(10.0) == 10 && g.Tick(5.0) == 5 && g.Tick(1.0) == 1 && g.Size(1.0) == 1;
    if t == 2 {
      var b := Fold(EMPTY, g, cs, 1);
      assert Fold(EMPTY, g, cs, 0) == EMPTY && b == ApplySided(EMPTY, g, cs[0]);
      assert b.asks == map[10 := 1] && b.bids == map[] && b.asks.Keys == {10};
      assert 10 in b.asks && Lowest(b.asks.Keys) in b.asks.Keys;
      assert Settle(b).bestBid == None && Settle(b).bestAsk == Some(10);
    } else {
      LateBidStands(t - 1);
    }
  }

  lemma {:induction false} LateBidLost(t: nat)
    requires t <= 64
    ensures FoldUnsided(EMPTY, Grid(1.0, 1.0), LateBatch(), t) == EMPTY && Work(map[], Grid(1.0, 1.0), LateBatch(), Buy, t) == map[]
    decreases t
  {
    if t > 0 {
      LateBidLost(t - 1);
    }
  }
}
