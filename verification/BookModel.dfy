/** The order book on values: two maps from price tick to size, and the cached top of book. */
module BookModel {
  import opened Domain

  datatype Change = Change(side: Side, price: real, size: real)

  /** Price and size increments of one ticker. */
  datatype Grid = Grid(priceIncrement: real, sizeIncrement: real) {

    ghost predicate Valid() {
      priceIncrement > 0.0 && sizeIncrement > 0.0
    }

    function Tick(price: real): int
      requires Valid()
    {
      if price <= 0.0 then 0
      else
        var t := price * (1.0 / priceIncrement);
        if t > 9223372036854775807.0 then 1_000_000_000_000_000 else ClampFix(Round(t))
    }

    function Size(size: real): int
      requires Valid()
    {
      if size <= 0.0 then 0 else ClampFix(Round(size * (1.0 / sizeIncrement)))
    }

    static function ClampFix(n: int): int {
      if n < 0 then 0 else if n > 1_000_000_000_000_000 then 1_000_000_000_000_000 else n
    }

    function Price(tick: int): real {
      tick as real * priceIncrement
    }
  }

  type Levels = map<int, int>

  ghost predicate IsLowest(k: int, s: set<int>) {
    k in s && forall j :: j in s ==> k <= j
  }

  ghost predicate IsHighest(k: int, s: set<int>) {
    k in s && forall j :: j in s ==> j <= k
  }

  lemma {:induction false} LowestExists(s: set<int>) returns (k: int)
    requires s != {}
    ensures IsLowest(k, s)
  {
    assert (exists x :: x in s) || s == {};
    k :| k in s;
    var rest := s - {k};
    if rest != {} {
      var m := LowestExists(rest);
      assert forall j :: j in s ==> j == k || j in rest;
      k := if k <= m then k else m;
    } else {
      assert forall j :: j in s ==> j == k || j in rest;
    }
  }

  lemma {:induction false} HighestExists(s: set<int>) returns (k: int)
    requires s != {}
    ensures IsHighest(k, s)
  {
    assert (exists x :: x in s) || s == {};
    k :| k in s;
    var rest := s - {k};
    if rest != {} {
      var m := HighestExists(rest);
      assert forall j :: j in s ==> j == k || j in rest;
      k := if m <= k then k else m;
    } else {
      assert forall j :: j in s ==> j == k || j in rest;
    }
  }

  function Lowest(s: set<int>): (k: int)
    requires s != {}
    ensures IsLowest(k, s)
  {
    assert exists k :: k in s && forall j :: j in s ==> k <= j by {
      var k := LowestExists(s);
    }
    var k :| k in s && forall j :: j in s ==> k <= j;
    k
  }

  function Highest(s: set<int>): (k: int)
    requires s != {}
    ensures IsHighest(k, s)
  {
    assert exists k :: k in s && forall j :: j in s ==> j <= k by {
      var k := HighestExists(s);
    }
    var k :| k in s && forall j :: j in s ==> j <= k;
    k
  }

  /** A level of side `x` that does not cross an opposing order at `tick`. */
  predicate Safe(k: int, tick: int, x: Side) {
    if x == Buy then k < tick else k > tick
  }

  ghost function Evict(m: Levels, tick: int, x: Side): Levels {
    map k | k in m && Safe(k, tick, x) :: m[k]
  }

  datatype Book = Book(bids: Levels, asks: Levels, bestBid: Option<int>, bestAsk: Option<int>, dirty: bool)

  const EMPTY := Book(map[], map[], None, None, false)

  ghost function Refresh(b: Book): Book {
    b.(bestBid := if b.bids == map[] then None else Some(Highest(b.bids.Keys)),
       bestAsk := if b.asks == map[] then None else Some(Lowest(b.asks.Keys)))
  }

  /** Brings the cached top up to date when it is marked stale. */
  ghost function Settle(b: Book): Book {
    if b.dirty then Refresh(b).(dirty := false) else b
  }

  /** The side of a change that carries none, inferred from the touch. */
  function Infer(g: Grid, bestBid: Option<int>, bestAsk: Option<int>, price: real): Side {
    match (bestBid, bestAsk)
    case (Some(bid), Some(ask)) => if price <= 0.5 * (g.Price(bid) + g.Price(ask)) then Buy else Sell
    case (Some(bid), None) => if price <= g.Price(bid) then Buy else Sell
    case (None, Some(ask)) => if price >= g.Price(ask) then Sell else Buy
    case (None, None) => NoSide
  }

  /** What one change with a side does to the levels of side `x`. */
  ghost function Touch(m: Levels, g: Grid, c: Change, x: Side): Levels
    requires g.Valid()
  {
    if c.side == x then
      if c.size > 0.0 then m[g.Tick(c.price) := g.Size(c.size)] else m - {g.Tick(c.price)}
    else
      if c.size > 0.0 && c.side != NoSide then Evict(m, g.Tick(c.price), x) else m
  }

  ghost function ApplySided(b: Book, g: Grid, c: Change): Book
    requires g.Valid()
  {
    b.(bids := Touch(b.bids, g, c, Buy), asks := Touch(b.asks, g, c, Sell), dirty := true)
  }

  ghost function ApplyChange(b: Book, g: Grid, c: Change): Book
    requires g.Valid()
  {
    if c.side != NoSide then ApplySided(b, g, c)
    else
      var b' := Settle(b);
      var side := Infer(g, b'.bestBid, b'.bestAsk, c.price);
      if side == NoSide then b' else ApplySided(b', g, c.(side := side))
  }

  /** The first `t` changes, one after the other. */
  ghost function Fold(b: Book, g: Grid, cs: seq<Change>, t: nat): Book
    requires g.Valid() && t <= |cs|
  {
    if t == 0 then b else ApplyChange(Fold(b, g, cs, t - 1), g, cs[t - 1])
  }

  ghost function Update(b: Book, g: Grid, cs: seq<Change>): Book
    requires g.Valid()
  {
    Settle(Fold(b, g, cs, |cs|))
  }

  // ---------------------------------------------------------------- the fast path

  /** Only the changes without a side, in order: the fast path applies these first. */
  ghost function FoldUnsided(b: Book, g: Grid, cs: seq<Change>, t: nat): Book
    requires g.Valid() && t <= |cs|
  {
    if t == 0 then b
    else
      var b' := FoldUnsided(b, g, cs, t - 1);
      if cs[t - 1].side == NoSide then ApplyChange(b', g, cs[t - 1]) else b'
  }

  /** Inserts and erases of side `x` among the first `t` changes, without any eviction. */
  ghost function Work(m: Levels, g: Grid, cs: seq<Change>, x: Side, t: nat): Levels
    requires g.Valid() && t <= |cs|
  {
    if t == 0 then m
    else
      var m' := Work(m, g, cs, x, t - 1);
      var c := cs[t - 1];
      if c.side != x then m'
      else if g.Size(c.size) > 0 then m'[g.Tick(c.price) := g.Size(c.size)]
      else m' - {g.Tick(c.price)}
  }

  /** The order of the other side that reaches furthest into side `x`. */
  ghost function Reach(g: Grid, cs: seq<Change>, x: Side, t: nat): Option<int>
    requires g.Valid() && t <= |cs|
  {
    if t == 0 then None
    else
      var r := Reach(g, cs, x, t - 1);
      var c := cs[t - 1];
      if c.side == Opposite(x) && g.Size(c.size) > 0 && (r == None || Safe(g.Tick(c.price), r.value, x))
      then Some(g.Tick(c.price)) else r
  }

  ghost function Trim(m: Levels, reach: Option<int>, x: Side): Levels {
    if reach == None then m else Evict(m, reach.value, x)
  }

  ghost function BatchSide(m: Levels, g: Grid, cs: seq<Change>, x: Side): Levels
    requires g.Valid()
  {
    Trim(Work(m, g, cs, x, |cs|), Reach(g, cs, x, |cs|), x)
  }

  ghost function Batch(b: Book, g: Grid, cs: seq<Change>): Book
    requires g.Valid()
  {
    if |cs| < 64 then Update(b, g, cs)
    else
      var b' := FoldUnsided(b, g, cs, |cs|);
      Settle(b'.(bids := BatchSide(b'.bids, g, cs, Buy), asks := BatchSide(b'.asks, g, cs, Sell), dirty := true))
  }

  // ---------------------------------------------------------------- snapshots

  ghost function Snapshot(g: Grid, levels: seq<Change>, t: nat): Levels
    requires g.Valid() && t <= |levels|
  {
    if t == 0 then map[]
    else
      var m := Snapshot(g, levels, t - 1);
      var l := levels[t - 1];
      if l.size <= 0.0 then m else m[g.Tick(l.price) := g.Size(l.size)]
  }

  ghost function ReplaceAll(g: Grid, bids: seq<Change>, asks: seq<Change>): Book
    requires g.Valid()
  {
    Refresh(Book(Snapshot(g, bids, |bids|), Snapshot(g, asks, |asks|), None, None, false))
  }
}
