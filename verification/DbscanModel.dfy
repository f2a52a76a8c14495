/** What one-dimensional DBSCAN computes: cores, chains of cores, and the labelling they determine. */
module DbscanModel {
  import opened Ordering

  /** One clustering problem: the sorted points and the two parameters. */
  datatype Scene = Scene(p: seq<real>, eps: real, minPts: nat) {

    ghost predicate Near(i: int, j: int)
      requires 0 <= i < |p| && 0 <= j < |p|
    {
      -eps <= p[j] - p[i] <= eps
    }

    ghost function Neighbours(i: int): set<int>
      requires 0 <= i < |p|
    {
      set j | 0 <= j < |p| && Near(i, j)
    }

    ghost predicate Core(i: int) {
      0 <= i < |p| && |Neighbours(i)| >= minPts
    }

    ghost predicate Step(path: seq<int>, k: int)
      requires 1 <= k < |path|
    {
      Core(path[k - 1]) && Core(path[k]) && Near(path[k - 1], path[k])
    }

    /** A chain of cores, each within eps of the next. */
    ghost predicate Chain(path: seq<int>) {
      && path != []
      && (forall k :: 0 <= k < |path| ==> Core(path[k]))
      && (forall k :: 1 <= k < |path| ==> Step(path, k))
    }

    ghost predicate Connected(i: int, j: int) {
      exists path :: Chain(path) && path[0] == i && path[|path| - 1] == j
    }

    /** `j` is the seed `i` itself or lies within eps of a core joined to `i`. */
    ghost predicate Backed(i: int, j: int)
      requires 0 <= j < |p|
    {
      i == j || exists k :: Core(k) && Connected(i, k) && Near(k, j)
    }
  }

  // ---------------------------------------------------------------- chains of cores

  lemma {:induction false} ChainReverse(s: Scene, i: int, j: int)
    requires s.Connected(i, j)
    ensures s.Connected(j, i)
  {
    var path :| s.Chain(path) && path[0] == i && path[|path| - 1] == j;
    var back := seq(|path|, k requires 0 <= k < |path| => path[|path| - 1 - k]);
    forall k | 1 <= k < |back| ensures s.Step(back, k) {
      assert s.Step(path, |path| - k);
    }
    assert s.Chain(back);
  }

  lemma {:induction false} ChainJoin(s: Scene, i: int, j: int, k: int)
    requires s.Connected(i, j) && s.Connected(j, k)
    ensures s.Connected(i, k)
  {
    var a :| s.Chain(a) && a[0] == i && a[|a| - 1] == j;
    var b :| s.Chain(b) && b[0] == j && b[|b| - 1] == k;
    var path := a + b[1..];
    forall m | 1 <= m < |path| ensures s.Step(path, m) {
      if m < |a| {
        assert s.Step(a, m);
      } else {
        assert s.Step(b, m - |a| + 1);
        assert path[m - 1] == b[m - |a|];
      }
    }
    assert s.Chain(path);
  }

  lemma {:induction false} ChainStep(s: Scene, i: int, j: int)
    requires s.Core(i) && s.Core(j) && (i == j || s.Near(i, j))
    ensures s.Connected(i, j)
  {
    if i == j {
      assert s.Chain([i]);
    } else {
      assert s.Step([i, j], 1);
      assert s.Chain([i, j]);
    }
  }

  lemma {:induction false} BackedCore(s: Scene, i: int, j: int)
    requires s.Core(i) && s.Core(j) && s.Backed(i, j)
    ensures s.Connected(i, j)
  {
    if i == j {
      ChainStep(s, i, i);
    } else {
      var k :| s.Core(k) && s.Connected(i, k) && s.Near(k, j);
      ChainStep(s, k, j);
      ChainJoin(s, i, k, j);
    }
  }

  lemma {:induction false} ChainTail(s: Scene, path: seq<int>)
    requires s.Chain(path) && |path| > 1
    ensures s.Chain(path[1..])
  {
    var tail := path[1..];
    forall m | 1 <= m < |tail| ensures s.Step(tail, m) {
      assert s.Step(path, m + 1);
    }
  }

  lemma {:induction false} ChainPrefix(s: Scene, path: seq<int>, n: nat)
    requires s.Chain(path) && 0 < n <= |path|
    ensures s.Chain(path[..n])
  {
    var front := path[..n];
    forall m | 1 <= m < |front| ensures s.Step(front, m) {
      assert s.Step(path, m);
    }
  }

  /** A chain that passes a value on both sides has a core within eps below that value. */
  lemma {:induction false} ChainCrosses(s: Scene, path: seq<int>, v: real) returns (k: nat)
    requires s.Chain(path) && |path| >= 2
    requires s.p[path[0]] <= v <= s.p[path[|path| - 1]]
    ensures k < |path| && 0.0 <= v - s.p[path[k]] <= s.eps
    decreases |path|
  {
    assert s.Step(path, 1);
    if v <= s.p[path[1]] {
      k := 0;
    } else {
      ChainTail(s, path);
      k := ChainCrosses(s, path[1..], v);
      k := k + 1;
    }
  }

  /** Between two connected cores, every value lies within eps above a core joined to them. */
  lemma {:induction false} CoreBelow(s: Scene, i: int, j: int, v: real) returns (k: int)
    requires s.Connected(i, j) && i != j && s.Core(i) && s.Core(j)
    requires s.p[i] <= v <= s.p[j]
    ensures s.Core(k) && s.Connected(i, k) && 0.0 <= v - s.p[k] <= s.eps
  {
    var path :| s.Chain(path) && path[0] == i && path[|path| - 1] == j;
    var m := ChainCrosses(s, path, v);
    ChainPrefix(s, path, m + 1);
    k := path[m];
  }

  // ---------------------------------------------------------------- labellings

  ghost predicate Cover(s: Scene, ids: seq<int>, t: nat)
    requires |ids| == |s.p|
  {
    forall j :: 0 <= j < t && s.Core(j) ==> ids[j] >= 0
  }

  /** A labelled core's neighbours are labelled, with its own or an earlier cluster. */
  ghost predicate Closed(s: Scene, ids: seq<int>)
    requires |ids| == |s.p|
  {
    forall j, m :: s.Core(j) && ids[j] >= 0 && 0 <= m < |ids| && s.Near(j, m) ==> 0 <= ids[m] <= ids[j]
  }

  /** Every label is reached from its seed, which is the first core of its cluster. */
  ghost predicate Rooted(s: Scene, ids: seq<int>, seeds: seq<int>)
    requires |ids| == |s.p|
  {
    forall j :: 0 <= j < |ids| && ids[j] != -1 ==>
      && 0 <= ids[j] < |seeds| && s.Backed(seeds[ids[j]], j)
      && (s.Core(j) ==> seeds[ids[j]] <= j)
  }

  ghost predicate SeedsInOrder(s: Scene, ids: seq<int>, seeds: seq<int>, t: nat)
    requires |ids| == |s.p|
  {
    && (forall c :: 0 <= c < |seeds| ==> s.Core(seeds[c]) && seeds[c] < t && ids[seeds[c]] == c)
    && (forall c, d :: 0 <= c < d < |seeds| ==> seeds[c] < seeds[d])
  }

  /** What the outer loop keeps once the points below `t` have been visited. */
  ghost predicate Partial(s: Scene, ids: seq<int>, seeds: seq<int>, t: nat) {
    && |ids| == |s.p|
    && Cover(s, ids, t) && Closed(s, ids) && Rooted(s, ids, seeds) && SeedsInOrder(s, ids, seeds, t)
  }

  ghost predicate Labelling(s: Scene, ids: seq<int>, seeds: seq<int>) {
    Sorted(s.p) && Partial(s, ids, seeds, |s.p|)
  }

  /** What one queue expansion from the unlabelled core `i` does to the labels. */
  ghost predicate Grown(s: Scene, before: seq<int>, after: seq<int>, c: int, i: int) {
    && |before| == |after| == |s.p|
    && 0 <= i < |s.p| && after[i] == c
    && (forall j :: 0 <= j < |after| ==> after[j] == before[j] || (before[j] == -1 && after[j] == c))
    && (forall j :: 0 <= j < |after| && after[j] == c ==> s.Backed(i, j))
    && (forall j, m :: s.Core(j) && after[j] == c && 0 <= m < |after| && s.Near(j, m) ==> after[m] != -1)
  }

  lemma {:induction false} GrownClosed(s: Scene, before: seq<int>, after: seq<int>, c: int, i: int)
    requires |before| == |s.p| && Closed(s, before) && Grown(s, before, after, c, i)
    requires forall j :: 0 <= j < |before| ==> -1 <= before[j] < c
    ensures Closed(s, after)
  {
  }

  lemma {:induction false} GrownRooted(s: Scene, before: seq<int>, after: seq<int>, seeds: seq<int>, i: int)
    requires 0 <= i < |s.p| == |before| && Cover(s, before, i) && Rooted(s, before, seeds)
    requires Grown(s, before, after, |seeds|, i)
    ensures Rooted(s, after, seeds + [i])
  {
  }

  lemma {:induction false} RootedLabels(s: Scene, ids: seq<int>, seeds: seq<int>)
    requires |ids| == |s.p| && Rooted(s, ids, seeds)
    ensures forall j :: 0 <= j < |ids| ==> -1 <= ids[j] < |seeds|
  {
  }

  lemma {:induction false} GrownCovers(s: Scene, before: seq<int>, after: seq<int>, c: nat, i: int)
    requires 0 <= i < |s.p| == |before| && Cover(s, before, i) && Grown(s, before, after, c, i)
    ensures |after| == |before| && Cover(s, after, i + 1)
  {
  }

  lemma {:induction false} GrownSeeds(s: Scene, before: seq<int>, after: seq<int>, seeds: seq<int>, i: int)
    requires 0 <= i < |s.p| == |before| && s.Core(i) && SeedsInOrder(s, before, seeds, i)
    requires Grown(s, before, after, |seeds|, i)
    ensures |after| == |before| && SeedsInOrder(s, after, seeds + [i], i + 1)
  {
    hide Scene.Neighbours;
  }

  lemma {:induction false} GrownKeepsPartial(s: Scene, before: seq<int>, after: seq<int>, seeds: seq<int>, i: int)
    requires 0 <= i < |s.p| && Partial(s, before, seeds, i)
    requires s.Core(i) && before[i] == -1
    requires Grown(s, before, after, |seeds|, i)
    ensures Partial(s, after, seeds + [i], i + 1)
  {
    hide Scene.Backed, Scene.Core, Scene.Near, Cover, Closed, Rooted, SeedsInOrder, Grown;
    RootedLabels(s, before, seeds);
    GrownClosed(s, before, after, |seeds|, i);
    GrownRooted(s, before, after, seeds, i);
    GrownCovers(s, before, after, |seeds|, i);
    GrownSeeds(s, before, after, seeds, i);
  }

  /** Cores joined by a chain carry one label. */
  lemma {:induction false} ChainSameLabel(s: Scene, ids: seq<int>, path: seq<int>)
    requires |ids| == |s.p| && Cover(s, ids, |s.p|) && Closed(s, ids) && s.Chain(path)
    ensures s.Core(path[0]) && s.Core(path[|path| - 1])
    ensures ids[path[0]] == ids[path[|path| - 1]]
    decreases |path|
  {
    if |path| > 1 {
      ChainPrefix(s, path, |path| - 1);
      ChainSameLabel(s, ids, path[..|path| - 1]);
      assert s.Step(path, |path| - 1);
      var u, w := path[|path| - 2], path[|path| - 1];
      assert s.Near(u, w) && s.Near(w, u);
    }
  }

  lemma {:induction false} ConnectedSameLabel(s: Scene, ids: seq<int>, i: int, j: int)
    requires |ids| == |s.p| && Cover(s, ids, |s.p|) && Closed(s, ids) && s.Connected(i, j)
    ensures s.Core(i) && s.Core(j) && ids[i] == ids[j]
  {
    var path :| s.Chain(path) && path[0] == i && path[|path| - 1] == j;
    ChainSameLabel(s, ids, path);
  }

  /** Two cores share a cluster exactly when a chain of cores joins them. */
  lemma {:induction false} CoresShareClusterIffConnected(s: Scene, ids: seq<int>, seeds: seq<int>, i: int, j: int)
    requires Labelling(s, ids, seeds) && s.Core(i) && s.Core(j)
    ensures ids[i] == ids[j] <==> s.Connected(i, j)
  {
    if ids[i] == ids[j] {
      var seed := seeds[ids[i]];
      BackedCore(s, seed, i);
      BackedCore(s, seed, j);
      ChainReverse(s, seed, i);
      ChainJoin(s, i, seed, j);
    } else if s.Connected(i, j) {
      ConnectedSameLabel(s, ids, i, j);
    }
  }

  /** Every labelled point is a core or lies within eps of a core of its own cluster. */
  lemma {:induction false} LabelledBesideOwnCore(s: Scene, ids: seq<int>, seeds: seq<int>, j: int) returns (k: int)
    requires Labelling(s, ids, seeds) && 0 <= j < |ids| && ids[j] != -1
    ensures s.Core(k) && ids[k] == ids[j] && (k == j || s.Near(k, j))
  {
    var seed := seeds[ids[j]];
    if seed == j {
      k := j;
    } else {
      k :| s.Core(k) && s.Connected(seed, k) && s.Near(k, j);
      ConnectedSameLabel(s, ids, seed, k);
    }
  }

  /** A point is noise exactly when it is no core and no core lies within eps of it. */
  lemma {:induction false} NoiseIffNoCoreNear(s: Scene, ids: seq<int>, seeds: seq<int>, j: int)
    requires Labelling(s, ids, seeds) && 0 <= j < |ids|
    ensures ids[j] == -1 <==> !s.Core(j) && !(exists k :: s.Core(k) && s.Near(k, j))
  {
  }

  /** Cores of an earlier cluster all lie before cores of a later one. */
  lemma {:induction false} CoresInClusterOrder(s: Scene, ids: seq<int>, seeds: seq<int>, i: int, j: int)
    requires Labelling(s, ids, seeds) && s.Core(i) && s.Core(j) && i < j
    ensures ids[i] <= ids[j]
  {
    if ids[j] < ids[i] {
      var a, b := seeds[ids[i]], seeds[ids[j]];
      BackedCore(s, b, j);
      var k := CoreBelow(s, b, j, s.p[a]);
      ConnectedSameLabel(s, ids, b, k);
      assert s.Near(k, a);
    }
  }

  /** The step of LabelsInOrder, from the cores `a` and `b` beside the two points. */
  lemma {:induction false} PointsInClusterOrder(s: Scene, ids: seq<int>, i: int, a: int, j: int, b: int)
    requires Sorted(s.p) && |ids| == |s.p| && Closed(s, ids)
    requires 0 <= i < j < |ids| && ids[i] != -1 && ids[j] != -1
    requires s.Core(a) && ids[a] == ids[i] >= 0 && (a == i || s.Near(a, i))
    requires s.Core(b) && ids[b] == ids[j] >= 0 && (b == j || s.Near(b, j))
    requires a < b ==> ids[a] <= ids[b]
    ensures ids[i] <= ids[j]
  {
  }

  /** Cluster ids never decrease along the sorted points. */
  lemma {:induction false} LabelsInOrder(s: Scene, ids: seq<int>, seeds: seq<int>, i: int, j: int)
    requires Labelling(s, ids, seeds)
    requires 0 <= i < j < |ids| && ids[i] != -1 && ids[j] != -1
    ensures 0 <= ids[i] <= ids[j]
  {
    var a := LabelledBesideOwnCore(s, ids, seeds, i);
    var b := LabelledBesideOwnCore(s, ids, seeds, j);
    if a < b {
      CoresInClusterOrder(s, ids, seeds, a, b);
    }
    PointsInClusterOrder(s, ids, i, a, j, b);
  }

  /** Each cluster is a contiguous run of the sorted points. */
  lemma {:induction false} ClustersContiguous(s: Scene, ids: seq<int>, seeds: seq<int>, i: int, j: int, k: int)
    requires Labelling(s, ids, seeds)
    requires 0 <= i < j < k < |ids| && ids[i] == ids[k] != -1
    ensures ids[j] == ids[i]
  {
    var a := LabelledBesideOwnCore(s, ids, seeds, i);
    var b := LabelledBesideOwnCore(s, ids, seeds, k);
    BetweenIsNearCore(s, ids, seeds, i, a, j, k, b);
    LabelsInOrder(s, ids, seeds, i, j);
    LabelsInOrder(s, ids, seeds, j, k);
  }

  lemma {:induction false} BetweenIsNearCore(s: Scene, ids: seq<int>, seeds: seq<int>, i: int, a: int, j: int, k: int, b: int)
    requires Labelling(s, ids, seeds)
    requires 0 <= i < j < k < |ids|
    requires s.Core(a) && (a == i || s.Near(a, i))
    requires s.Core(b) && (b == k || s.Near(b, k)) && ids[a] == ids[b]
    ensures ids[j] != -1
  {
    assert s.p[i] <= s.p[j] <= s.p[k];
    if a != i && s.p[j] <= s.p[a] {
      assert s.Near(a, j);
    } else if b != k && s.p[b] <= s.p[j] {
      assert s.Near(b, j);
    } else {
      CoresShareClusterIffConnected(s, ids, seeds, a, b);
      if a != b {
        var m := CoreBelow(s, a, b, s.p[j]);
        assert s.Near(m, j);
      }
    }
  }

  lemma {:induction false} SeedIsFirst(s: Scene, ids: seq<int>, seeds: seq<int>, j: int)
    requires Labelling(s, ids, seeds) && s.Core(j)
    ensures 0 <= ids[j] < |seeds| && seeds[ids[j]] <= j && ids[seeds[ids[j]]] == ids[j]
  {
  }

  // ---------------------------------------------------------------- the labelling is unique

  ghost predicate Increasing(q: seq<int>) {
    forall a, b :: 0 <= a < b < |q| ==> q[a] < q[b]
  }

  lemma {:induction false} LastIsLargest(q: seq<int>, r: seq<int>)
    requires Increasing(q) && r != [] && forall x :: x in r ==> x in q
    ensures q != [] && r[|r| - 1] <= q[|q| - 1]
  {
    var last := r[|r| - 1];
    assert last in r;
    var b :| 0 <= b < |q| && q[b] == last;
    assert b == |q| - 1 || q[b] < q[|q| - 1];
  }

  lemma {:induction false} FrontMembers(q: seq<int>, x: int)
    requires Increasing(q) && q != []
    ensures x in q[..|q| - 1] <==> x in q && x != q[|q| - 1]
  {
  }

  lemma {:induction false} IncreasingUnique(q: seq<int>, r: seq<int>)
    requires Increasing(q) && Increasing(r) && forall x :: x in q <==> x in r
    ensures q == r
    decreases |q|
  {
    if r != [] {
      LastIsLargest(q, r);
    }
    if q != [] {
      LastIsLargest(r, q);
      var m, n := |q| - 1, |r| - 1;
      forall x ensures x in q[..m] <==> x in r[..n] {
        FrontMembers(q, x);
        FrontMembers(r, x);
      }
      IncreasingUnique(q[..m], r[..n]);
      assert q == q[..m] + [q[m]] && r == r[..n] + [r[n]];
    }
  }

  lemma {:induction false} SeedsAgree(s: Scene, ids: seq<int>, seeds: seq<int>, ids': seq<int>, seeds': seq<int>, j: int)
    requires Labelling(s, ids, seeds) && Labelling(s, ids', seeds') && s.Core(j)
    ensures 0 <= ids[j] < |seeds| && 0 <= ids'[j] < |seeds'| && seeds[ids[j]] == seeds'[ids'[j]]
  {
    hide Cover, Closed, Rooted;
    SeedIsFirst(s, ids, seeds, j);
    SeedIsFirst(s, ids', seeds', j);
    var a, b := seeds[ids[j]], seeds'[ids'[j]];
    CoresShareClusterIffConnected(s, ids, seeds, j, a);
    CoresShareClusterIffConnected(s, ids', seeds', j, b);
    CoresShareClusterIffConnected(s, ids', seeds', j, a);
    CoresShareClusterIffConnected(s, ids, seeds, j, b);
    SeedIsFirst(s, ids', seeds', a);
    SeedIsFirst(s, ids, seeds, b);
  }

  lemma {:induction false} SeedsUnique(s: Scene, ids: seq<int>, seeds: seq<int>, ids': seq<int>, seeds': seq<int>)
    requires Labelling(s, ids, seeds) && Labelling(s, ids', seeds')
    ensures seeds == seeds'
  {
    hide Cover, Closed, Rooted;
    forall x ensures x in seeds <==> x in seeds' {
      if x in seeds {
        SeedsAgree(s, ids, seeds, ids', seeds', x);
      } else if x in seeds' {
        SeedsAgree(s, ids', seeds', ids, seeds, x);
      }
    }
    IncreasingUnique(seeds, seeds');
  }

  lemma {:induction false} ClosedAt(s: Scene, ids: seq<int>, j: int, m: int)
    requires |ids| == |s.p| && Closed(s, ids) && s.Core(j) && ids[j] >= 0 && 0 <= m < |ids| && s.Near(j, m)
    ensures 0 <= ids[m] <= ids[j]
  {
  }

  /** The points and parameters determine the labels: `Labelling` leaves no choice. */
  lemma {:induction false} LabellingUnique(s: Scene, ids: seq<int>, seeds: seq<int>, ids': seq<int>, seeds': seq<int>)
    requires Labelling(s, ids, seeds) && Labelling(s, ids', seeds')
    ensures ids == ids' && seeds == seeds'
  {
    SeedsUnique(s, ids, seeds, ids', seeds');
    forall j | 0 <= j < |ids| ensures ids[j] == ids'[j] {
      LabelNotAbove(s, ids, seeds, ids', seeds', j);
      LabelNotAbove(s, ids', seeds', ids, seeds, j);
    }
  }

  lemma {:induction false} LabelNotAbove(s: Scene, ids: seq<int>, seeds: seq<int>, ids': seq<int>, seeds': seq<int>, j: int)
    requires Labelling(s, ids, seeds) && Labelling(s, ids', seeds') && seeds == seeds' && 0 <= j < |ids|
    ensures ids'[j] != -1 ==> 0 <= ids[j] <= ids'[j]
    ensures ids'[j] == -1 ==> ids[j] == -1
  {
    hide Cover, Closed, Rooted;
    NoiseIffNoCoreNear(s, ids, seeds, j);
    NoiseIffNoCoreNear(s, ids', seeds', j);
    if ids'[j] != -1 {
      var k := LabelledBesideOwnCore(s, ids', seeds', j);
      SeedsAgree(s, ids, seeds, ids', seeds', k);
      if k != j {
        ClosedAt(s, ids, k, j);
      }
    }
  }
}
