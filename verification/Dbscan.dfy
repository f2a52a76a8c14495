/** One-dimensional DBSCAN: points sorted by value, clusters grown with a work queue. */
module Dbscan {
  import opened Ordering
  import opened DbscanModel
  import opened Counting

  /** The positions whose values lie in [val - eps, val + eps]. */
  method FindRange(p: seq<real>, val: real, eps: real) returns (lo: nat, hi: nat)
    requires Sorted(p)
    ensures lo <= hi <= |p|
    ensures forall k :: 0 <= k < |p| ==> (lo <= k < hi <==> -eps <= p[k] - val <= eps)
  {
    lo := LowerBound(p, val - eps);
    hi := UpperBound(p, lo, val + eps);
  }

  lemma {:induction false} RangeIsNeighbours(s: Scene, i: int, lo: int, hi: int)
    requires 0 <= i < |s.p| && 0 <= lo <= hi <= |s.p|
    requires forall k :: 0 <= k < |s.p| ==> (lo <= k < hi <==> s.Near(i, k))
    ensures hi - lo >= s.minPts <==> s.Core(i)
  {
    assert s.Neighbours(i) == Interval(lo, hi);
  }

  /** The queue lists, once each, exactly the points marked with this generation. */
  ghost predicate Marked(queue: seq<int>, visited: seq<int>, gen: int) {
    && Distinct(queue)
    && (forall a :: 0 <= a < |queue| ==> 0 <= queue[a] < |visited|)
    && (forall x :: 0 <= x < |visited| ==> visited[x] <= gen)
    && (forall x :: 0 <= x < |visited| ==> (visited[x] == gen <==> x in queue))
  }

  ghost predicate AllBacked(s: Scene, i: int, queue: seq<int>) {
    forall x :: x in queue ==> 0 <= x < |s.p| && s.Backed(i, x)
  }

  /** Exactly the seed and the first `k` queue entries have been looked at. */
  ghost predicate Labelled(before: seq<int>, ids: seq<int>, c: int, i: int, queue: seq<int>, k: nat) {
    && |before| == |ids| && k <= |queue| && 0 <= i < |ids| && ids[i] == c
    && (forall j :: 0 <= j < |ids| ==> ids[j] == before[j] || (before[j] == -1 && ids[j] == c))
    && (forall j :: 0 <= j < |ids| && ids[j] == c ==> j == i || j in queue[..k])
    && (forall x :: x in queue[..k] && 0 <= x < |ids| ==> ids[x] != -1)
  }

  /** The neighbours of every core labelled so far are labelled or still queued. */
  ghost predicate Frontier(s: Scene, ids: seq<int>, c: int, queue: seq<int>, k: nat)
    requires |ids| == |s.p| && k <= |queue|
  {
    forall j, m :: s.Core(j) && ids[j] == c && 0 <= m < |ids| && s.Near(j, m) ==> ids[m] != -1 || m in queue[k..]
  }

  /** The first fill of the queue: the whole range of the seed except the seed. */
  method Seed(visited: array<int>, gen: int, i: nat, lo: nat, hi: nat) returns (queue: seq<int>)
    requires lo <= hi <= visited.Length
    requires forall x :: 0 <= x < visited.Length ==> visited[x] < gen
    modifies visited
    ensures Marked(queue, visited[..], gen)
    ensures forall x :: x in queue <==> lo <= x < hi && x != i
  {
    queue := [];
    for it := lo to hi
      invariant Marked(queue, visited[..], gen)
      invariant forall x :: x in queue <==> lo <= x < it && x != i
    {
      if it != i {
        assert it !in queue;
        queue := queue + [it];
        visited[it] := gen;
      }
    }
  }

  /** Queues those of the range that are unlabelled and not queued in this generation. */
  method PushNeighbours(ids: array<int>, visited: array<int>, gen: int, queue: seq<int>, lo: nat, hi: nat)
    returns (grown: seq<int>)
    requires ids != visited && ids.Length == visited.Length && lo <= hi <= ids.Length
    requires Marked(queue, visited[..], gen)
    modifies visited
    ensures Marked(grown, visited[..], gen)
    ensures queue <= grown
    ensures forall x :: x in grown ==> x in queue || lo <= x < hi
    ensures forall x :: lo <= x < hi ==> ids[x] != -1 || x in grown
  {
    grown := queue;
    for it := lo to hi
      invariant Marked(grown, visited[..], gen)
      invariant queue <= grown
      invariant forall x :: x in grown ==> x in queue || lo <= x < hi
      invariant forall x :: lo <= x < it ==> ids[x] != -1 || x in grown
    {
      if ids[it] == -1 && visited[it] != gen {
        assert it !in grown;
        grown := grown + [it];
        visited[it] := gen;
      }
    }
  }

  lemma {:induction false} NeighboursBacked(s: Scene, i: int, q: int, m: int)
    requires s.Core(i) && s.Core(q) && 0 <= m < |s.p| && s.Backed(i, q) && s.Near(q, m)
    ensures s.Backed(i, m)
  {
    BackedCore(s, i, q);
  }

  lemma {:induction false} FrontierAdvances(s: Scene, ids: seq<int>, ids': seq<int>, c: int, queue: seq<int>,
      queue': seq<int>, k: nat)
    requires |ids| == |ids'| == |s.p| && k < |queue| && queue <= queue' && 0 <= queue[k] < |ids|
    requires Frontier(s, ids, c, queue, k)
    requires c >= 0 && (ids' == ids || (ids[queue[k]] == -1 && ids' == ids[queue[k] := c]))
    requires ids'[queue[k]] != -1
    requires forall x :: x in queue'[..k + 1] && 0 <= x < |ids| ==> ids'[x] != -1
    requires ids' != ids && s.Core(queue[k]) ==>
      forall m :: 0 <= m < |ids| && s.Near(queue[k], m) ==> ids'[m] != -1 || m in queue'
    ensures Frontier(s, ids', c, queue', k + 1)
  {
  }

  /** Grows cluster `c` from the core `i`, whose range is [lo, hi). */
  method Expand(s: Scene, ids: array<int>, visited: array<int>, gen: int, c: int, i: nat, lo: nat, hi: nat)
    requires Sorted(s.p) && ids != visited && ids.Length == visited.Length == |s.p|
    requires s.Core(i) && ids[i] == -1 && c >= 0
    requires lo <= hi <= |s.p| && forall k :: 0 <= k < |s.p| ==> (lo <= k < hi <==> s.Near(i, k))
    requires forall x :: 0 <= x < |s.p| ==> visited[x] < gen && ids[x] < c
    modifies ids, visited
    ensures Grown(s, old(ids[..]), ids[..], c, i)
    ensures forall x :: 0 <= x < |s.p| ==> visited[x] <= gen
  {
    ids[i] := c;
    var queue := Seed(visited, gen, i, lo, hi);
    assert AllBacked(s, i, queue) by {
      ChainStep(s, i, i);
      assert forall x :: x in queue ==> s.Near(i, x);
    }
    var k := 0;
    while k < |queue|
      invariant Marked(queue, visited[..], gen)
      invariant AllBacked(s, i, queue)
      invariant Labelled(old(ids[..]), ids[..], c, i, queue, k)
      invariant Frontier(s, ids[..], c, queue, k)
      decreases |s.p| - k
    {
      DistinctFits(queue, |s.p|);
      queue := Visit(s, ids, visited, gen, c, i, queue, k, old(ids[..]));
      k := k + 1;
    }
  }

  /** One turn of the queue: labels entry `k` if it is free, and if that is a core queues its range. */
  method Visit(s: Scene, ids: array<int>, visited: array<int>, gen: int, c: int, i: nat, queue: seq<int>, k: nat,
               ghost before: seq<int>)
    returns (queue': seq<int>)
    requires Sorted(s.p) && ids != visited && ids.Length == visited.Length == |s.p|
    requires s.Core(i) && c >= 0 && k < |queue|
    requires Marked(queue, visited[..], gen) && AllBacked(s, i, queue)
    requires Labelled(before, ids[..], c, i, queue, k) && Frontier(s, ids[..], c, queue, k)
    modifies ids, visited
    ensures Marked(queue', visited[..], gen) && AllBacked(s, i, queue')
    ensures Labelled(before, ids[..], c, i, queue', k + 1) && Frontier(s, ids[..], c, queue', k + 1)
  {
    ghost var ids0 := ids[..];
    var q := queue[k];
    queue' := queue;
    assert queue[..k + 1] == queue[..k] + [q];
    if ids[q] == -1 {
      ids[q] := c;
      var lo, hi := FindRange(s.p, s.p[q], s.eps);
      RangeIsNeighbours(s, q, lo, hi);
      if hi - lo >= s.minPts {
        forall m | 0 <= m < |s.p| && s.Near(q, m) ensures s.Backed(i, m) {
          NeighboursBacked(s, i, q, m);
        }
        queue' := PushNeighbours(ids, visited, gen, queue, lo, hi);
      }
    }
    assert queue'[..k + 1] == queue[..k + 1];
    FrontierAdvances(s, ids0, ids[..], c, queue, queue', k);
  }

  lemma {:induction false} PartialSkips(s: Scene, ids: seq<int>, seeds: seq<int>, i: int)
    requires 0 <= i < |s.p| == |ids| && Cover(s, ids, i) && SeedsInOrder(s, ids, seeds, i)
    requires ids[i] >= 0 || !s.Core(i)
    ensures Cover(s, ids, i + 1) && SeedsInOrder(s, ids, seeds, i + 1)
  {
  }

  lemma {:induction false} LabelsBelowNext(s: Scene, ids: seq<int>, seeds: seq<int>, i: nat)
    requires Partial(s, ids, seeds, i)
    ensures forall x :: 0 <= x < |ids| ==> -1 <= ids[x] < |seeds|
  {
  }

  /** One round of the outer loop at the unlabelled point `i`. */
  method LabelFrom(s: Scene, labels: array<int>, visited: array<int>, gen: int, next: nat, i: nat, ghost seeds: seq<int>)
    returns (grew: bool)
    requires Sorted(s.p) && labels != visited && labels.Length == visited.Length == |s.p|
    requires i < |s.p| && labels[i] == -1 && next == |seeds|
    requires Partial(s, labels[..], seeds, i)
    requires forall x :: 0 <= x < |s.p| ==> visited[x] <= gen
    modifies labels, visited
    ensures Partial(s, labels[..], if grew then seeds + [i] else seeds, i + 1)
    ensures forall x :: 0 <= x < |s.p| ==> visited[x] <= if grew then gen + 1 else gen
  {
    var lo, hi := FindRange(s.p, s.p[i], s.eps);
    RangeIsNeighbours(s, i, lo, hi);
    ghost var before := labels[..];
    if hi - lo < s.minPts {
      PartialSkips(s, before, seeds, i);
      return false;
    }
    LabelsBelowNext(s, before, seeds, i);
    assert forall x :: 0 <= x < |s.p| ==> before[x] == labels[x];
    Expand(s, labels, visited, gen + 1, next, i, lo, hi);
    GrownKeepsPartial(s, before, labels[..], seeds, i);
    return true;
  }

  /** Labels every point: the outer loop over seeds. */
  method Label(s: Scene) returns (labels: array<int>, next: nat, ghost seeds: seq<int>)
    requires Sorted(s.p)
    ensures fresh(labels) && next == |seeds|
    ensures labels.Length == |s.p| && forall x :: 0 <= x < |s.p| ==> labels[x] < next
    ensures Labelling(s, labels[..], seeds)
  {
    labels := new int[|s.p|](_ => -1);
    var visited := new int[|s.p|](_ => 0);
    var gen := 0;
    seeds := [];
    next := 0;
    for i := 0 to |s.p|
      invariant next == |seeds|
      invariant Partial(s, labels[..], seeds, i)
      invariant forall x :: 0 <= x < |s.p| ==> visited[x] <= gen
    {
      if labels[i] != -1 {
        PartialSkips(s, labels[..], seeds, i);
      } else {
        var grew := LabelFrom(s, labels, visited, gen, next, i, seeds);
        if grew {
          gen, next := gen + 1, next + 1;
          seeds := seeds + [i];
        }
      }
    }
    LabelsBelowNext(s, labels[..], seeds, |s.p|);
  }

  /** The values of the first `t` points with label `c`, in order. */
  ghost function Group(p: seq<real>, ids: seq<int>, c: int, t: nat): seq<real>
    requires t <= |p| == |ids|
  {
    if t == 0 then [] else Group(p, ids, c, t - 1) + if ids[t - 1] == c then [p[t - 1]] else []
  }

  ghost function Groups(p: seq<real>, ids: seq<int>, k: nat, t: nat): (r: seq<seq<real>>)
    requires t <= |p| == |ids|
    ensures |r| == k && forall c :: 0 <= c < k ==> r[c] == Group(p, ids, c, t)
  {
    if k == 0 then [] else Groups(p, ids, k - 1, t) + [Group(p, ids, k - 1, t)]
  }

  /** The single pass that collects the labelled values, cluster by cluster. */
  method Collect(p: seq<real>, labels: array<int>, next: nat) returns (result: seq<seq<real>>)
    requires labels.Length == |p| && forall j :: 0 <= j < |p| ==> labels[j] < next
    ensures result == Groups(p, labels[..], next, |p|)
  {
    result := seq(next, _ => []);
    ghost var ids := labels[..];
    for i := 0 to |p|
      invariant |result| == next
      invariant forall c :: 0 <= c < next ==> result[c] == Group(p, ids, c, i)
    {
      var c := labels[i];
      if c >= 0 {
        result := result[c := result[c] + [p[i]]];
      }
    }
  }

  ghost function Count(s: seq<real>, v: real): nat {
    multiset(s)[v]
  }

  lemma {:induction false} CountAppend(s: seq<real>, x: real, v: real)
    ensures Count(s + [x], v) == Count(s, v) + if x == v then 1 else 0
  {
  }

  /** How often `v` occurs in the first `n` clusters together. */
  ghost function Pooled(clusters: seq<seq<real>>, n: nat, v: real): nat
    requires n <= |clusters|
  {
    if n == 0 then 0 else Pooled(clusters, n - 1, v) + Count(clusters[n - 1], v)
  }

  lemma {:induction false} GroupGrows(p: seq<real>, ids: seq<int>, c: int, t: nat, v: real)
    requires t < |p| == |ids|
    ensures Count(Group(p, ids, c, t + 1), v) ==
      Count(Group(p, ids, c, t), v) + if ids[t] == c && p[t] == v then 1 else 0
  {
  }

  /** The same count, cluster by cluster, after the first `t` points. */
  ghost function PooledAt(p: seq<real>, ids: seq<int>, k: nat, t: nat, v: real): nat
    requires t <= |p| == |ids|
  {
    if k == 0 then 0 else PooledAt(p, ids, k - 1, t, v) + Count(Group(p, ids, k - 1, t), v)
  }

  lemma {:induction false} PooledAtIsPooled(p: seq<real>, ids: seq<int>, k: nat, n: nat, t: nat, v: real)
    requires t <= |p| == |ids| && n <= k
    ensures PooledAt(p, ids, n, t, v) == Pooled(Groups(p, ids, k, t), n, v)
    decreases n
  {
    hide Group, Count, Groups;
    if n > 0 {
      PooledAtIsPooled(p, ids, k, n - 1, t, v);
    }
  }

  lemma {:induction false} PooledAtGrows(p: seq<real>, ids: seq<int>, k: nat, t: nat, v: real)
    requires t < |p| == |ids|
    ensures PooledAt(p, ids, k, t + 1, v) ==
      PooledAt(p, ids, k, t, v) + if 0 <= ids[t] < k && p[t] == v then 1 else 0
    decreases k
  {
    hide Group, Count;
    if k > 0 {
      PooledAtGrows(p, ids, k - 1, t, v);
      GroupGrows(p, ids, k - 1, t, v);
    }
  }

  lemma {:induction false} PooledAtStart(p: seq<real>, ids: seq<int>, k: nat, v: real)
    requires |p| == |ids|
    ensures PooledAt(p, ids, k, 0, v) == 0
    decreases k
  {
    if k > 0 {
      PooledAtStart(p, ids, k - 1, v);
    }
  }

  lemma {:induction false} PrefixCount(p: seq<real>, t: nat, v: real)
    requires t < |p|
    ensures Count(p[..t + 1], v) == Count(p[..t], v) + if p[t] == v then 1 else 0
  {
    hide Count;
    CountAppend(p[..t], p[t], v);
    assert p[..t + 1] == p[..t] + [p[t]];
  }

  /** Every value occurs in the clusters and the noise together as often as among the points. */
  lemma {:induction false} ClustersAndNoiseAreThePoints(p: seq<real>, ids: seq<int>, k: nat, v: real)
    requires |p| == |ids| && forall j :: 0 <= j < |ids| ==> -1 <= ids[j] < k
    ensures Count(p, v) == Pooled(Groups(p, ids, k, |p|), k, v) + Count(Group(p, ids, -1, |p|), v)
  {
    PooledAtStart(p, ids, k, v);
    for t := 0 to |p|
      invariant Count(p[..t], v) == PooledAt(p, ids, k, t, v) + Count(Group(p, ids, -1, t), v)
    {
      hide Group, Count, PooledAt;
      PooledAtGrows(p, ids, k, t, v);
      GroupGrows(p, ids, -1, t, v);
      PrefixCount(p, t, v);
    }
    assert p[..|p|] == p;
    PooledAtIsPooled(p, ids, k, k, |p|, v);
  }

  /** The result groups some sorted permutation of the values by a labelling of it. */
  ghost predicate ClusteringBy(values: seq<real>, eps: real, minPts: nat, result: seq<seq<real>>, p: seq<real>,
      ids: seq<int>, seeds: seq<int>) {
    && multiset(p) == multiset(values)
    && Labelling(Scene(p, eps, minPts), ids, seeds)
    && |p| == |ids| && result == Groups(p, ids, |seeds|, |p|)
  }

  ghost predicate IsClustering(values: seq<real>, eps: real, minPts: nat, result: seq<seq<real>>) {
    exists p, ids, seeds :: ClusteringBy(values, eps, minPts, result, p, ids, seeds)
  }

  /** The whole algorithm: sort, label, and group the labelled points by cluster. */
  method Cluster(values: seq<real>, eps: real, minPts: nat) returns (result: seq<seq<real>>)
    ensures IsClustering(values, eps, minPts, result)
  {
    if values == [] {
      assert ClusteringBy(values, eps, minPts, [], [], [], []);
      return [];
    }
    var key := (v: real) => v;
    var points := Sort(values, key);
    assert forall i, j :: 0 <= i < j < |points| ==> key(points[i]) <= key(points[j]);
    var labels, next;
    ghost var seeds;
    labels, next, seeds := Label(Scene(points, eps, minPts));
    result := Collect(points, labels, next);
    assert ClusteringBy(values, eps, minPts, result, points, labels[..], seeds);
  }

  /** Clusters and noise together are the values. */
  lemma {:induction false} ClusteringConserves(values: seq<real>, eps: real, minPts: nat,
      result: seq<seq<real>>) returns (noise: seq<real>)
    requires IsClustering(values, eps, minPts, result)
    ensures forall v :: Count(values, v) == Pooled(result, |result|, v) + Count(noise, v)
  {
    hide Labelling, Sorted;
    var p, ids, seeds :| ClusteringBy(values, eps, minPts, result, p, ids, seeds);
    LabelsOfClusters(Scene(p, eps, minPts), ids, seeds);
    noise := Group(p, ids, -1, |p|);
    forall v ensures Count(values, v) == Pooled(result, |result|, v) + Count(noise, v) {
      ClustersAndNoiseAreThePoints(p, ids, |seeds|, v);
    }
  }

  lemma {:induction false} LabelsOfClusters(s: Scene, ids: seq<int>, seeds: seq<int>)
    requires Labelling(s, ids, seeds)
    ensures |ids| == |s.p| && forall j :: 0 <= j < |ids| ==> -1 <= ids[j] < |seeds|
  {
    LabelsBelowNext(s, ids, seeds, |s.p|);
  }

  lemma {:induction false} SortedUnique(p: seq<real>, q: seq<real>)
    requires Sorted(p) && Sorted(q) && multiset(p) == multiset(q)
    ensures p == q
    decreases |p|
  {
    hide Sorted;
    assert |p| == |multiset(p)| == |multiset(q)| == |q|;
    if p != [] {
      var n := |p| - 1;
      LastIsGreatest(p, q);
      LastIsGreatest(q, p);
      WithoutLast(p);
      WithoutLast(q);
      SortedUnique(p[..n], q[..n]);
      assert p == p[..n] + [p[n]] && q == q[..n] + [q[n]];
    }
  }

  lemma {:induction false} WithoutLast(p: seq<real>)
    requires Sorted(p) && p != []
    ensures Sorted(p[..|p| - 1]) && multiset(p[..|p| - 1]) == multiset(p) - multiset{p[|p| - 1]}
  {
    assert p == p[..|p| - 1] + [p[|p| - 1]];
  }

  lemma {:induction false} LastIsGreatest(p: seq<real>, q: seq<real>)
    requires Sorted(p) && p != [] && q != [] && multiset(p) == multiset(q)
    ensures q[|q| - 1] <= p[|p| - 1]
  {
    var v := q[|q| - 1];
    assert v in multiset(q);
    assert v in p;
  }

  /** Values and parameters determine the clusters. */
  lemma {:induction false} ClusteringUnique(values: seq<real>, eps: real, minPts: nat, a: seq<seq<real>>, b: seq<seq<real>>)
    requires IsClustering(values, eps, minPts, a) && IsClustering(values, eps, minPts, b)
    ensures a == b
  {
    hide Partial;
    var p, ids, seeds :| ClusteringBy(values, eps, minPts, a, p, ids, seeds);
    var p', ids', seeds' :| ClusteringBy(values, eps, minPts, b, p', ids', seeds');
    SortedUnique(p, p');
    LabellingUnique(Scene(p, eps, minPts), ids, seeds, ids', seeds');
  }
}
