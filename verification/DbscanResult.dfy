/** The shape of the clusters: slices of the sorted points, in order, and runs when two points suffice. */
module DbscanResult {
  import opened Ordering
  import opened DbscanModel
  import opened Counting
  import opened Dbscan

  lemma {:induction false} GroupIsSlice(p: seq<real>, ids: seq<int>, c: int, lo: nat, hi: nat, t: nat)
    requires |p| == |ids| && lo <= hi <= t <= |p|
    requires forall j :: 0 <= j < t ==> (ids[j] == c <==> lo <= j < hi)
    ensures Group(p, ids, c, t) == p[lo..hi]
    decreases t
  {
    if t > 0 {
      if lo < hi == t {
        GroupIsSlice(p, ids, c, lo, hi - 1, t - 1);
        assert p[lo..hi] == p[lo..hi - 1] + [p[hi - 1]];
      } else if hi < t {
        GroupIsSlice(p, ids, c, lo, hi, t - 1);
      } else {
        GroupIsSlice(p, ids, c, t - 1, t - 1, t - 1);
      }
    }
  }

  /** Cluster `c` of the result is one non-empty slice of the sorted points. */
  lemma {:induction false} ClusterIsSlice(s: Scene, ids: seq<int>, seeds: seq<int>, c: int) returns (lo: nat, hi: nat)
    requires Labelling(s, ids, seeds) && 0 <= c < |seeds|
    ensures lo < hi <= |s.p|
    ensures forall j :: 0 <= j < |ids| ==> (ids[j] == c <==> lo <= j < hi)
    ensures Group(s.p, ids, c, |s.p|) == s.p[lo..hi]
  {
    hide Cover, Closed, Rooted;
    lo, hi := seeds[c], seeds[c] + 1;
    while lo > 0 && ids[lo - 1] == c
      invariant 0 <= lo < hi
      invariant forall j :: lo <= j < hi ==> ids[j] == c
    {
      lo := lo - 1;
    }
    while hi < |ids| && ids[hi] == c
      invariant lo < hi <= |ids|
      invariant forall j :: lo <= j < hi ==> ids[j] == c
    {
      hi := hi + 1;
    }
    forall j | 0 <= j < |ids| && ids[j] == c ensures lo <= j < hi {
      if j < lo - 1 {
        ClustersContiguous(s, ids, seeds, j, lo - 1, lo);
      } else if hi < j {
        ClustersContiguous(s, ids, seeds, hi - 1, hi, j);
      }
    }
    GroupIsSlice(s.p, ids, c, lo, hi, |s.p|);
  }

  /** Clusters come in the order of their values. */
  lemma {:induction false} ClustersOrdered(s: Scene, ids: seq<int>, seeds: seq<int>, c: int, d: int, i: int, j: int)
    requires Labelling(s, ids, seeds) && 0 <= c < d
    requires 0 <= i < |ids| && ids[i] == c && 0 <= j < |ids| && ids[j] == d
    ensures i < j && s.p[i] <= s.p[j]
  {
    hide Cover, Closed, Rooted, SeedsInOrder;
    if j < i {
      LabelsInOrder(s, ids, seeds, j, i);
    }
  }

  // ---------------------------------------------------------------- two-point clusters

  /** The reference for `minPts == 2`: cut the first `t` sorted values at every gap above eps. */
  ghost function Split(p: seq<real>, eps: real, t: nat): (runs: seq<seq<real>>)
    requires t <= |p|
    ensures t > 0 ==> runs != [] && runs[|runs| - 1] != []
  {
    if t == 0 then []
    else
      var runs := Split(p, eps, t - 1);
      if t == 1 || p[t - 1] - p[t - 2] > eps then runs + [[p[t - 1]]]
      else runs[..|runs| - 1] + [runs[|runs| - 1] + [p[t - 1]]]
  }

  ghost function LongRuns(runs: seq<seq<real>>): seq<seq<real>> {
    if runs == [] then []
    else
      var n := |runs| - 1;
      LongRuns(runs[..n]) + if |runs[n]| >= 2 then [runs[n]] else []
  }

  ghost predicate Tied(s: Scene, i: int) {
    0 <= i && i + 1 < |s.p| && s.p[i + 1] - s.p[i] <= s.eps
  }

  lemma {:induction false} PairCoreIffTied(s: Scene, i: int)
    requires Sorted(s.p) && s.minPts == 2 && 0 <= i < |s.p|
    ensures s.Core(i) <==> Tied(s, i - 1) || Tied(s, i)
  {
    var near := s.Neighbours(i);
    if Tied(s, i - 1) || Tied(s, i) {
      var j := if Tied(s, i) then i + 1 else i - 1;
      assert s.p[i] - s.p[i] == 0.0 && {i, j} <= near;
      SubsetSize({i, j}, near);
    }
    if s.Core(i) {
      assert !(near <= {i}) by {
        if near <= {i} {
          SubsetSize(near, {i});
        }
      }
      var j :| j in near && j != i;
      assert s.Near(i, j);
      if j < i {
        assert s.p[j] <= s.p[i - 1] <= s.p[i];
      } else {
        assert s.p[i] <= s.p[i + 1] <= s.p[j];
      }
    }
  }

  lemma {:induction false} PairLabelledIsCore(s: Scene, ids: seq<int>, seeds: seq<int>, i: int)
    requires Labelling(s, ids, seeds) && s.minPts == 2 && 0 <= i < |s.p|
    ensures ids[i] != -1 <==> s.Core(i)
  {
    hide Cover, Closed, Rooted, SeedsInOrder;
    NoiseIffNoCoreNear(s, ids, seeds, i);
    if ids[i] != -1 {
      var k := LabelledBesideOwnCore(s, ids, seeds, i);
      if k != i {
        assert {i, k} <= s.Neighbours(i);
        SubsetSize({i, k}, s.Neighbours(i));
      }
    }
  }

  lemma {:induction false} ChainStaysLeft(s: Scene, path: seq<int>, i: int)
    requires Sorted(s.p) && s.Chain(path) && path[0] <= i && i + 1 < |s.p| && !Tied(s, i) && 0 <= i
    ensures path[|path| - 1] <= i
    decreases |path|
  {
    if |path| > 1 {
      ChainPrefix(s, path, |path| - 1);
      ChainStaysLeft(s, path[..|path| - 1], i);
      assert s.Step(path, |path| - 1);
      var u, w := path[|path| - 2], path[|path| - 1];
      var values := (s.p[u], s.p[i], s.p[i + 1], s.p[w]);
    }
  }

  /** For pairs, neighbours in the sorted list share a cluster exactly when the gap is at most eps. */
  lemma {:induction false} PairSharesIffTied(s: Scene, ids: seq<int>, seeds: seq<int>, i: int)
    requires Labelling(s, ids, seeds) && s.minPts == 2 && 0 <= i && i + 1 < |s.p|
    ensures Tied(s, i) <==> ids[i] == ids[i + 1] != -1
  {
    hide Cover, Closed, Rooted, SeedsInOrder;
    PairCoreIffTied(s, i);
    PairCoreIffTied(s, i + 1);
    PairLabelledIsCore(s, ids, seeds, i);
    PairLabelledIsCore(s, ids, seeds, i + 1);
    if Tied(s, i) {
      ChainStep(s, i, i + 1);
      CoresShareClusterIffConnected(s, ids, seeds, i, i + 1);
    } else if ids[i] == ids[i + 1] != -1 {
      CoresShareClusterIffConnected(s, ids, seeds, i, i + 1);
      var path :| s.Chain(path) && path[0] == i && path[|path| - 1] == i + 1;
      ChainStaysLeft(s, path, i);
    }
  }

  /** At the first point past a gap, a label is the next unused one. */
  lemma {:induction false} PairFreshLabel(s: Scene, ids: seq<int>, seeds: seq<int>, t: int, k: nat)
    requires Labelling(s, ids, seeds) && s.minPts == 2 && 0 <= t < |s.p| && ids[t] != -1
    requires t > 0 ==> !Tied(s, t - 1)
    requires Started(seeds, t, k)
    ensures ids[t] == k && k < |seeds| && seeds[k] == t
  {
    hide Cover, Closed, Rooted;
    PairLabelledIsCore(s, ids, seeds, t);
    SeedIsFirst(s, ids, seeds, t);
    var d := ids[t];
    assert seeds[d] == t by {
      if seeds[d] < t - 1 {
        ClustersContiguous(s, ids, seeds, seeds[d], t - 1, t);
      }
      if seeds[d] < t {
        PairSharesIffTied(s, ids, seeds, t - 1);
      }
    }
    var next := if k < |seeds| then seeds[k] else t;
  }

  /** The state of both descriptions after the first `t > 0` points. */
  ghost predicate Agree(s: Scene, ids: seq<int>, t: nat, k: nat)
    requires |ids| == |s.p| && 0 < t <= |s.p|
  {
    var runs := Split(s.p, s.eps, t);
    var groups := Groups(s.p, ids, k, t);
    var last := |runs| - 1;
    && (t > 1 && Tied(s, t - 2) ==> |runs[last]| >= 2)
    && if ids[t - 1] == -1 then |runs[last]| == 1 && LongRuns(runs[..last]) == groups
       else 0 <= ids[t - 1] == k - 1 && runs[last] == groups[k - 1] && LongRuns(runs[..last]) == groups[..k - 1]
  }

  lemma {:induction false} GroupAbsent(p: seq<real>, ids: seq<int>, c: int, t: nat)
    requires t <= |p| == |ids| && forall j :: 0 <= j < t ==> ids[j] != c
    ensures Group(p, ids, c, t) == []
    decreases t
  {
    if t > 0 {
      GroupAbsent(p, ids, c, t - 1);
    }
  }

  /** Exactly the clusters below `k` start before `t`. */
  ghost predicate Started(seeds: seq<int>, t: int, k: nat) {
    k <= |seeds| && forall c :: 0 <= c < |seeds| ==> (seeds[c] < t <==> c < k)
  }

  lemma {:induction false} AgreeAtFirst(s: Scene, ids: seq<int>, seeds: seq<int>) returns (k: nat)
    requires Labelling(s, ids, seeds) && s.minPts == 2 && s.p != []
    ensures Started(seeds, 1, k) && Agree(s, ids, 1, k)
  {
    hide Cover, Closed, Rooted;
    if ids[0] != -1 {
      PairFreshLabel(s, ids, seeds, 0, 0);
      k := 1;
    } else {
      k := 0;
    }
    assert Group(s.p, ids, 0, 1) == Group(s.p, ids, 0, 0) + if ids[0] == 0 then [s.p[0]] else [];
    assert LongRuns(Split(s.p, s.eps, 1)[..0]) == [];
  }

  lemma {:induction false} AgreeWhenTied(s: Scene, ids: seq<int>, seeds: seq<int>, t: nat, k: nat)
    requires Labelling(s, ids, seeds) && s.minPts == 2 && 0 < t < |s.p| && Tied(s, t - 1)
    requires Started(seeds, t, k) && Agree(s, ids, t, k)
    ensures Started(seeds, t + 1, k) && Agree(s, ids, t + 1, k)
  {
    hide Cover, Closed, Rooted;
    PairSharesIffTied(s, ids, seeds, t - 1);
    PairLabelledIsCore(s, ids, seeds, t - 1);
    SeedIsFirst(s, ids, seeds, t - 1);
    var runs, runs' := Split(s.p, s.eps, t), Split(s.p, s.eps, t + 1);
    assert runs'[..|runs| - 1] == runs[..|runs| - 1];
    GroupsExtend(s.p, ids, t, k);
  }

  /** Only the last group grows, and only when the point carries its label. */
  lemma {:induction false} GroupsExtend(p: seq<real>, ids: seq<int>, t: nat, k: nat)
    requires t < |p| == |ids|
    ensures ids[t] == -1 ==> Groups(p, ids, k, t + 1) == Groups(p, ids, k, t)
    ensures 0 <= ids[t] == k - 1 ==>
      && Groups(p, ids, k, t + 1)[..k - 1] == Groups(p, ids, k, t)[..k - 1]
      && Groups(p, ids, k, t + 1)[k - 1] == Groups(p, ids, k, t)[k - 1] + [p[t]]
  {
    var before, after := Groups(p, ids, k, t), Groups(p, ids, k, t + 1);
    forall c | 0 <= c < k
      ensures after[c] == if ids[t] == c then before[c] + [p[t]] else before[c]
    {
      assert before[c] + [] == before[c];
    }
    if ids[t] == -1 {
      assert after == before;
    } else if 0 <= ids[t] == k - 1 {
      assert after[..k - 1] == before[..k - 1];
    }
  }

  /** At a gap the last run is long exactly when its points are labelled. */
  lemma {:induction false} RunsAtGap(s: Scene, ids: seq<int>, seeds: seq<int>, t: nat, k: nat)
    requires Labelling(s, ids, seeds) && s.minPts == 2 && 0 < t <= |s.p| && !Tied(s, t - 1)
    requires Agree(s, ids, t, k)
    ensures LongRuns(Split(s.p, s.eps, t)) == Groups(s.p, ids, k, t)
  {
    hide Labelling, Split, Groups, LongRuns, Tied;
    LabelledTiedBefore(s, ids, seeds, t);
    LongAtGap(s, ids, t, k);
  }

  lemma {:induction false} LabelledTiedBefore(s: Scene, ids: seq<int>, seeds: seq<int>, t: nat)
    requires Labelling(s, ids, seeds) && s.minPts == 2 && 0 < t <= |s.p| && !Tied(s, t - 1)
    ensures |ids| == |s.p|
    ensures ids[t - 1] != -1 ==> t > 1 && Tied(s, t - 2)
  {
    hide Cover, Closed, Rooted, SeedsInOrder, Scene.Core;
    PairLabelledIsCore(s, ids, seeds, t - 1);
    PairCoreIffTied(s, t - 1);
  }

  lemma {:induction false} LongAtGap(s: Scene, ids: seq<int>, t: nat, k: nat)
    requires |ids| == |s.p| && 0 < t <= |s.p| && Agree(s, ids, t, k)
    requires ids[t - 1] != -1 ==> t > 1 && Tied(s, t - 2)
    ensures LongRuns(Split(s.p, s.eps, t)) == Groups(s.p, ids, k, t)
  {
    hide Split, Group, Tied;
    var groups := Groups(s.p, ids, k, t);
    if ids[t - 1] != -1 {
      assert groups == groups[..k - 1] + [groups[k - 1]];
    }
  }

  lemma {:induction false} AgreeAtGap(s: Scene, ids: seq<int>, seeds: seq<int>, t: nat, k: nat) returns (k': nat)
    requires Labelling(s, ids, seeds) && s.minPts == 2 && 0 < t < |s.p| && !Tied(s, t - 1)
    requires Started(seeds, t, k) && Agree(s, ids, t, k)
    ensures Started(seeds, t + 1, k') && Agree(s, ids, t + 1, k')
  {
    hide Cover, Closed, Rooted, SeedsInOrder;
    k' := k;
    if ids[t] != -1 {
      PairFreshLabel(s, ids, seeds, t, k);
      k' := k + 1;
      LabelUnseen(s, ids, seeds, t, k);
      FreshStarted(s, ids, seeds, t, k);
    } else {
      NoiseStarted(s, ids, seeds, t, k);
    }
    RunsAtGap(s, ids, seeds, t, k);
    AgreeAfterGap(s, ids, t, k, k');
  }

  lemma {:induction false} AgreeAfterGap(s: Scene, ids: seq<int>, t: nat, k: nat, k': nat)
    requires |ids| == |s.p| && 0 < t < |s.p| && !Tied(s, t - 1)
    requires LongRuns(Split(s.p, s.eps, t)) == Groups(s.p, ids, k, t)
    requires if ids[t] == -1 then k' == k else ids[t] == k && k' == k + 1 && forall j :: 0 <= j < t ==> ids[j] != k
    ensures Agree(s, ids, t + 1, k')
  {
    SplitAtGap(s.p, s.eps, t);
    hide Split, Group, Tied;
    var runs := Split(s.p, s.eps, t);
    var runs' := Split(s.p, s.eps, t + 1);
    assert runs'[..|runs'| - 1] == runs;
    hide LongRuns;
    if ids[t] == -1 {
      GroupsExtend(s.p, ids, t, k);
    } else {
      NewGroup(s.p, ids, t, k);
    }
    hide Groups;
  }

  lemma {:induction false} SplitAtGap(p: seq<real>, eps: real, t: nat)
    requires 0 < t < |p| && p[t] - p[t - 1] > eps
    ensures Split(p, eps, t + 1) == Split(p, eps, t) + [[p[t]]]
  {
  }

  lemma {:induction false} NewGroup(p: seq<real>, ids: seq<int>, t: nat, k: nat)
    requires t < |p| == |ids| && ids[t] == k && forall j :: 0 <= j < t ==> ids[j] != k
    ensures Groups(p, ids, k + 1, t + 1) == Groups(p, ids, k, t) + [[p[t]]]
  {
    GroupAbsent(p, ids, k, t);
    var before, after := Groups(p, ids, k, t), Groups(p, ids, k + 1, t + 1);
    forall c | 0 <= c < k ensures after[c] == before[c] {
      assert Group(p, ids, c, t + 1) == Group(p, ids, c, t) + [] == Group(p, ids, c, t);
    }
    assert Group(p, ids, k, t + 1) == Group(p, ids, k, t) + [p[t]] == [p[t]];
    assert after == before + [[p[t]]];
  }

  lemma {:induction false} FreshStarted(s: Scene, ids: seq<int>, seeds: seq<int>, t: nat, k: nat)
    requires |ids| == |s.p| && SeedsInOrder(s, ids, seeds, |s.p|) && Started(seeds, t, k)
    requires k < |seeds| && seeds[k] == t
    ensures Started(seeds, t + 1, k + 1)
  {
  }

  lemma {:induction false} NoiseStarted(s: Scene, ids: seq<int>, seeds: seq<int>, t: nat, k: nat)
    requires |ids| == |s.p| && SeedsInOrder(s, ids, seeds, |s.p|) && Started(seeds, t, k)
    requires t < |s.p| && ids[t] == -1
    ensures Started(seeds, t + 1, k)
  {
  }

  lemma {:induction false} LabelUnseen(s: Scene, ids: seq<int>, seeds: seq<int>, t: nat, k: nat)
    requires Labelling(s, ids, seeds) && s.minPts == 2 && t < |s.p| && k < |seeds| && seeds[k] == t
    ensures forall j :: 0 <= j < t ==> ids[j] != k
  {
    hide Cover, Closed, Rooted, SeedsInOrder;
    forall j | 0 <= j < t ensures ids[j] != k {
      PairLabelledIsCore(s, ids, seeds, j);
      if ids[j] != -1 {
        SeedIsFirst(s, ids, seeds, j);
      }
    }
  }

  /** With `minPts == 2` the clusters are the runs of length at least 2 between gaps above eps. */
  lemma {:induction false} PairClustersAreLongRuns(s: Scene, ids: seq<int>, seeds: seq<int>)
    requires Labelling(s, ids, seeds) && s.minPts == 2
    ensures Groups(s.p, ids, |seeds|, |s.p|) == LongRuns(Split(s.p, s.eps, |s.p|))
  {
    hide Cover, Closed, Rooted, Agree;
    if s.p == [] {
      DistinctFits(seeds, 0);
    } else {
      var k: nat := AgreeAtFirst(s, ids, seeds);
      var t: nat := 1;
      while t < |s.p|
        invariant 1 <= t <= |s.p| && Started(seeds, t, k) && Agree(s, ids, t, k)
      {
        if Tied(s, t - 1) {
          AgreeWhenTied(s, ids, seeds, t, k);
        } else {
          k := AgreeAtGap(s, ids, seeds, t, k);
        }
        t := t + 1;
      }
      RunsAtGap(s, ids, seeds, t, k);
      assert seeds != [] ==> seeds[|seeds| - 1] < |s.p|;
    }
  }
}
