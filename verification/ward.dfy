/** `ward(data, k)` of docs/cluster.js, pivot_app/cluster-lca.js and
    pivot_app/cluster-lca-single.js: agglomerative clustering that starts from one cluster
    per row and, while more than `k` clusters remain, merges the pair of least Ward cost
    `n1 * n2 / (n1 + n2) * |c1 - c2|^2`. */
module Ward {
  import opened RealArith
  import opened Linalg
  import opened Agglomeration

  /** A cluster: the rows it holds (`idx`) and its centroid. */
  datatype Cluster = Cluster(idx: seq<nat>, centroid: Vector)

  /** The member lists of the clusters, in cluster order. */
  function Members(cs: seq<Cluster>): (g: seq<seq<nat>>)
    ensures |g| == |cs| && forall q :: 0 <= q < |cs| ==> g[q] == cs[q].idx
  {
    seq(|cs|, q requires 0 <= q < |cs| => cs[q].idx)
  }

  /** Every cluster holds at least one row and has a centroid of `dim` coordinates. */
  predicate Shaped(cs: seq<Cluster>, dim: nat) {
    forall c :: c in cs ==> |c.idx| > 0 && |c.centroid| == dim
  }

  /** `clusters.push({ idx: [i], centroid: data[i].slice() })` for every row `i`. */
  function Singletons(data: Matrix, dim: nat): (cs: seq<Cluster>)
    requires Rectangular(data, dim)
    ensures |cs| == |data| && Shaped(cs, dim)
    ensures Partition(Members(cs), |data|)
  {
    var cs := seq(|data|, i requires 0 <= i < |data| => Cluster([i], data[i]));
    SingletonRows(cs, |data|);
    cs
  }

  /** `dist(c1, c2)`: the Ward cost `n1 * n2 / (n1 + n2) * |c1.centroid - c2.centroid|^2`. */
  function WardCost(c1: Cluster, c2: Cluster): real
    requires |c1.centroid| == |c2.centroid| && |c1.idx| + |c2.idx| > 0
  {
    var n1, n2 := |c1.idx| as real, |c2.idx| as real;
    (n1 * n2) / (n1 + n2) * SqDist(c1.centroid, c2.centroid)
  }

  /** The costs the scan reads: pair `(x, y)` of positions costs `dist(clusters[x], clusters[y])`. */
  function PairCosts(cs: seq<Cluster>, dim: nat): (cost: (nat, nat) -> real)
    requires Shaped(cs, dim)
    ensures forall x, y :: 0 <= x < y < |cs| ==> cost(x, y) == WardCost(cs[x], cs[y])
  {
    (x: nat, y: nat) => if x < y < |cs| then WardCost(cs[x], cs[y]) else 0.0
  }

  /** The merged cluster: `mergedIdx = [...c1.idx, ...c2.idx]` and a centroid whose every
      coordinate is the size-weighted average of the two centroids. */
  function Merged(c1: Cluster, c2: Cluster): (m: Cluster)
    requires |c1.centroid| == |c2.centroid| && |c1.idx| + |c2.idx| > 0
    ensures m.idx == c1.idx + c2.idx && |m.centroid| == |c1.centroid|
    ensures forall t :: 0 <= t < |m.centroid| ==>
      m.centroid[t] * (|m.idx| as real) == c1.centroid[t] * (|c1.idx| as real) + c2.centroid[t] * (|c2.idx| as real)
  {
    var idx := c1.idx + c2.idx;
    var total := |idx| as real;
    var centroid := seq(|c1.centroid|, t requires 0 <= t < |c1.centroid| =>
      (c1.centroid[t] * (|c1.idx| as real) + c2.centroid[t] * (|c2.idx| as real)) / total);
    forall t | 0 <= t < |centroid|
      ensures centroid[t] * total == c1.centroid[t] * (|c1.idx| as real) + c2.centroid[t] * (|c2.idx| as real)
    {
      QuotientTimesDivisor(c1.centroid[t] * (|c1.idx| as real) + c2.centroid[t] * (|c2.idx| as real), total);
    }
    Cluster(idx, centroid)
  }

  /** The pair one iteration of the `while` loop merges. */
  function Choose(cs: seq<Cluster>, dim: nat): (pr: Pair)
    requires |cs| >= 2 && Shaped(cs, dim)
    ensures pr.i < pr.j < |cs|
    ensures forall x, y :: 0 <= x < y < |cs| ==> WardCost(cs[pr.i], cs[pr.j]) <= WardCost(cs[x], cs[y])
    ensures forall x, y :: 0 <= x < y < |cs| && ScanBefore(x, y, pr.i, pr.j) ==>
      WardCost(cs[pr.i], cs[pr.j]) < WardCost(cs[x], cs[y])
  {
    Pick(|cs|, PairCosts(cs, dim))
  }

  /** One iteration of the `while` loop: the chosen pair is spliced out and the merged
      cluster pushed last. One cluster fewer remains, and the rows are the same. */
  function Step(cs: seq<Cluster>, dim: nat): (r: seq<Cluster>)
    requires |cs| >= 2 && Shaped(cs, dim)
    ensures |r| == |cs| - 1 && Shaped(r, dim)
    ensures var pr := Choose(cs, dim);
      r == Splice(cs, pr.i, pr.j) + [Merged(cs[pr.i], cs[pr.j])]
    ensures multiset(Flatten(Members(r))) == multiset(Flatten(Members(cs)))
  {
    var pr := Choose(cs, dim);
    var m := Merged(cs[pr.i], cs[pr.j]);
    var r := Splice(cs, pr.i, pr.j) + [m];
    assert cs[pr.i] in cs && cs[pr.j] in cs;
    assert forall c :: c in r ==> c in cs || c == m;
    MembersStep(cs, pr.i, pr.j, m);
    SpliceKeepsRows(Members(cs), pr.i, pr.j);
    r
  }

  /** The `while (clusters.length > k)` loop: it stops with exactly `min(n, k)` clusters
      holding the same rows. */
  function Agglomerate(cs: seq<Cluster>, dim: nat, k: nat): (r: seq<Cluster>)
    requires k >= 1 && Shaped(cs, dim)
    ensures |r| == Min(|cs|, k) && Shaped(r, dim)
    ensures multiset(Flatten(Members(r))) == multiset(Flatten(Members(cs)))
    decreases |cs|
  {
    if |cs| <= k then cs else Agglomerate(Step(cs, dim), dim, k)
  }

  /** The costs `bestD` of the merges the loop performs, in order: one per merge, so
      `max(0, n - k)` of them. The first is the least cost among the starting clusters. */
  function MergeCosts(cs: seq<Cluster>, dim: nat, k: nat): (costs: seq<real>)
    requires k >= 1 && Shaped(cs, dim)
    ensures |costs| == |cs| - Min(|cs|, k)
    ensures |cs| > k ==> forall x, y :: 0 <= x < y < |cs| ==> costs[0] <= WardCost(cs[x], cs[y])
    decreases |cs|
  {
    if |cs| <= k then []
    else
      var pr := Choose(cs, dim);
      [WardCost(cs[pr.i], cs[pr.j])] + MergeCosts(Step(cs, dim), dim, k)
  }

  /** The clusters `ward` ends with. */
  function FinalClusters(data: Matrix, dim: nat, k: nat): (cs: seq<Cluster>)
    requires k >= 1 && Rectangular(data, dim)
    ensures |cs| == Min(|data|, k) && Shaped(cs, dim)
    ensures Partition(Members(cs), |data|)
  {
    Agglomerate(Singletons(data, dim), dim, k)
  }

  /** `ward(data, k)`: one label per row, each a position in the final cluster list. */
  function Ward(data: Matrix, dim: nat, k: nat): (labels: seq<nat>)
    requires k >= 1 && Rectangular(data, dim)
    ensures |labels| == |data|
    ensures forall r :: 0 <= r < |data| ==> labels[r] < Min(|data|, k)
  {
    var cs := FinalClusters(data, dim, k);
    PartitionLabels(|data|, Members(cs));
    LabelsOf(|data|, Members(cs))
  }

  /** Each row is labelled with the position of the final cluster holding it, and every
      label in `0 .. min(n, k) - 1` is used: the first row of cluster `t` is labelled `t`. */
  lemma WardLabels(data: Matrix, dim: nat, k: nat)
    requires k >= 1 && Rectangular(data, dim)
    ensures var cs, labels := FinalClusters(data, dim, k), Ward(data, dim, k);
      && (forall r :: 0 <= r < |data| ==> r in cs[labels[r]].idx)
      && (forall t :: 0 <= t < |cs| ==> cs[t].idx[0] < |data| && labels[cs[t].idx[0]] == t)
  {
    var cs := FinalClusters(data, dim, k);
    var g := Members(cs);
    PartitionLabels(|data|, g);
    forall t | 0 <= t < |cs|
      ensures cs[t].idx[0] < |data|
    {
      assert cs[t] in cs;
      assert g[t][0] == cs[t].idx[0];
    }
  }

  /** Two rows share a label exactly when one cluster of `cs` holds both. */
  predicate LabelsFollowClusters(labels: seq<nat>, cs: seq<Cluster>) {
    forall r1, r2 :: 0 <= r1 < |labels| && 0 <= r2 < |labels| ==>
      (labels[r1] == labels[r2] <==> exists t :: 0 <= t < |cs| && r1 in cs[t].idx && r2 in cs[t].idx)
  }

  /** Two rows share a label exactly when one final cluster holds both. */
  lemma WardSameCluster(data: Matrix, dim: nat, k: nat)
    requires k >= 1 && Rectangular(data, dim)
    ensures LabelsFollowClusters(Ward(data, dim, k), FinalClusters(data, dim, k))
  {
    PartitionLabels(|data|, Members(FinalClusters(data, dim, k)));
  }

  /** With at most `k` rows no merge happens and the labels are `0, 1, ..., n - 1`,
      whatever the data. */
  lemma WardWithoutMerges(data: Matrix, dim: nat, k: nat)
    requires k >= 1 && Rectangular(data, dim) && |data| <= k
    ensures Ward(data, dim, k) == Range(|data|)
  {
    var cs := FinalClusters(data, dim, k);
    PartitionLabels(|data|, Members(cs));
    var labels := Ward(data, dim, k);
    forall r | 0 <= r < |data|
      ensures labels[r] == r
    {
      assert r in Members(cs)[r];
    }
  }

  /** Splicing commutes with reading off the member lists. */
  lemma MembersStep(cs: seq<Cluster>, i: nat, j: nat, m: Cluster)
    requires i < j < |cs|
    ensures Members(Splice(cs, i, j) + [m]) == Splice(Members(cs), i, j) + [m.idx]
  {
    var l, r := Members(Splice(cs, i, j) + [m]), Splice(Members(cs), i, j) + [m.idx];
    assert |l| == |r|;
    forall q | 0 <= q < |l|
      ensures l[q] == r[q]
    {
      if q < i {
      } else if q < j - 1 {
        assert Splice(cs, i, j)[q] == cs[q + 1];
        assert Splice(Members(cs), i, j)[q] == Members(cs)[q + 1];
      } else if q < |cs| - 2 {
        assert Splice(cs, i, j)[q] == cs[q + 2];
        assert Splice(Members(cs), i, j)[q] == Members(cs)[q + 2];
      }
    }
  }

  /** The singleton clusters list the rows in order. */
  lemma {:induction false} SingletonRows(cs: seq<Cluster>, n: nat)
    requires n <= |cs| && forall i :: 0 <= i < |cs| ==> cs[i].idx == [i]
    ensures multiset(Flatten(Members(cs[..n]))) == multiset(Range(n))
    ensures n == |cs| ==> Partition(Members(cs), n)
  {
    if n > 0 {
      SingletonRows(cs, n - 1);
      assert Members(cs[..n]) == Members(cs[..n - 1]) + [[n - 1]];
      FlattenAppend(Members(cs[..n - 1]), [[n - 1]]);
      FlattenSingle([n - 1]);
      assert Range(n) == Range(n - 1) + [n - 1];
    }
    assert cs[..|cs|] == cs;
  }

  /** Every listed row exists in `data`. */
  predicate RowsIn(data: Matrix, idx: seq<nat>) {
    forall a :: 0 <= a < |idx| ==> idx[a] < |data|
  }

  /** Coordinate `t` summed over the rows `idx`. */
  function PointSum(data: Matrix, dim: nat, idx: seq<nat>, t: nat): real
    requires Rectangular(data, dim) && RowsIn(data, idx) && t < dim
  {
    if |idx| == 0 then 0.0
    else PointSum(data, dim, idx[..|idx| - 1], t) + data[idx[|idx| - 1]][t]
  }

  /** The centroid of `c` is the mean of its rows: in every coordinate, centroid times size
      is the sum over the rows. */
  predicate MeanCentroid(data: Matrix, dim: nat, c: Cluster)
    requires Rectangular(data, dim) && |c.centroid| == dim
  {
    RowsIn(data, c.idx) &&
    forall t :: 0 <= t < dim ==> c.centroid[t] * (|c.idx| as real) == PointSum(data, dim, c.idx, t)
  }

  predicate MeanCentroids(data: Matrix, dim: nat, cs: seq<Cluster>)
    requires Rectangular(data, dim) && Shaped(cs, dim)
  {
    forall c :: c in cs ==> MeanCentroid(data, dim, c)
  }

  lemma {:induction false} PointSumAppend(data: Matrix, dim: nat, a: seq<nat>, b: seq<nat>, t: nat)
    requires Rectangular(data, dim) && RowsIn(data, a) && RowsIn(data, b) && t < dim
    ensures RowsIn(data, a + b)
    ensures PointSum(data, dim, a + b, t) == PointSum(data, dim, a, t) + PointSum(data, dim, b, t)
    decreases |b|
  {
    if |b| == 0 {
      assert a + b == a;
    } else {
      var last := |b| - 1;
      assert (a + b)[..|a + b| - 1] == a + b[..last];
      PointSumAppend(data, dim, a, b[..last], t);
    }
  }

  /** Size-weighted averaging keeps centroids equal to member means. */
  lemma MergedMean(data: Matrix, dim: nat, c1: Cluster, c2: Cluster)
    requires Rectangular(data, dim) && |c1.centroid| == dim && |c2.centroid| == dim && |c1.idx| + |c2.idx| > 0
    requires MeanCentroid(data, dim, c1) && MeanCentroid(data, dim, c2)
    ensures MeanCentroid(data, dim, Merged(c1, c2))
  {
    var m := Merged(c1, c2);
    RowsInAppend(data, c1.idx, c2.idx);
    forall t | 0 <= t < dim
      ensures m.centroid[t] * (|m.idx| as real) == PointSum(data, dim, m.idx, t)
    {
      MergedMeanAt(data, dim, c1, c2, t);
    }
  }

  lemma RowsInAppend(data: Matrix, a: seq<nat>, b: seq<nat>)
    requires RowsIn(data, a) && RowsIn(data, b)
    ensures RowsIn(data, a + b)
  {
    assert forall x :: 0 <= x < |a + b| ==> (a + b)[x] in a || (a + b)[x] in b;
  }

  lemma MergedMeanAt(data: Matrix, dim: nat, c1: Cluster, c2: Cluster, t: nat)
    requires Rectangular(data, dim) && |c1.centroid| == dim && |c2.centroid| == dim && |c1.idx| + |c2.idx| > 0
    requires MeanCentroid(data, dim, c1) && MeanCentroid(data, dim, c2) && t < dim
    ensures RowsIn(data, Merged(c1, c2).idx)
    ensures Merged(c1, c2).centroid[t] * (|Merged(c1, c2).idx| as real) == PointSum(data, dim, Merged(c1, c2).idx, t)
  {
    PointSumAppend(data, dim, c1.idx, c2.idx, t);
    var a, b := c1.centroid[t] * (|c1.idx| as real), c2.centroid[t] * (|c2.idx| as real);
    assert Merged(c1, c2).centroid[t] * ((|c1.idx| + |c2.idx|) as real) == a + b;
  }

  lemma StepMeans(data: Matrix, dim: nat, cs: seq<Cluster>)
    requires Rectangular(data, dim) && |cs| >= 2 && Shaped(cs, dim) && MeanCentroids(data, dim, cs)
    ensures MeanCentroids(data, dim, Step(cs, dim))
  {
    var pr := Choose(cs, dim);
    assert cs[pr.i] in cs && cs[pr.j] in cs;
    var m := Merged(cs[pr.i], cs[pr.j]);
    MergedMean(data, dim, cs[pr.i], cs[pr.j]);
    MeansAfterSplice(data, dim, cs, pr.i, pr.j, m);
    assert Step(cs, dim) == Splice(cs, pr.i, pr.j) + [m];
  }

  /** Replacing two clusters by one whose centroid is the mean of its rows keeps every
      centroid a mean. */
  lemma MeansAfterSplice(data: Matrix, dim: nat, cs: seq<Cluster>, i: nat, j: nat, m: Cluster)
    requires Rectangular(data, dim) && i < j < |cs| && Shaped(cs, dim) && MeanCentroids(data, dim, cs)
    requires |m.idx| > 0 && |m.centroid| == dim && MeanCentroid(data, dim, m)
    ensures Shaped(Splice(cs, i, j) + [m], dim) && MeanCentroids(data, dim, Splice(cs, i, j) + [m])
  {
    assert forall c :: c in Splice(cs, i, j) + [m] ==> c in cs || c == m;
  }

  lemma {:induction false} AgglomerateMeans(data: Matrix, dim: nat, cs: seq<Cluster>, k: nat)
    requires Rectangular(data, dim) && k >= 1 && Shaped(cs, dim) && MeanCentroids(data, dim, cs)
    ensures MeanCentroids(data, dim, Agglomerate(cs, dim, k))
    decreases |cs|
  {
    if |cs| > k {
      StepMeans(data, dim, cs);
      AgglomerateMeans(data, dim, Step(cs, dim), k);
    }
  }

  /** Every final cluster's centroid is the mean of the rows it holds. */
  lemma CentroidIsMean(data: Matrix, dim: nat, k: nat)
    requires k >= 1 && Rectangular(data, dim)
    ensures MeanCentroids(data, dim, FinalClusters(data, dim, k))
  {
    var cs := Singletons(data, dim);
    forall c | c in cs
      ensures MeanCentroid(data, dim, c)
    {
      var i :| 0 <= i < |cs| && cs[i] == c;
      forall t | 0 <= t < dim
        ensures c.centroid[t] * (|c.idx| as real) == PointSum(data, dim, c.idx, t)
      {
        assert c.idx[..0] == [];
      }
    }
    AgglomerateMeans(data, dim, cs, k);
  }

  /** Merging two clusters with the same centroid keeps that centroid. */
  lemma MergedSamePoint(c1: Cluster, c2: Cluster, point: Vector)
    requires c1.centroid == point && c2.centroid == point && |c1.idx| + |c2.idx| > 0
    ensures Merged(c1, c2).centroid == point
  {
    var m := Merged(c1, c2);
    forall t | 0 <= t < |point|
      ensures m.centroid[t] == point[t]
    {
      var n1, n2 := |c1.idx| as real, |c2.idx| as real;
      Distribute(n1, n2, point[t]);
      assert point[t] * n1 + point[t] * n2 == point[t] * (n1 + n2);
      CancelFactor(m.centroid[t], point[t], n1 + n2);
    }
  }

  /** When every cluster has the same centroid every cost is zero, so the first two
      clusters are merged and the merged cluster has that centroid too. */
  lemma SamePointMergesFirst(cs: seq<Cluster>, dim: nat, point: Vector)
    requires |cs| >= 2 && Shaped(cs, dim) && forall c :: c in cs ==> c.centroid == point
    ensures Choose(cs, dim) == Pair(0, 1)
    ensures WardCost(cs[0], cs[1]) == 0.0
    ensures forall c :: c in Step(cs, dim) ==> c.centroid == point
  {
    forall x, y | 0 <= x < y < |cs|
      ensures PairCosts(cs, dim)(x, y) == 0.0
    {
      assert cs[x] in cs && cs[y] in cs;
      SqDistSelf(point);
    }
    EqualCostsPickFirst(|cs|, PairCosts(cs, dim), 0.0);
    assert cs[0] in cs && cs[1] in cs;
    MergedSamePoint(cs[0], cs[1], point);
    assert forall c :: c in Step(cs, dim) ==> c in cs || c == Merged(cs[0], cs[1]);
  }

  /** When all rows are the same point, every merge costs zero and joins the first two
      clusters of its iteration. */
  lemma {:induction false} SamePointCosts(cs: seq<Cluster>, dim: nat, k: nat, point: Vector)
    requires k >= 1 && Shaped(cs, dim) && forall c :: c in cs ==> c.centroid == point
    ensures forall a :: 0 <= a < |MergeCosts(cs, dim, k)| ==> MergeCosts(cs, dim, k)[a] == 0.0
    decreases |cs|
  {
    if |cs| > k {
      SamePointMergesFirst(cs, dim, point);
      SamePointCosts(Step(cs, dim), dim, k, point);
    }
  }
}
