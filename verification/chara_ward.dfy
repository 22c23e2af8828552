/** The `ward` of pivot_app/cluster-lca-chara.js. It keeps an explicit `size` per cluster,
    costs a candidate pair by the size-weighted squared distances of both centroids to their
    merged centroid divided by the merged size, and drops the merged pair with `filter`
    instead of two `splice` calls. */
module CharaWard {
  import opened RealArith
  import opened Linalg
  import opened Agglomeration
  import Ward

  /** A cluster: its rows `points`, its centroid and its `size`. */
  datatype CharaCluster = CharaCluster(points: seq<nat>, centroid: Vector, size: nat)

  /** Every cluster has a positive size and a centroid of `dim` coordinates. */
  predicate Shaped(cs: seq<CharaCluster>, dim: nat) {
    forall c :: c in cs ==> c.size > 0 && |c.centroid| == dim
  }

  /** The `size` field counts the cluster's rows. */
  predicate SizesMatch(cs: seq<CharaCluster>) {
    forall c :: c in cs ==> c.size == |c.points|
  }

  function Members(cs: seq<CharaCluster>): (g: seq<seq<nat>>)
    ensures |g| == |cs| && forall q :: 0 <= q < |cs| ==> g[q] == cs[q].points
  {
    seq(|cs|, q requires 0 <= q < |cs| => cs[q].points)
  }

  /** `data.map((row, idx) => ({ points: [idx], centroid: row.slice(), size: 1 }))`. */
  function Initial(data: Matrix, dim: nat): (cs: seq<CharaCluster>)
    requires Rectangular(data, dim)
    ensures |cs| == |data| && Shaped(cs, dim) && SizesMatch(cs)
    ensures Partition(Members(cs), |data|)
  {
    var cs := seq(|data|, i requires 0 <= i < |data| => CharaCluster([i], data[i], 1));
    var forgotten := seq(|data|, i requires 0 <= i < |data| => Ward.Cluster([i], data[i]));
    Ward.SingletonRows(forgotten, |data|);
    assert Members(cs) == Ward.Members(forgotten);
    cs
  }

  /** The `mergedCentroid` of a pair: the size-weighted average of the two centroids. */
  function MergedCentroid(a: CharaCluster, b: CharaCluster): (m: Vector)
    requires |a.centroid| == |b.centroid| && a.size + b.size > 0
    ensures |m| == |a.centroid|
  {
    var total := (a.size + b.size) as real;
    seq(|a.centroid|, t requires 0 <= t < |a.centroid| =>
      (a.centroid[t] * (a.size as real) + b.centroid[t] * (b.size as real)) / total)
  }

  /** `d = (a.size * dist(a.centroid, m) + b.size * dist(b.centroid, m)) / mergedSize`. */
  function CharaCost(a: CharaCluster, b: CharaCluster): real
    requires |a.centroid| == |b.centroid| && a.size + b.size > 0
  {
    var m := MergedCentroid(a, b);
    ((a.size as real) * SqDist(a.centroid, m) + (b.size as real) * SqDist(b.centroid, m)) / ((a.size + b.size) as real)
  }

  /** No merge has a negative cost. */
  lemma CharaCostNonNegative(a: CharaCluster, b: CharaCluster)
    requires |a.centroid| == |b.centroid| && a.size + b.size > 0
    ensures CharaCost(a, b) >= 0.0
  {
    var m := MergedCentroid(a, b);
    var da, db := SqDist(a.centroid, m), SqDist(b.centroid, m);
    SqDistNonNegative(a.centroid, m);
    SqDistNonNegative(b.centroid, m);
    MulNonNegative(a.size as real, da);
    MulNonNegative(b.size as real, db);
    QuotientNonNegative((a.size as real) * da + (b.size as real) * db, (a.size + b.size) as real);
  }

  function PairCosts(cs: seq<CharaCluster>, dim: nat): (cost: (nat, nat) -> real)
    requires Shaped(cs, dim)
    ensures forall x, y :: 0 <= x < y < |cs| ==> cost(x, y) == CharaCost(cs[x], cs[y])
  {
    (x: nat, y: nat) => if x < y < |cs| then CharaCost(cs[x], cs[y]) else 0.0
  }

  /** The `merged` record: both point lists, the summed size and the merged centroid. */
  function CharaMerged(a: CharaCluster, b: CharaCluster): (m: CharaCluster)
    requires |a.centroid| == |b.centroid| && a.size + b.size > 0
  {
    CharaCluster(a.points + b.points, MergedCentroid(a, b), a.size + b.size)
  }

  function Choose(cs: seq<CharaCluster>, dim: nat): (pr: Pair)
    requires |cs| >= 2 && Shaped(cs, dim)
    ensures pr.i < pr.j < |cs|
    ensures forall x, y :: 0 <= x < y < |cs| ==> CharaCost(cs[pr.i], cs[pr.j]) <= CharaCost(cs[x], cs[y])
    ensures forall x, y :: 0 <= x < y < |cs| && ScanBefore(x, y, pr.i, pr.j) ==>
      CharaCost(cs[pr.i], cs[pr.j]) < CharaCost(cs[x], cs[y])
  {
    Pick(|cs|, PairCosts(cs, dim))
  }

  /** One iteration: `clusters.filter(...)` drops the chosen pair and the merged cluster is
      pushed last. The result is what the two `splice` calls of the other copies leave. */
  function Step(cs: seq<CharaCluster>, dim: nat): (r: seq<CharaCluster>)
    requires |cs| >= 2 && Shaped(cs, dim)
    ensures |r| == |cs| - 1 && Shaped(r, dim)
    ensures var pr := Choose(cs, dim);
      r == Splice(cs, pr.i, pr.j) + [CharaMerged(cs[pr.i], cs[pr.j])]
    ensures multiset(Flatten(Members(r))) == multiset(Flatten(Members(cs)))
    ensures SizesMatch(cs) ==> SizesMatch(r)
  {
    var pr := Choose(cs, dim);
    var m := CharaMerged(cs[pr.i], cs[pr.j]);
    FilterIsSplice(cs, pr.i, pr.j);
    SpliceKeeps(cs, dim, pr.i, pr.j, m);
    Filter(cs, pr.i, pr.j) + [m]
  }

  /** Replacing positions `i` and `j` by a cluster that holds both their rows keeps the shape,
      the row counts and the multiset of rows. */
  lemma SpliceKeeps(cs: seq<CharaCluster>, dim: nat, i: nat, j: nat, m: CharaCluster)
    requires i < j < |cs| && Shaped(cs, dim)
    requires m == CharaMerged(cs[i], cs[j])
    ensures Shaped(Splice(cs, i, j) + [m], dim)
    ensures multiset(Flatten(Members(Splice(cs, i, j) + [m]))) == multiset(Flatten(Members(cs)))
    ensures SizesMatch(cs) ==> SizesMatch(Splice(cs, i, j) + [m])
  {
    var r := Splice(cs, i, j) + [m];
    assert cs[i] in cs && cs[j] in cs;
    assert forall c :: c in r ==> c in cs || c == m;
    MembersStep(cs, i, j, m);
    SpliceKeepsRows(Members(cs), i, j);
  }

  function Agglomerate(cs: seq<CharaCluster>, dim: nat, k: nat): (r: seq<CharaCluster>)
    requires k >= 1 && Shaped(cs, dim)
    ensures |r| == Min(|cs|, k) && Shaped(r, dim)
    ensures multiset(Flatten(Members(r))) == multiset(Flatten(Members(cs)))
    ensures SizesMatch(cs) ==> SizesMatch(r)
    decreases |cs|
  {
    if |cs| <= k then cs else Agglomerate(Step(cs, dim), dim, k)
  }

  function FinalClusters(data: Matrix, dim: nat, k: nat): (cs: seq<CharaCluster>)
    requires k >= 1 && Rectangular(data, dim)
    ensures |cs| == Min(|data|, k) && Shaped(cs, dim) && SizesMatch(cs)
    ensures Partition(Members(cs), |data|)
  {
    Agglomerate(Initial(data, dim), dim, k)
  }

  /** `ward(data, k)` of cluster-lca-chara.js: one label per row, each the position of the
      final cluster holding the row. */
  function CharaWard(data: Matrix, dim: nat, k: nat): (labels: seq<nat>)
    requires k >= 1 && Rectangular(data, dim)
    ensures |labels| == |data|
    ensures forall r :: 0 <= r < |data| ==> labels[r] < Min(|data|, k)
    ensures forall r :: 0 <= r < |data| ==> r in FinalClusters(data, dim, k)[labels[r]].points
  {
    var cs := FinalClusters(data, dim, k);
    PartitionLabels(|data|, Members(cs));
    LabelsOf(|data|, Members(cs))
  }

  lemma MembersStep(cs: seq<CharaCluster>, i: nat, j: nat, m: CharaCluster)
    requires i < j < |cs|
    ensures Members(Splice(cs, i, j) + [m]) == Splice(Members(cs), i, j) + [m.points]
  {
    var l, r := Members(Splice(cs, i, j) + [m]), Splice(Members(cs), i, j) + [m.points];
    assert |l| == |r|;
    forall q | 0 <= q < |l|
      ensures l[q] == r[q]
    {
      if q < i {
      } else if q < j - 1 {
        assert Splice(cs, i, j)[q] == cs[q + 1];
        assert Splice(Members(cs), i, j)[q] == Members(cs)[q + 1];
      } else if q < |cs| - 2 {
        assert Splice(cs, i, j)[q] == cs[q + 2];
        assert Splice(Members(cs), i, j)[q] == Members(cs)[q + 2];
      }
    }
  }

  /** The same cluster without its `size` field, as the other copies store it. */
  function Forget(c: CharaCluster): Ward.Cluster {
    Ward.Cluster(c.points, c.centroid)
  }

  /** While `size` counts the rows, the merged cluster is the one the other copies build. */
  lemma MergedAgrees(a: CharaCluster, b: CharaCluster)
    requires |a.centroid| == |b.centroid| && a.size == |a.points| && b.size == |b.points| && a.size + b.size > 0
    ensures Forget(CharaMerged(a, b)) == Ward.Merged(Forget(a), Forget(b))
  {
  }

  /** This copy's cost is the Ward cost `n1 * n2 / (n1 + n2) * |c1 - c2|^2` divided by the
      merged size `n1 + n2`. */
  lemma CostRelation(a: CharaCluster, b: CharaCluster)
    requires |a.centroid| == |b.centroid| && a.size == |a.points| && b.size == |b.points| && a.size > 0 && b.size > 0
    ensures CharaCost(a, b) == Ward.WardCost(Forget(a), Forget(b)) / ((a.size + b.size) as real)
  {
    var sa, sb := a.size as real, b.size as real;
    WardCostForm(a, b);
    var wa, wb := sb / (sa + sb), sa / (sa + sb);
    CharaCostShares(a, b, wa, wb);
    CostFromShares(sa, sb, wa, wb, SqDist(a.centroid, b.centroid), CharaCost(a, b),
      Ward.WardCost(Forget(a), Forget(b)), (a.size + b.size) as real);
  }

  /** This copy's cost written with the shares `wa`, `wb` and the centroids' squared distance. */
  lemma CharaCostShares(a: CharaCluster, b: CharaCluster, wa: real, wb: real)
    requires |a.centroid| == |b.centroid| && a.size > 0 && b.size > 0
    requires wa == (b.size as real) / ((a.size as real) + (b.size as real))
    requires wb == (a.size as real) / ((a.size as real) + (b.size as real))
    ensures CharaCost(a, b) == ((a.size as real) * (Sq(wa) * SqDist(a.centroid, b.centroid)) +
      (b.size as real) * (Sq(wb) * SqDist(a.centroid, b.centroid))) / ((a.size as real) + (b.size as real))
  {
    DistancesToMerged(a, b, wa, wb);
    CharaCostForm(a, b);
  }

  lemma CharaCostForm(a: CharaCluster, b: CharaCluster)
    requires |a.centroid| == |b.centroid| && a.size > 0 && b.size > 0
    ensures CharaCost(a, b) == ((a.size as real) * SqDist(a.centroid, MergedCentroid(a, b)) +
      (b.size as real) * SqDist(b.centroid, MergedCentroid(a, b))) / ((a.size as real) + (b.size as real))
  {
  }

  lemma WardCostForm(a: CharaCluster, b: CharaCluster)
    requires |a.centroid| == |b.centroid| && a.size == |a.points| && b.size == |b.points| && a.size > 0
    ensures Ward.WardCost(Forget(a), Forget(b)) ==
      (a.size as real) * (b.size as real) / ((a.size as real) + (b.size as real)) * SqDist(a.centroid, b.centroid)
  {
    assert |Forget(a).idx| as real == a.size as real && |Forget(b).idx| as real == b.size as real;
  }

  /** The size-weighted spread about the merged centroid, in terms of the centroids' distance
      `d`: `cc` is this copy's cost and `wc` the Ward cost. */
  lemma CostFromShares(sa: real, sb: real, wa: real, wb: real, d: real, cc: real, wc: real, total: real)
    requires sa > 0.0 && sb > 0.0 && total == sa + sb && wa == sb / (sa + sb) && wb == sa / (sa + sb)
    requires cc == (sa * (Sq(wa) * d) + sb * (Sq(wb) * d)) / (sa + sb) && wc == sa * sb / (sa + sb) * d
    ensures cc == wc / total
  {
    WeightedSpread(sa, sb, d);
  }

  /** Each centroid's squared distance to the merged centroid is the squared share `wa` or `wb`
      of the other cluster's size times the squared distance between the two centroids. */
  lemma DistancesToMerged(a: CharaCluster, b: CharaCluster, wa: real, wb: real)
    requires |a.centroid| == |b.centroid| && a.size > 0 && b.size > 0
    requires wa == (b.size as real) / ((a.size as real) + (b.size as real))
    requires wb == (a.size as real) / ((a.size as real) + (b.size as real))
    ensures SqDist(a.centroid, MergedCentroid(a, b)) == Sq(wa) * SqDist(a.centroid, b.centroid)
    ensures SqDist(b.centroid, MergedCentroid(a, b)) == Sq(wb) * SqDist(a.centroid, b.centroid)
  {
    var sa, sb := a.size as real, b.size as real;
    var u, v, m := a.centroid, b.centroid, MergedCentroid(a, b);
    assert forall t :: 0 <= t < |m| ==> m[t] == (u[t] * sa + v[t] * sb) / (sa + sb);
    MergedDistances(u, v, sa, sb, m, wa, wb);
  }

  /** The same for any two points and positive weights: each point's squared distance to the
      weighted mean `m` is the squared share `wa` or `wb` of the other point's weight times
      the squared distance between the two points. */
  lemma MergedDistances(u: Vector, v: Vector, sa: real, sb: real, m: Vector, wa: real, wb: real)
    requires |u| == |v| == |m| && sa > 0.0 && sb > 0.0
    requires wa == sb / (sa + sb) && wb == sa / (sa + sb)
    requires forall t :: 0 <= t < |m| ==> m[t] == (u[t] * sa + v[t] * sb) / (sa + sb)
    ensures SqDist(u, m) == Sq(wa) * SqDist(u, v)
    ensures SqDist(v, m) == Sq(wb) * SqDist(u, v)
  {
    MergedOffsets(u, v, sa, sb, m, wa, wb);
    ScaledOffsets(u, v, m, wa);
    ScaledOffsets(v, u, m, wb);
  }

  /** Coordinate by coordinate, each centroid's offset from the merged centroid is a share of
      the centroids' difference. */
  lemma MergedOffsets(u: Vector, v: Vector, sa: real, sb: real, m: Vector, wa: real, wb: real)
    requires |u| == |v| == |m| && sa > 0.0 && sb > 0.0
    requires wa == sb / (sa + sb) && wb == sa / (sa + sb)
    requires forall t :: 0 <= t < |m| ==> m[t] == (u[t] * sa + v[t] * sb) / (sa + sb)
    ensures forall t :: 0 <= t < |u| ==> u[t] - m[t] == wa * (u[t] - v[t])
    ensures forall t :: 0 <= t < |v| ==> v[t] - m[t] == wb * (v[t] - u[t])
  {
    forall t | 0 <= t < |m|
      ensures u[t] - m[t] == wa * (u[t] - v[t])
      ensures v[t] - m[t] == wb * (v[t] - u[t])
    {
      OffsetPair(u[t], v[t], sa, sb, m[t]);
    }
  }

  /** Both centroids' offsets from the merged centroid `mt`, as shares of their difference. */
  lemma OffsetPair(x: real, y: real, sa: real, sb: real, mt: real)
    requires sa > 0.0 && sb > 0.0 && mt == (x * sa + y * sb) / (sa + sb)
    ensures x - mt == (sb / (sa + sb)) * (x - y)
    ensures y - mt == (sa / (sa + sb)) * (y - x)
  {
    OffsetFromMerged(x, y, sa, sb);
    OffsetFromMerged(y, x, sb, sa);
    assert (y * sb + x * sa) / (sb + sa) == mt;
  }

  /** Merging two clusters with the same centroid keeps that centroid. */
  lemma MergedSamePoint(a: CharaCluster, b: CharaCluster, point: Vector)
    requires a.centroid == point && b.centroid == point && a.size + b.size > 0
    ensures CharaMerged(a, b).centroid == point
  {
    var m := CharaMerged(a, b);
    forall t | 0 <= t < |point|
      ensures m.centroid[t] == point[t]
    {
      var sa, sb := a.size as real, b.size as real;
      Distribute(sa, sb, point[t]);
      assert point[t] * sa + point[t] * sb == point[t] * (sa + sb);
      QuotientTimesDivisor(point[t] * (sa + sb), sa + sb);
      CancelFactor(m.centroid[t], point[t], sa + sb);
    }
  }

  /** When every cluster sits at the same point every cost is zero, so the scan keeps its
      first pair, `(0, 1)`. */
  lemma SamePointChoice(cs: seq<CharaCluster>, dim: nat, point: Vector)
    requires |cs| >= 2 && Shaped(cs, dim) && forall c :: c in cs ==> c.centroid == point
    ensures Choose(cs, dim) == Pair(0, 1)
    ensures CharaCost(cs[0], cs[1]) == 0.0
  {
    forall x, y | 0 <= x < y < |cs|
      ensures PairCosts(cs, dim)(x, y) == 0.0
    {
      assert cs[x] in cs && cs[y] in cs;
      ZeroSpread(cs[x], cs[y], point);
    }
    EqualCostsPickFirst(|cs|, PairCosts(cs, dim), 0.0);
  }

  /** So the first two clusters are merged, the merged cluster goes last, and it sits at
      that point too. */
  lemma SamePointMergesFirst(cs: seq<CharaCluster>, dim: nat, point: Vector)
    requires |cs| >= 2 && Shaped(cs, dim) && forall c :: c in cs ==> c.centroid == point
    ensures Step(cs, dim) == cs[2..] + [CharaMerged(cs[0], cs[1])]
    ensures forall c :: c in Step(cs, dim) ==> c.centroid == point
  {
    SamePointChoice(cs, dim, point);
    var m := CharaMerged(cs[0], cs[1]);
    assert Step(cs, dim) == Splice(cs, 0, 1) + [m];
    SpliceFront(cs);
    assert cs[0] in cs && cs[1] in cs;
    MergedSamePoint(cs[0], cs[1], point);
    EveryAtPoint(cs[2..], m, point);
  }

  /** Dropping the first two entries leaves the tail. */
  lemma SpliceFront<T>(cs: seq<T>)
    requires |cs| >= 2
    ensures Splice(cs, 0, 1) == cs[2..]
  {
  }

  lemma EveryAtPoint(rest: seq<CharaCluster>, m: CharaCluster, point: Vector)
    requires m.centroid == point && forall c :: c in rest ==> c.centroid == point
    ensures forall c :: c in rest + [m] ==> c.centroid == point
  {
  }

  /** Two clusters at the same point cost nothing to merge. */
  lemma ZeroSpread(a: CharaCluster, b: CharaCluster, point: Vector)
    requires a.centroid == point && b.centroid == point && a.size > 0 && b.size > 0
    ensures CharaCost(a, b) == 0.0
  {
    MergedSamePoint(a, b, point);
    SqDistSelf(point);
  }

  /** The reference order of merges when every cost ties: join the first two clusters and
      append the result, until `k` clusters are left. */
  function ScanOrderMerge(cs: seq<CharaCluster>, k: nat): (r: seq<CharaCluster>)
    requires k >= 1 && forall c :: c in cs ==> c.size > 0 && |c.centroid| == |cs[0].centroid|
    ensures |r| == Min(|cs|, k)
    decreases |cs|
  {
    if |cs| <= k then cs
    else
      var m := CharaMerged(cs[0], cs[1]);
      assert cs[0] in cs && cs[1] in cs;
      var next := cs[2..] + [m];
      assert forall c :: c in next ==> c in cs || c == m;
      ScanOrderMerge(next, k)
  }

  /** When every row is the same point, the merges happen in pure scan order. */
  lemma {:induction false} SamePointScanOrder(cs: seq<CharaCluster>, dim: nat, k: nat, point: Vector)
    requires k >= 1 && |cs| >= 1 && Shaped(cs, dim) && forall c :: c in cs ==> c.centroid == point
    ensures Agglomerate(cs, dim, k) == ScanOrderMerge(cs, k)
    decreases |cs|
  {
    if |cs| > k {
      SamePointMergesFirst(cs, dim, point);
      ScanOrderUnfold(cs, dim, k);
      SamePointScanOrder(Step(cs, dim), dim, k, point);
    }
  }

  /** One round of `ScanOrderMerge`. */
  lemma ScanOrderUnfold(cs: seq<CharaCluster>, dim: nat, k: nat)
    requires k >= 1 && |cs| > k && Shaped(cs, dim)
    ensures cs[0].size + cs[1].size > 0
    ensures Shaped(cs[2..] + [CharaMerged(cs[0], cs[1])], dim)
    ensures ScanOrderMerge(cs, k) == ScanOrderMerge(cs[2..] + [CharaMerged(cs[0], cs[1])], k)
  {
    assert cs[0] in cs && cs[1] in cs;
    var next := cs[2..] + [CharaMerged(cs[0], cs[1])];
    assert forall c :: c in next ==> c in cs || c == CharaMerged(cs[0], cs[1]);
  }
}
