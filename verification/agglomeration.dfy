/** The parts of `ward` that do not depend on how a cluster is stored or costed: the scan
    over all cluster pairs for the cheapest merge, the removal of the merged pair, the
    bookkeeping of which rows each cluster holds, and the final row labels. */
module Agglomeration {
  import opened Linalg

  /** The running minimum of the pair scan; `Unset` while `bestD` is still `Infinity`. */
  datatype Choice = Unset | Best(i: nat, j: nat, d: real)

  /** The pair `(bestI, bestJ)` a scan settles on. */
  datatype Pair = Pair(i: nat, j: nat)

  /** `best` is a correct running result once every pair before `(i, j)` in scan order has
      been visited: it stays unset only while no pair has been visited (the scan is at its
      start, or there are fewer than two clusters), and otherwise it is a visited pair
      carrying its own cost, no visited pair is cheaper, and every pair before it is
      strictly dearer. */
  predicate ChoiceSoFar(n: nat, cost: (nat, nat) -> real, i: nat, j: nat, best: Choice) {
    match best
    case Unset => n < 2 || (i == 0 && j <= 1)
    case Best(bi, bj, d) =>
      && bi < bj < n && ScanBefore(bi, bj, i, j)
      && d == cost(bi, bj)
      && (forall x, y :: 0 <= x < y < n && ScanBefore(x, y, i, j) ==> d <= cost(x, y))
      && (forall x, y :: 0 <= x < y < n && ScanBefore(x, y, bi, bj) ==> d < cost(x, y))
  }

  /** The nested `for i … for j = i + 1 …` loop over `n` clusters from pair `(i, j)` on;
      a pair replaces the running best only when its cost is strictly smaller. */
  function Scan(n: nat, cost: (nat, nat) -> real, i: nat, j: nat, best: Choice): (r: Choice)
    requires i < j <= n + 1 && ChoiceSoFar(n, cost, i, j, best)
    ensures ChoiceSoFar(n, cost, n, 0, r)
    decreases n - i, n + 1 - j
  {
    if i >= n then
      ScanDone(n, i, j);
      best
    else if j >= n then
      ScanNextRow(n, i, j);
      Scan(n, cost, i + 1, i + 2, best)
    else
      var d := cost(i, j);
      var next := if best.Unset? || d < best.d then Best(i, j, d) else best;
      ScanStep(n, i, j);
      Scan(n, cost, i, j + 1, next)
  }

  /** `(i, j)` is a cheapest pair and every pair before it in scan order is dearer. */
  predicate FirstCheapest(n: nat, cost: (nat, nat) -> real, i: nat, j: nat) {
    && i < j < n
    && (forall x, y :: 0 <= x < y < n ==> cost(i, j) <= cost(x, y))
    && (forall x, y :: 0 <= x < y < n && ScanBefore(x, y, i, j) ==> cost(i, j) < cost(x, y))
  }

  /** The merge `ward` chooses among `n >= 2` clusters: the first cheapest pair in scan
      order, ties going to the earlier pair because the comparison is a strict `<`. */
  function Pick(n: nat, cost: (nat, nat) -> real): (r: Pair)
    requires n >= 2
    ensures FirstCheapest(n, cost, r.i, r.j)
  {
    var best := Scan(n, cost, 0, 1, Unset);
    assert ScanBefore(0, 1, n, 0);
    Pair(best.i, best.j)
  }

  /** There is only one first cheapest pair, so `Pick` is pinned down by its contract. */
  lemma FirstCheapestUnique(n: nat, cost: (nat, nat) -> real, i: nat, j: nat)
    requires n >= 2 && FirstCheapest(n, cost, i, j)
    ensures Pick(n, cost) == Pair(i, j)
  {
    var r := Pick(n, cost);
    assert !ScanBefore(i, j, r.i, r.j) && !ScanBefore(r.i, r.j, i, j);
  }

  /** When every pair costs the same, the first pair `(0, 1)` is merged. */
  lemma EqualCostsPickFirst(n: nat, cost: (nat, nat) -> real, d: real)
    requires n >= 2 && forall x, y :: 0 <= x < y < n ==> cost(x, y) == d
    ensures Pick(n, cost) == Pair(0, 1)
  {
    FirstCheapestUnique(n, cost, 0, 1);
  }

  /** `clusters.splice(bestJ, 1); clusters.splice(bestI, 1)`: the later position goes first,
      so the earlier one still indexes the same cluster. Every other cluster is kept, in
      its order. */
  function Splice<T>(cs: seq<T>, i: nat, j: nat): (r: seq<T>)
    requires i < j < |cs|
    ensures |r| == |cs| - 2
    ensures r == cs[..i] + cs[i + 1..j] + cs[j + 1..]
  {
    var once := cs[..j] + cs[j + 1..];
    once[..i] + once[i + 1..]
  }

  /** `clusters.filter((_, idx) => idx !== bestI && idx !== bestJ)`. */
  function Filter<T>(cs: seq<T>, i: nat, j: nat): seq<T>
  {
    if |cs| == 0 then []
    else
      var last := |cs| - 1;
      Filter(cs[..last], i, j) + (if last != i && last != j then [cs[last]] else [])
  }

  /** Filtering out two positions and splicing them out give the same list. */
  lemma FilterIsSplice<T>(cs: seq<T>, i: nat, j: nat)
    requires i < j < |cs|
    ensures Filter(cs, i, j) == Splice(cs, i, j)
  {
    FilterPrefix(cs, i, j, |cs|);
    assert cs[..|cs|] == cs;
  }

  lemma {:induction false} FilterPrefix<T>(cs: seq<T>, i: nat, j: nat, k: nat)
    requires i < j < |cs| && k <= |cs|
    ensures Filter(cs[..k], i, j) ==
      if k <= i then cs[..k]
      else if k <= j then cs[..i] + cs[i + 1..k]
      else cs[..i] + cs[i + 1..j] + cs[j + 1..k]
  {
    if k > 0 {
      FilterPrefix(cs, i, j, k - 1);
      assert cs[..k][..k - 1] == cs[..k - 1];
    }
  }

  /** All rows of all clusters, cluster by cluster. */
  function Flatten(groups: seq<seq<nat>>): seq<nat>
  {
    if |groups| == 0 then [] else Flatten(groups[..|groups| - 1]) + groups[|groups| - 1]
  }

  /** Every row `0 .. n - 1` is in exactly one cluster, once. */
  predicate Partition(groups: seq<seq<nat>>, n: nat) {
    multiset(Flatten(groups)) == multiset(Range(n))
  }

  lemma {:induction false} FlattenAppend(a: seq<seq<nat>>, b: seq<seq<nat>>)
    ensures Flatten(a + b) == Flatten(a) + Flatten(b)
    decreases |b|
  {
    if |b| == 0 {
      assert a + b == a;
    } else {
      var last := |b| - 1;
      assert (a + b)[..|a + b| - 1] == a + b[..last];
      assert (a + b)[|a + b| - 1] == b[last];
      FlattenAppend(a, b[..last]);
    }
  }

  /** A row is flattened exactly when some cluster holds it. */
  lemma {:induction false} FlattenMember(groups: seq<seq<nat>>, r: nat)
    ensures r in Flatten(groups) <==> exists t :: 0 <= t < |groups| && r in groups[t]
  {
    if |groups| > 0 {
      var last := |groups| - 1;
      FlattenMember(groups[..last], r);
      if r in Flatten(groups[..last]) {
        var t :| 0 <= t < last && r in groups[..last][t];
        assert r in groups[t];
      }
      if exists t :: 0 <= t < |groups| && r in groups[t] {
        var t :| 0 <= t < |groups| && r in groups[t];
        if t < last {
          assert r in groups[..last][t];
        }
      }
    }
  }

  lemma FlattenSingle(g: seq<nat>)
    ensures Flatten([g]) == g
  {
    assert [g][..0] == [];
  }

  /** Flattening three pieces followed by one single cluster. */
  lemma FlattenFour(a: seq<seq<nat>>, b: seq<seq<nat>>, c: seq<seq<nat>>, g: seq<nat>)
    ensures Flatten(a + b + c + [g]) == Flatten(a) + Flatten(b) + Flatten(c) + g
  {
    FlattenAppend(a + b + c, [g]);
    FlattenAppend(a + b, c);
    FlattenAppend(a, b);
    FlattenSingle(g);
  }

  /** The rows of a list of clusters, in terms of the pieces around positions `i < j`. */
  lemma FlattenAround(groups: seq<seq<nat>>, i: nat, j: nat)
    requires i < j < |groups|
    ensures Flatten(groups) ==
      Flatten(groups[..i]) + groups[i] + Flatten(groups[i + 1..j]) + groups[j] + Flatten(groups[j + 1..])
  {
    FlattenSplit(groups, j);
    var front := groups[..j];
    FlattenSplit(front, i);
    assert front[..i] == groups[..i] && front[i] == groups[i] && front[i + 1..] == groups[i + 1..j];
  }

  /** The rows of a list of clusters, in terms of the pieces around position `k`. */
  lemma FlattenSplit(groups: seq<seq<nat>>, k: nat)
    requires k < |groups|
    ensures Flatten(groups) == Flatten(groups[..k]) + groups[k] + Flatten(groups[k + 1..])
  {
    var n := |groups|;
    FlattenSlices(groups, 0, k, n);
    FlattenSlices(groups, k, k + 1, n);
    FlattenUnit(groups, k);
    assert groups[0..n] == groups;
    assert groups[0..k] == groups[..k];
    assert groups[k + 1..n] == groups[k + 1..];
  }

  lemma FlattenSlices(groups: seq<seq<nat>>, lo: nat, mid: nat, hi: nat)
    requires lo <= mid <= hi <= |groups|
    ensures Flatten(groups[lo..hi]) == Flatten(groups[lo..mid]) + Flatten(groups[mid..hi])
  {
    assert groups[lo..hi] == groups[lo..mid] + groups[mid..hi];
    FlattenAppend(groups[lo..mid], groups[mid..hi]);
  }

  lemma FlattenUnit(groups: seq<seq<nat>>, k: nat)
    requires k < |groups|
    ensures Flatten(groups[k..k + 1]) == groups[k]
  {
    assert groups[k..k + 1] == [groups[k]];
    FlattenSingle(groups[k]);
  }

  /** The rows after the pair `(i, j)` is replaced by one cluster holding both member lists,
      appended last, in terms of the same pieces. */
  lemma FlattenSpliced(groups: seq<seq<nat>>, i: nat, j: nat)
    requires i < j < |groups|
    ensures Flatten(Splice(groups, i, j) + [groups[i] + groups[j]]) ==
      Flatten(groups[..i]) + Flatten(groups[i + 1..j]) + Flatten(groups[j + 1..]) + (groups[i] + groups[j])
  {
    FlattenFour(groups[..i], groups[i + 1..j], groups[j + 1..], groups[i] + groups[j]);
  }

  /** Replacing the pair `(i, j)` by one cluster holding both member lists, appended last,
      keeps the multiset of rows. */
  lemma SpliceKeepsRows(groups: seq<seq<nat>>, i: nat, j: nat)
    requires i < j < |groups|
    ensures multiset(Flatten(Splice(groups, i, j) + [groups[i] + groups[j]])) == multiset(Flatten(groups))
  {
    FlattenAround(groups, i, j);
    FlattenSpliced(groups, i, j);
    Reorder(Flatten(groups[..i]), groups[i], Flatten(groups[i + 1..j]), groups[j], Flatten(groups[j + 1..]));
  }

  lemma Reorder(a: seq<nat>, g: seq<nat>, b: seq<nat>, h: seq<nat>, c: seq<nat>)
    ensures multiset(a + b + c + (g + h)) == multiset(a + g + b + h + c)
  {
    assert multiset(a + g + b + h + c) == multiset(a) + multiset(g) + multiset(b) + multiset(h) + multiset(c);
    assert multiset(a + b + c + (g + h)) == multiset(a) + multiset(b) + multiset(c) + (multiset(g) + multiset(h));
  }

  lemma {:induction false} RangeCount(n: nat, r: int)
    ensures multiset(Range(n))[r] == if 0 <= r < n then 1 else 0
  {
    if n > 0 {
      assert Range(n) == Range(n - 1) + [n - 1];
      RangeCount(n - 1, r);
    }
  }

  /** `labels[i] = label` for every row `i` of one cluster, in order. */
  function Stamp(labels: seq<nat>, members: seq<nat>, t: nat): (r: seq<nat>)
    requires forall a :: 0 <= a < |members| ==> members[a] < |labels|
    ensures |r| == |labels|
    ensures forall x :: 0 <= x < |labels| ==> r[x] == if x in members then t else labels[x]
  {
    if |members| == 0 then labels
    else
      var last := |members| - 1;
      assert forall x :: x in members <==> x in members[..last] || x == members[last];
      Stamp(labels, members[..last], t)[members[last] := t]
  }

  /** Every row listed in a cluster is below `n`. */
  predicate Bounded(groups: seq<seq<nat>>, n: nat) {
    forall t, a :: 0 <= t < |groups| && 0 <= a < |groups[t]| ==> groups[t][a] < n
  }

  /** `labels = Array(n).fill(0)`, then `clusters.forEach((c, label) => c.idx.forEach((i) =>
      (labels[i] = label)))`: a later cluster overwrites an earlier one. */
  function LabelsOf(n: nat, groups: seq<seq<nat>>): (labels: seq<nat>)
    requires Bounded(groups, n)
    ensures |labels| == n
  {
    if |groups| == 0 then seq(n, _ => 0)
    else
      var last := |groups| - 1;
      Stamp(LabelsOf(n, groups[..last]), groups[last], last)
  }

  /** When no row is listed twice, each listed row is labelled with the position of its
      cluster. */
  lemma {:induction false} LabelsOfListed(n: nat, groups: seq<seq<nat>>)
    requires Bounded(groups, n)
    requires forall r :: multiset(Flatten(groups))[r] <= 1
    ensures forall t, r :: 0 <= t < |groups| && r in groups[t] ==> LabelsOf(n, groups)[r] == t
  {
    if |groups| > 0 {
      var last := |groups| - 1;
      var prefix := groups[..last];
      assert Flatten(groups) == Flatten(prefix) + groups[last];
      assert forall r :: multiset(Flatten(groups))[r] == multiset(Flatten(prefix))[r] + multiset(groups[last])[r];
      assert forall t :: 0 <= t < last ==> prefix[t] == groups[t];
      LabelsOfListed(n, prefix);
      forall t, r | 0 <= t < |groups| && r in groups[t]
        ensures LabelsOf(n, groups)[r] == t
      {
        if t < last {
          assert r in prefix[t];
          FlattenMember(prefix, r);
          assert multiset(Flatten(groups))[r] == multiset(Flatten(prefix))[r] + multiset(groups[last])[r];
        }
      }
    }
  }

  /** Labels of a partition: every row's label is a cluster position, the cluster at that
      position holds the row, and two rows share a label exactly when one cluster holds
      both. */
  lemma PartitionLabels(n: nat, groups: seq<seq<nat>>)
    requires Partition(groups, n)
    ensures Bounded(groups, n)
    ensures forall t, r :: 0 <= t < |groups| && r in groups[t] ==> LabelsOf(n, groups)[r] == t
    ensures forall r :: 0 <= r < n ==> LabelsOf(n, groups)[r] < |groups| && r in groups[LabelsOf(n, groups)[r]]
    ensures forall r1, r2 :: 0 <= r1 < n && 0 <= r2 < n ==>
      (LabelsOf(n, groups)[r1] == LabelsOf(n, groups)[r2] <==>
       exists t :: 0 <= t < |groups| && r1 in groups[t] && r2 in groups[t])
  {
    forall t, a | 0 <= t < |groups| && 0 <= a < |groups[t]|
      ensures groups[t][a] < n
    {
      var r := groups[t][a];
      FlattenMember(groups, r);
      RangeCount(n, r);
    }
    forall r
      ensures multiset(Flatten(groups))[r] <= 1
    {
      RangeCount(n, r);
    }
    LabelsOfListed(n, groups);
    var labels := LabelsOf(n, groups);
    forall r | 0 <= r < n
      ensures labels[r] < |groups| && r in groups[labels[r]]
    {
      RangeCount(n, r);
      FlattenMember(groups, r);
    }
  }
}
