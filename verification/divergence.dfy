/** The copy of `ward` in pivot_app/cluster-lca-chara.js divides each candidate cost by the
    merged size, which changes which pair is cheapest once clusters of different sizes compete.
    Four points on a line are enough to make the two copies label rows differently. */
module Divergence {
  import opened RealArith
  import opened Linalg
  import opened Agglomeration
  import Ward
  import CharaWard

  /** The rows 0, 0, 1, 2 of a one-feature matrix. */
  const Line: Matrix := [[0.0], [0.0], [1.0], [2.0]]

  /** The clusters of the canonical copy before, between and after its two merges. */
  const Start: seq<Ward.Cluster> :=
    [Ward.Cluster([0], [0.0]), Ward.Cluster([1], [0.0]), Ward.Cluster([2], [1.0]), Ward.Cluster([3], [2.0])]
  const AfterOne: seq<Ward.Cluster> :=
    [Ward.Cluster([2], [1.0]), Ward.Cluster([3], [2.0]), Ward.Cluster([0, 1], [0.0])]
  const AfterTwo: seq<Ward.Cluster> :=
    [Ward.Cluster([0, 1], [0.0]), Ward.Cluster([2, 3], [1.5])]

  /** On one feature the Ward cost is the size factor times the squared gap of the centroids. */
  lemma WardCostOnLine(c1: Ward.Cluster, c2: Ward.Cluster)
    requires |c1.centroid| == 1 && |c2.centroid| == 1 && |c1.idx| + |c2.idx| > 0
    ensures Ward.WardCost(c1, c2) ==
      (|c1.idx| as real) * (|c2.idx| as real) / ((|c1.idx| as real) + (|c2.idx| as real)) * Sq(c1.centroid[0] - c2.centroid[0])
  {
    assert SqDist(c1.centroid, c2.centroid) == PartialSqDist(c1.centroid, c2.centroid, 0) + Sq(c1.centroid[0] - c2.centroid[0]);
  }

  lemma LineSingletons()
    ensures Ward.Singletons(Line, 1) == Start
  {
  }

  lemma FirstChoice()
    ensures Ward.Choose(Start, 1) == Pair(0, 1)
  {
    var cost := Ward.PairCosts(Start, 1);
    forall x, y | 0 <= x < y < 4
      ensures cost(0, 1) <= cost(x, y)
    {
      WardCostOnLine(Start[x], Start[y]);
      WardCostOnLine(Start[0], Start[1]);
    }
    FirstCheapestUnique(4, cost, 0, 1);
  }

  lemma FirstStep()
    ensures Ward.Step(Start, 1) == AfterOne
  {
    FirstChoice();
    var m := Ward.Merged(Start[0], Start[1]);
    assert m.centroid == [0.0] && m.idx == [0, 1];
    assert Splice(Start, 0, 1) == [Start[2], Start[3]];
    assert Ward.Step(Start, 1) == [Start[2], Start[3], m];
  }

  lemma SecondChoice()
    ensures Ward.Choose(AfterOne, 1) == Pair(0, 1)
  {
    var cost := Ward.PairCosts(AfterOne, 1);
    WardCostOnLine(AfterOne[0], AfterOne[1]);
    WardCostOnLine(AfterOne[0], AfterOne[2]);
    WardCostOnLine(AfterOne[1], AfterOne[2]);
    assert cost(0, 1) == 0.5;
    assert cost(0, 2) == 2.0 / 3.0;
    assert cost(1, 2) == 8.0 / 3.0;
    FirstCheapestUnique(3, cost, 0, 1);
  }

  lemma SecondStep()
    ensures Ward.Step(AfterOne, 1) == AfterTwo
  {
    SecondChoice();
    var m := Ward.Merged(AfterOne[0], AfterOne[1]);
    SecondMerged();
    assert Splice(AfterOne, 0, 1) == [AfterOne[2]];
    assert Ward.Step(AfterOne, 1) == [AfterOne[2], m];
  }

  lemma SecondMerged()
    ensures Ward.Merged(AfterOne[0], AfterOne[1]) == Ward.Cluster([2, 3], [1.5])
  {
    var m := Ward.Merged(AfterOne[0], AfterOne[1]);
    assert m.centroid[0] == (1.0 * 1.0 + 2.0 * 1.0) / 2.0;
    assert m.centroid == [1.5];
  }

  /** Rows grouped as `{0, 1}` and `{2, 3}` are labelled 0, 0, 1, 1. */
  lemma PairedLabels()
    ensures LabelsOf(4, [[0, 1], [2, 3]]) == [0, 0, 1, 1]
  {
    var groups: seq<seq<nat>> := [[0, 1], [2, 3]];
    assert Flatten(groups) == [0, 1, 2, 3] by {
      FlattenAppend([[0, 1]], [[2, 3]]);
      FlattenSingle([0, 1]);
      FlattenSingle([2, 3]);
      assert groups == [[0, 1]] + [[2, 3]];
    }
    assert Range(4) == [0, 1, 2, 3];
    PartitionLabels(4, groups);
    assert 0 in groups[0] && 1 in groups[0] && 2 in groups[1] && 3 in groups[1];
  }

  lemma WardFinalClusters()
    ensures Ward.FinalClusters(Line, 1, 2) == AfterTwo
    ensures Ward.Members(Ward.FinalClusters(Line, 1, 2)) == [[0, 1], [2, 3]]
  {
    LineSingletons();
    FirstStep();
    SecondStep();
    AfterTwoMembers();
  }

  lemma AfterTwoMembers()
    ensures Ward.Members(AfterTwo) == [[0, 1], [2, 3]]
  {
  }

  /** The canonical copy labels the rows 0, 0, 1, 1. */
  lemma WardExample()
    ensures Ward.Ward(Line, 1, 2) == [0, 0, 1, 1]
  {
    WardFinalClusters();
    PairedLabels();
  }

  /** The clusters of the size-keeping copy before, between and after its two merges. */
  const CharaStart: seq<CharaWard.CharaCluster> :=
    [CharaWard.CharaCluster([0], [0.0], 1), CharaWard.CharaCluster([1], [0.0], 1),
     CharaWard.CharaCluster([2], [1.0], 1), CharaWard.CharaCluster([3], [2.0], 1)]
  const CharaAfterOne: seq<CharaWard.CharaCluster> :=
    [CharaWard.CharaCluster([2], [1.0], 1), CharaWard.CharaCluster([3], [2.0], 1),
     CharaWard.CharaCluster([0, 1], [0.0], 2)]
  const CharaAfterTwo: seq<CharaWard.CharaCluster> :=
    [CharaWard.CharaCluster([3], [2.0], 1), CharaWard.CharaCluster([2, 0, 1], [1.0 / 3.0], 3)]

  /** On one feature this copy's cost is the Ward cost on the line divided by the merged size. */
  lemma CharaCostOnLine(a: CharaWard.CharaCluster, b: CharaWard.CharaCluster)
    requires |a.centroid| == 1 && |b.centroid| == 1 && a.size == |a.points| > 0 && b.size == |b.points| > 0
    ensures CharaWard.CharaCost(a, b) ==
      (a.size as real) * (b.size as real) / ((a.size as real) + (b.size as real)) * Sq(a.centroid[0] - b.centroid[0])
      / ((a.size + b.size) as real)
  {
    CharaWard.CostRelation(a, b);
    WardCostOnLine(CharaWard.Forget(a), CharaWard.Forget(b));
  }

  lemma CharaInitial()
    ensures CharaWard.Initial(Line, 1) == CharaStart
  {
  }

  lemma CharaFirstChoice()
    ensures CharaWard.Choose(CharaStart, 1) == Pair(0, 1)
  {
    var cost := CharaWard.PairCosts(CharaStart, 1);
    CharaWard.ZeroSpread(CharaStart[0], CharaStart[1], [0.0]);
    forall x, y | 0 <= x < y < 4
      ensures cost(0, 1) <= cost(x, y)
    {
      CharaWard.CharaCostNonNegative(CharaStart[x], CharaStart[y]);
    }
    FirstCheapestUnique(4, cost, 0, 1);
  }

  lemma CharaFirstStep()
    ensures CharaWard.Step(CharaStart, 1) == CharaAfterOne
  {
    CharaFirstChoice();
    var m := CharaWard.CharaMerged(CharaStart[0], CharaStart[1]);
    assert m.centroid == [0.0] && m.points == [0, 1];
    assert Splice(CharaStart, 0, 1) == [CharaStart[2], CharaStart[3]];
    assert CharaWard.Step(CharaStart, 1) == [CharaStart[2], CharaStart[3], m];
  }

  /** This copy's second merge joins the row at 1 to the pair at 0 (cost 2/9), which is cheaper
      here than joining the rows at 1 and 2 (cost 1/4). */
  lemma CharaSecondChoice()
    ensures CharaWard.Choose(CharaAfterOne, 1) == Pair(0, 2)
  {
    var cost := CharaWard.PairCosts(CharaAfterOne, 1);
    CharaCostOnLine(CharaAfterOne[0], CharaAfterOne[1]);
    CharaCostOnLine(CharaAfterOne[0], CharaAfterOne[2]);
    CharaCostOnLine(CharaAfterOne[1], CharaAfterOne[2]);
    assert cost(0, 1) == 0.25;
    assert cost(0, 2) == 2.0 / 9.0;
    assert cost(1, 2) == 8.0 / 9.0;
    FirstCheapestUnique(3, cost, 0, 2);
  }

  lemma CharaSecondMerged()
    ensures CharaWard.CharaMerged(CharaAfterOne[0], CharaAfterOne[2]) == CharaWard.CharaCluster([2, 0, 1], [1.0 / 3.0], 3)
  {
    var m := CharaWard.CharaMerged(CharaAfterOne[0], CharaAfterOne[2]);
    assert m.centroid[0] == (1.0 * 1.0 + 0.0 * 2.0) / 3.0;
    assert m.centroid == [1.0 / 3.0];
  }

  lemma CharaSecondStep()
    ensures CharaWard.Step(CharaAfterOne, 1) == CharaAfterTwo
  {
    CharaSecondChoice();
    var m := CharaWard.CharaMerged(CharaAfterOne[0], CharaAfterOne[2]);
    CharaSecondMerged();
    assert Splice(CharaAfterOne, 0, 2) == [CharaAfterOne[1]];
    assert CharaWard.Step(CharaAfterOne, 1) == [CharaAfterOne[1], m];
  }

  lemma CharaAfterTwoMembers()
    ensures CharaWard.Members(CharaAfterTwo) == [[3], [2, 0, 1]]
  {
  }

  lemma CharaFinalClusters()
    ensures CharaWard.FinalClusters(Line, 1, 2) == CharaAfterTwo
    ensures CharaWard.Members(CharaWard.FinalClusters(Line, 1, 2)) == [[3], [2, 0, 1]]
  {
    CharaInitial();
    CharaFirstStep();
    CharaSecondStep();
    CharaAfterTwoMembers();
  }

  lemma SplitPartition()
    ensures Partition([[3], [2, 0, 1]], 4)
  {
    var groups: seq<seq<nat>> := [[3], [2, 0, 1]];
    FlattenAppend([[3]], [[2, 0, 1]]);
    FlattenSingle([3]);
    FlattenSingle([2, 0, 1]);
    assert groups == [[3]] + [[2, 0, 1]];
    assert Flatten(groups) == [3, 2, 0, 1];
    assert Range(4) == [0, 1, 2, 3];
    assert multiset([3, 2, 0, 1]) == multiset([0, 1, 2, 3]);
  }

  /** Rows grouped as `{3}` and `{2, 0, 1}` are labelled 1, 1, 1, 0. */
  lemma SplitLabels()
    ensures LabelsOf(4, [[3], [2, 0, 1]]) == [1, 1, 1, 0]
  {
    var groups: seq<seq<nat>> := [[3], [2, 0, 1]];
    SplitPartition();
    PartitionLabels(4, groups);
    assert 3 in groups[0] && 2 in groups[1] && 0 in groups[1] && 1 in groups[1];
  }

  /** The size-keeping copy labels the same rows 1, 1, 1, 0. */
  lemma CharaExample()
    ensures CharaWard.CharaWard(Line, 1, 2) == [1, 1, 1, 0]
  {
    CharaFinalClusters();
    SplitLabels();
  }

  /** The two copies of `ward` disagree on the rows 0, 0, 1, 2 with k = 2: the canonical copy
      groups the two zeros apart from 1 and 2, the size-keeping copy isolates the row at 2. */
  lemma CopiesDisagree()
    ensures Ward.Ward(Line, 1, 2) != CharaWard.CharaWard(Line, 1, 2)
  {
    WardExample();
    CharaExample();
  }
}
