/** The three places that feed the engine: `computePCAandClusters` in docs/cluster.js,
    `computeClusters` in pivot_app/cluster-lca-single.js (finite-row filter, empty guard and
    key-to-label map) and `init` in pivot_app/cluster-lca-chara.js (all-zero placeholder
    features). */
module Views {
  import opened Linalg
  import opened Agglomeration
  import opened Standardization
  import opened Jacobi
  import opened Pca
  import Ward
  import CharaWard

  /** The four clustering features of one farm-season of docs/cluster.js. */
  datatype Farm = Farm(nRate: real, pesticideLoad: real, yieldPerHa: real, machineryRatio: real)

  /** The results `computePCAandClusters` stores in `state`. */
  datatype Analysis = Analysis(scores: Matrix, loadings: Matrix, clusters: seq<nat>)

  function FarmMatrix(data: seq<Farm>): (m: Matrix)
    ensures |m| == |data| && Rectangular(m, 4)
  {
    seq(|data|, i requires 0 <= i < |data| =>
      [data[i].nRate, data[i].pesticideLoad, data[i].yieldPerHa, data[i].machineryRatio])
  }

  /** `pca(dataMatrix, 2)` then `ward(scores, 3)`: two centred score columns per farm and one
      of at most three cluster labels per farm, aligned with `state.data`: score row i is
      farm i's standardized features projected on the two leading loadings. */
  function ComputePcaAndClusters(data: seq<Farm>, sqrt: real -> real, rotate: (Matrix, nat, nat) -> Plane): (r: Analysis)
    requires |data| >= 2 && KeepsShape(rotate)
    ensures |r.scores| == |data| && Rectangular(r.scores, 2)
    ensures |r.loadings| == 2 && Rectangular(r.loadings, 4)
    ensures forall c :: 0 <= c < 2 ==> ColumnSum(r.scores, c, |data|) == 0.0
    ensures |r.clusters| == |data| && forall i :: 0 <= i < |data| ==> r.clusters[i] < Min(|data|, 3)
    ensures r.loadings == Loadings(Spectrum(FarmMatrix(data), 4, sqrt, rotate, Rows), 2)
    ensures forall i, c :: 0 <= i < |data| && 0 <= c < 2 ==>
      r.scores[i][c] == Dot(r.loadings[c], Standardize(FarmMatrix(data), 4, sqrt).z[i])
  {
    var projection := Pca.Pca(FarmMatrix(data), 4, 2, sqrt, rotate, Rows);
    Analysis(projection.scores, projection.loadings, Ward.Ward(projection.scores, 2, 3))
  }

  /** Two farms share a cluster exactly when Ward's final cluster over their scores holds both. */
  lemma FarmClusters(data: seq<Farm>, sqrt: real -> real, rotate: (Matrix, nat, nat) -> Plane)
    requires |data| >= 2 && KeepsShape(rotate)
    ensures var r := ComputePcaAndClusters(data, sqrt, rotate);
      Ward.LabelsFollowClusters(r.clusters, Ward.FinalClusters(r.scores, 2, 3))
  {
    var scores := ComputePcaAndClusters(data, sqrt, rotate).scores;
    Ward.WardSameCluster(scores, 2, 3);
  }

  /** A feature value of cluster-lca-single.js: a number, `NaN`/`Infinity`, or the `null` a
      farm-season gets when it has no record for that feature. */
  datatype JsValue = Num(x: real) | NonFinite | Null

  /** The global `isFinite`, which first converts its argument with `Number`; `Number(null)`
      is 0, so `null` passes. */
  predicate GlobalIsFinite(v: JsValue) {
    v != NonFinite
  }

  /** `Number.isFinite`, which accepts only finite numbers. */
  predicate NumberIsFinite(v: JsValue) {
    v.Num?
  }

  /** `Number(v)` for a value that passed `isFinite`. */
  function ToNumber(v: JsValue): (x: real)
    requires GlobalIsFinite(v)
    ensures v.Num? ==> x == v.x
    ensures v.Null? ==> x == 0.0
  {
    match v
    case Num(x) => x
    case Null => 0.0
  }

  /** One farm-season: its `farmer_season` key and its four features. */
  datatype Observation = Observation(key: string, vec: seq<JsValue>)

  predicate WellFormed(obs: seq<Observation>) {
    forall q :: 0 <= q < |obs| ==> |obs[q].vec| == 4
  }

  /** `o.vec.every(finite)`. */
  predicate AllFinite(o: Observation, finite: JsValue -> bool) {
    forall a :: 0 <= a < |o.vec| ==> finite(o.vec[a])
  }

  /** Every observation of `valid` has all its features passing `finite`. */
  predicate AllKept(valid: seq<Observation>, finite: JsValue -> bool) {
    forall q :: 0 <= q < |valid| ==> AllFinite(valid[q], finite)
  }

  /** `obs.filter((o) => o.vec.every(finite))`: exactly the observations whose every feature
      passes, in their original order (see `KeepAppend` and `SingleKeep`). */
  function Keep(obs: seq<Observation>, finite: JsValue -> bool): (valid: seq<Observation>)
    ensures forall o :: o in valid <==> o in obs && AllFinite(o, finite)
    ensures |valid| <= |obs|
    ensures forall q :: 0 <= q < |valid| ==> exists p :: 0 <= p < |obs| && obs[p] == valid[q]
  {
    if |obs| == 0 then []
    else
      var last := |obs| - 1;
      var front := Keep(obs[..last], finite);
      assert forall o :: o in obs <==> o in obs[..last] || o == obs[last];
      if AllFinite(obs[last], finite) then front + [obs[last]] else front
  }

  /** Some observation of `valid` carries key `k`. */
  predicate HasKey(valid: seq<Observation>, k: string) {
    exists q :: 0 <= q < |valid| && valid[q].key == k
  }

  /** Some observation of `obs` whose features all pass `finite` carries key `k`. */
  predicate KeptKey(obs: seq<Observation>, finite: JsValue -> bool, k: string) {
    exists o :: o in obs && AllFinite(o, finite) && o.key == k
  }

  /** `valid.map((o) => o.vec)`, each value converted by `Number`. */
  function FeatureMatrix(valid: seq<Observation>): (m: Matrix)
    requires WellFormed(valid) && AllKept(valid, GlobalIsFinite)
    ensures |m| == |valid| && Rectangular(m, 4)
    ensures forall q, a :: 0 <= q < |valid| && 0 <= a < 4 ==> m[q][a] == ToNumber(valid[q].vec[a])
  {
    seq(|valid|, q requires 0 <= q < |valid| => seq(4, a requires 0 <= a < 4 => ToNumber(valid[q].vec[a])))
  }

  /** `ward(pca(matrix, 2).scores, 3)` for the kept observations. With a single observation the
      scores are never read: `ward` with one row and `k = 3` merges nothing and labels it 0, so
      a zero score row stands in for the source's `NaN` row (`n - 1 = 0` in the variance). */
  function ValidLabels(valid: seq<Observation>, sqrt: real -> real, rotate: (Matrix, nat, nat) -> Plane): (labels: seq<nat>)
    requires |valid| >= 1 && WellFormed(valid) && AllKept(valid, GlobalIsFinite)
    requires KeepsShape(rotate)
    ensures |labels| == |valid| && forall q :: 0 <= q < |valid| ==> labels[q] < Min(|valid|, 3)
    ensures |valid| == 1 ==> labels == [0]
  {
    var matrix := FeatureMatrix(valid);
    var scores := if |valid| >= 2 then Pca.Pca(matrix, 4, 2, sqrt, rotate, Rows).scores else [[0.0, 0.0]];
    if |valid| == 1 then
      Ward.WardWithoutMerges(scores, 2, 3);
      assert Range(1) == [0];
      Ward.Ward(scores, 2, 3)
    else Ward.Ward(scores, 2, 3)
  }

  /** `valid.forEach((o, idx) => labelMap.set(o.key, labels[idx]))`: every kept key is mapped,
      and a key is mapped to the label of the last observation carrying it. */
  function LabelMap(valid: seq<Observation>, labels: seq<nat>): (m: map<string, nat>)
    requires |labels| == |valid|
    ensures forall k :: k in m <==> HasKey(valid, k)
    ensures forall q :: 0 <= q < |valid| && (forall l :: q < l < |valid| ==> valid[l].key != valid[q].key) ==>
      valid[q].key in m && m[valid[q].key] == labels[q]
  {
    if |valid| == 0 then map[]
    else
      var last := |valid| - 1;
      var front := LabelMap(valid[..last], labels[..last]);
      SetLast(valid, labels, front);
      front[valid[last].key := labels[last]]
  }

  /** Setting the last key on the map of all earlier keys gives the map of all keys. */
  lemma SetLast(valid: seq<Observation>, labels: seq<nat>, front: map<string, nat>)
    requires |labels| == |valid| >= 1
    requires var last := |valid| - 1;
      && (forall k :: k in front <==> HasKey(valid[..last], k))
      && (forall q :: 0 <= q < last && (forall l :: q < l < last ==> valid[..last][l].key != valid[..last][q].key) ==>
           valid[..last][q].key in front && front[valid[..last][q].key] == labels[..last][q])
    ensures var m := front[valid[|valid| - 1].key := labels[|valid| - 1]];
      && (forall k :: k in m <==> HasKey(valid, k))
      && (forall q :: 0 <= q < |valid| && (forall l :: q < l < |valid| ==> valid[l].key != valid[q].key) ==>
           valid[q].key in m && m[valid[q].key] == labels[q])
  {
    var last := |valid| - 1;
    var m := front[valid[last].key := labels[last]];
    forall k
      ensures k in m <==> HasKey(valid, k)
    {
      if k in front {
        var q :| 0 <= q < last && valid[..last][q].key == k;
        assert valid[q].key == k;
      }
      if HasKey(valid, k) {
        var q :| 0 <= q < |valid| && valid[q].key == k;
        if q < last {
          assert valid[..last][q].key == k;
        }
      }
    }
    forall q | 0 <= q < |valid| && (forall l :: q < l < |valid| ==> valid[l].key != valid[q].key)
      ensures valid[q].key in m && m[valid[q].key] == labels[q]
    {
      if q < last {
        assert valid[..last][q] == valid[q];
        forall l | q < l < last
          ensures valid[..last][l].key != valid[..last][q].key
        {
          assert valid[..last][l] == valid[l];
        }
        assert labels[..last][q] == labels[q];
      }
    }
  }

  /** `computeClusters` after the observations are built, with `finite` as the filter. */
  function ClusterKept(obs: seq<Observation>, finite: JsValue -> bool, sqrt: real -> real, rotate: (Matrix, nat, nat) -> Plane): (m: map<string, nat>)
    requires WellFormed(obs) && KeepsShape(rotate)
    requires forall v :: finite(v) ==> GlobalIsFinite(v)
    ensures forall k :: k in m <==> KeptKey(obs, finite, k)
    ensures forall k :: k in m ==> m[k] < 3
  {
    var valid := Keep(obs, finite);
    KeptShape(obs, finite);
    if |valid| == 0 then map[]
    else
      var labels := ValidLabels(valid, sqrt, rotate);
      var m := LabelMap(valid, labels);
      MappedLabels(valid, labels, 3);
      m
  }

  /** The kept observations have four features each, all passing the global `isFinite`. */
  lemma KeptShape(obs: seq<Observation>, finite: JsValue -> bool)
    requires WellFormed(obs) && forall v :: finite(v) ==> GlobalIsFinite(v)
    ensures WellFormed(Keep(obs, finite)) && AllKept(Keep(obs, finite), GlobalIsFinite)
    ensures forall k :: HasKey(Keep(obs, finite), k) <==> KeptKey(obs, finite, k)
  {
    var valid := Keep(obs, finite);
    forall q | 0 <= q < |valid|
      ensures |valid[q].vec| == 4 && AllFinite(valid[q], GlobalIsFinite)
    {
      assert valid[q] in valid;
      var p :| 0 <= p < |obs| && obs[p] == valid[q];
    }
    forall k
      ensures HasKey(valid, k) <==> KeptKey(obs, finite, k)
    {
      if KeptKey(obs, finite, k) {
        var o :| o in obs && AllFinite(o, finite) && o.key == k;
        assert o in valid;
        var q :| 0 <= q < |valid| && valid[q] == o;
      }
      if HasKey(valid, k) {
        var q :| 0 <= q < |valid| && valid[q].key == k;
        assert valid[q] in valid;
      }
    }
  }

  /** Every value of the label map is one of the labels, so it is below any bound they share. */
  lemma MappedLabels(valid: seq<Observation>, labels: seq<nat>, bound: nat)
    requires |labels| == |valid| && forall q :: 0 <= q < |labels| ==> labels[q] < bound
    ensures forall k :: k in LabelMap(valid, labels) ==> LabelMap(valid, labels)[k] < bound
  {
    var m := LabelMap(valid, labels);
    forall k | k in m
      ensures m[k] < bound
    {
      var q :| 0 <= q < |valid| && valid[q].key == k;
      var q' := LastWithKey(valid, q);
      assert m[k] == labels[q'];
    }
  }

  /** The last position at or after `q` whose observation has the same key as `valid[q]`. */
  function LastWithKey(valid: seq<Observation>, q: nat): (l: nat)
    requires q < |valid|
    ensures q <= l < |valid| && valid[l].key == valid[q].key
    ensures forall l' :: l < l' < |valid| ==> valid[l'].key != valid[q].key
    decreases |valid| - q
  {
    if exists l' :: q < l' < |valid| && valid[l'].key == valid[q].key then
      var l' :| q < l' < |valid| && valid[l'].key == valid[q].key;
      LastWithKey(valid, l')
    else q
  }

  /** `computeClusters` as written, filtering with the global `isFinite`: a farm-season whose
      feature is `null` is kept. No kept observation means an empty map. */
  function ComputeClustersAsWritten(obs: seq<Observation>, sqrt: real -> real, rotate: (Matrix, nat, nat) -> Plane): (m: map<string, nat>)
    requires WellFormed(obs) && KeepsShape(rotate)
    ensures forall k :: k in m <==> KeptKey(obs, GlobalIsFinite, k)
    ensures (forall o :: o in obs ==> !AllFinite(o, GlobalIsFinite)) ==> m == map[]
    ensures forall k :: k in m ==> m[k] < 3
  {
    ClusterKept(obs, GlobalIsFinite, sqrt, rotate)
  }

  /** `computeClusters` with `Number.isFinite`: only farm-seasons whose four features are all
      numbers get a label, each below 3. */
  function ComputeClusters(obs: seq<Observation>, sqrt: real -> real, rotate: (Matrix, nat, nat) -> Plane): (m: map<string, nat>)
    requires WellFormed(obs) && KeepsShape(rotate)
    ensures forall k :: k in m <==> KeptKey(obs, NumberIsFinite, k)
    ensures forall k :: k in m ==> exists o :: o in obs && o.key == k && forall a :: 0 <= a < |o.vec| ==> o.vec[a].Num?
    ensures (forall o :: o in obs ==> !AllFinite(o, NumberIsFinite)) ==> m == map[]
    ensures forall k :: k in m ==> m[k] < 3
  {
    ClusterKept(obs, NumberIsFinite, sqrt, rotate)
  }

  /** With distinct keys and any filter at least as strict as the global `isFinite`, each kept
      observation's key maps to the label of its own row of the clustered matrix. */
  lemma KeptAlignment(obs: seq<Observation>, finite: JsValue -> bool, sqrt: real -> real, rotate: (Matrix, nat, nat) -> Plane)
    requires WellFormed(obs) && KeepsShape(rotate) && DistinctKeys(obs)
    requires forall v :: finite(v) ==> GlobalIsFinite(v)
    ensures var valid := Keep(obs, finite);
      |valid| >= 1 ==>
        WellFormed(valid) && AllKept(valid, GlobalIsFinite) &&
        var labels := ValidLabels(valid, sqrt, rotate);
        forall q :: 0 <= q < |valid| ==> ClusterKept(obs, finite, sqrt, rotate)[valid[q].key] == labels[q]
  {
    var valid := Keep(obs, finite);
    if |valid| >= 1 {
      KeepDistinct(obs, finite);
      KeptShape(obs, finite);
    }
  }

  /** Row alignment for the corrected filter `Number.isFinite`. */
  lemma RowAlignment(obs: seq<Observation>, sqrt: real -> real, rotate: (Matrix, nat, nat) -> Plane)
    requires WellFormed(obs) && KeepsShape(rotate) && DistinctKeys(obs)
    ensures var valid := Keep(obs, NumberIsFinite);
      |valid| >= 1 ==>
        WellFormed(valid) && AllKept(valid, GlobalIsFinite) &&
        var labels := ValidLabels(valid, sqrt, rotate);
        forall q :: 0 <= q < |valid| ==> ComputeClusters(obs, sqrt, rotate)[valid[q].key] == labels[q]
  {
    KeptAlignment(obs, NumberIsFinite, sqrt, rotate);
  }

  /** Row alignment for the filter as written, the global `isFinite`: every kept observation,
      `null` features included, is labelled by its own row. */
  lemma RowAlignmentAsWritten(obs: seq<Observation>, sqrt: real -> real, rotate: (Matrix, nat, nat) -> Plane)
    requires WellFormed(obs) && KeepsShape(rotate) && DistinctKeys(obs)
    ensures var valid := Keep(obs, GlobalIsFinite);
      |valid| >= 1 ==>
        WellFormed(valid) && AllKept(valid, GlobalIsFinite) &&
        var labels := ValidLabels(valid, sqrt, rotate);
        forall q :: 0 <= q < |valid| ==> ComputeClustersAsWritten(obs, sqrt, rotate)[valid[q].key] == labels[q]
  {
    KeptAlignment(obs, GlobalIsFinite, sqrt, rotate);
  }

  /** No two observations share a key. */
  predicate DistinctKeys(obs: seq<Observation>) {
    forall p, q :: 0 <= p < q < |obs| ==> obs[p].key != obs[q].key
  }

  /** Filtering keeps keys distinct. */
  lemma {:induction false} KeepDistinct(obs: seq<Observation>, finite: JsValue -> bool)
    requires DistinctKeys(obs)
    ensures DistinctKeys(Keep(obs, finite))
  {
    if |obs| > 0 {
      var last := |obs| - 1;
      KeepDistinct(obs[..last], finite);
      var front := Keep(obs[..last], finite);
      forall q | 0 <= q < |front|
        ensures front[q].key != obs[last].key
      {
        var p :| 0 <= p < last && obs[..last][p] == front[q];
      }
      var valid := Keep(obs, finite);
      if AllFinite(obs[last], finite) {
        assert valid == front + [obs[last]];
        forall p, q | 0 <= p < q < |valid|
          ensures valid[p].key != valid[q].key
        {
          if q < |front| {
            assert valid[p] == front[p] && valid[q] == front[q];
            assert front[p].key != front[q].key;
          } else {
            assert valid[p] == front[p] && valid[q] == obs[last];
          }
        }
      } else {
        assert valid == front;
      }
    }
  }

  /** As written, the global `isFinite` keeps a farm-season whose features are numbers or
      `null`, with at least one `null`, and the farm-season gets cluster 0 as if the missing
      feature were 0. */
  lemma NullFeatureKept(o: Observation, sqrt: real -> real, rotate: (Matrix, nat, nat) -> Plane)
    requires |o.vec| == 4 && AllFinite(o, GlobalIsFinite) && Null in o.vec && KeepsShape(rotate)
    ensures Keep([o], GlobalIsFinite) == [o]
    ensures ComputeClustersAsWritten([o], sqrt, rotate) == map[o.key := 0]
  {
    SingleKeep(o, GlobalIsFinite);
    SingleKept([o], GlobalIsFinite, sqrt, rotate, o);
  }

  /** With `Number.isFinite` the same farm-season is left out and nothing is labelled. */
  lemma NullFeatureDropped(o: Observation, sqrt: real -> real, rotate: (Matrix, nat, nat) -> Plane)
    requires |o.vec| == 4 && Null in o.vec && KeepsShape(rotate)
    ensures Keep([o], NumberIsFinite) == []
    ensures ComputeClusters([o], sqrt, rotate) == map[]
  {
    var a :| 0 <= a < |o.vec| && o.vec[a] == Null;
    assert !NumberIsFinite(o.vec[a]);
    SingleKeep(o, NumberIsFinite);
    assert forall x :: x in [o] ==> x == o;
  }

  /** Filtering a single observation keeps it exactly when all its features pass. */
  lemma SingleKeep(o: Observation, finite: JsValue -> bool)
    ensures Keep([o], finite) == if AllFinite(o, finite) then [o] else []
  {
    assert [o][..0] == [];
  }

  /** Filtering distributes over concatenation: the kept observations keep their original
      order and multiplicity. With `SingleKeep` this pins `Keep` down to the source's
      `Array.prototype.filter`. */
  lemma {:induction false} KeepAppend(a: seq<Observation>, b: seq<Observation>, finite: JsValue -> bool)
    ensures Keep(a + b, finite) == Keep(a, finite) + Keep(b, finite)
  {
    if |b| == 0 {
      assert a + b == a;
    } else {
      var last := |b| - 1;
      var ab := a + b;
      assert ab[..|ab| - 1] == a + b[..last];
      assert ab[|ab| - 1] == b[last];
      KeepAppend(a, b[..last], finite);
      KeepLast(ab, finite);
      KeepLast(b, finite);
      var ka, kb := Keep(a, finite), Keep(b[..last], finite);
      if AllFinite(b[last], finite) {
        assert (ka + kb) + [b[last]] == ka + (kb + [b[last]]);
      }
    }
  }

  /** The last observation is kept, after the others, exactly when it passes. */
  lemma KeepLast(obs: seq<Observation>, finite: JsValue -> bool)
    requires |obs| > 0
    ensures var last := |obs| - 1;
      Keep(obs, finite) == if AllFinite(obs[last], finite) then Keep(obs[..last], finite) + [obs[last]] else Keep(obs[..last], finite)
  {
  }

  /** A farm-season with no nitrogen record: its first feature is `null`. */
  const NoNitrogen: Observation := Observation("f1_2021", [Null, Num(1.0), Num(2.0), Num(3.0)])

  /** The farm-season without a nitrogen record passes the filter as written and enters the
      feature matrix with a nitrogen rate of 0. */
  lemma NoNitrogenRow()
    ensures Null in NoNitrogen.vec && AllFinite(NoNitrogen, GlobalIsFinite)
    ensures FeatureMatrix([NoNitrogen]) == [[0.0, 1.0, 2.0, 3.0]]
  {
    var m := FeatureMatrix([NoNitrogen]);
    assert m[0] == [0.0, 1.0, 2.0, 3.0];
  }

  /** When the filter keeps a single observation, its key is mapped to cluster 0 and nothing
      else is mapped. */
  lemma SingleKept(obs: seq<Observation>, finite: JsValue -> bool, sqrt: real -> real, rotate: (Matrix, nat, nat) -> Plane, o: Observation)
    requires WellFormed(obs) && KeepsShape(rotate) && (forall v :: finite(v) ==> GlobalIsFinite(v))
    requires Keep(obs, finite) == [o]
    ensures ClusterKept(obs, finite, sqrt, rotate) == map[o.key := 0]
  {
    var valid := Keep(obs, finite);
    KeptShape(obs, finite);
    var labels := ValidLabels(valid, sqrt, rotate);
    SingleLabelMap(o, 0);
    assert ClusterKept(obs, finite, sqrt, rotate) == LabelMap(valid, labels);
  }

  lemma SingleLabelMap(o: Observation, t: nat)
    ensures LabelMap([o], [t]) == map[o.key := t]
  {
    assert [o][..0] == [] && [t][..0] == [];
  }

  /** The placeholder features of cluster-lca-chara.js: zero for every row and column. */
  function PlaceholderRows(n: nat): (m: Matrix)
    ensures |m| == n && Rectangular(m, 4)
    ensures forall i, j :: 0 <= i < n && 0 <= j < 4 ==> m[i][j] == 0.0
  {
    seq(n, _ => [0.0, 0.0, 0.0, 0.0])
  }

  /** `init`: `ward(pca(rowsForPca, 2).scores, 3)` of the placeholder rows, one label per export. */
  function CharaInit(n: nat, sqrt: real -> real, rotate: (Matrix, nat, nat) -> Plane): (labels: seq<nat>)
    requires n >= 2 && KeepsShape(rotate)
    ensures |labels| == n && forall i :: 0 <= i < n ==> labels[i] < Min(n, 3)
  {
    CharaWard.CharaWard(Pca.Pca(PlaceholderRows(n), 4, 2, sqrt, rotate, Columns).scores, 2, 3)
  }

  /** With the placeholder rows every score is `[0, 0]`. */
  lemma PlaceholderScores(n: nat, sqrt: real -> real, rotate: (Matrix, nat, nat) -> Plane)
    requires n >= 2 && KeepsShape(rotate) && IsSqrt(sqrt)
    ensures var scores := Pca.Pca(PlaceholderRows(n), 4, 2, sqrt, rotate, Columns).scores;
      forall i :: 0 <= i < n ==> scores[i] == [0.0, 0.0]
  {
    var rows := PlaceholderRows(n);
    ZeroInput(rows, 4, 2, sqrt, rotate, Columns);
    ZeroPairs(Pca.Pca(rows, 4, 2, sqrt, rotate, Columns).scores);
  }

  /** Rows of two zero entries are all `[0, 0]`. */
  lemma ZeroPairs(scores: Matrix)
    requires Rectangular(scores, Min(2, 4))
    requires forall i, c :: 0 <= i < |scores| && 0 <= c < Min(2, 4) ==> scores[i][c] == 0.0
    ensures forall i :: 0 <= i < |scores| ==> scores[i] == [0.0, 0.0]
  {
    forall i | 0 <= i < |scores|
      ensures scores[i] == [0.0, 0.0]
    {
      assert |scores[i]| == 2 && scores[i][0] == 0.0 && scores[i][1] == 0.0;
    }
  }

  /** With the placeholder rows every merge costs nothing and the clusters form in pure scan
      order: the first two clusters are joined each time. */
  lemma PlaceholderClusters(n: nat, sqrt: real -> real, rotate: (Matrix, nat, nat) -> Plane)
    requires n >= 2 && KeepsShape(rotate) && IsSqrt(sqrt)
    ensures var scores := Pca.Pca(PlaceholderRows(n), 4, 2, sqrt, rotate, Columns).scores;
      CharaWard.FinalClusters(scores, 2, 3) == CharaWard.ScanOrderMerge(CharaWard.Initial(scores, 2), 3)
  {
    PlaceholderScores(n, sqrt, rotate);
    var scores := Pca.Pca(PlaceholderRows(n), 4, 2, sqrt, rotate, Columns).scores;
    SameRowsScanOrder(scores, [0.0, 0.0]);
  }

  lemma SameRowsScanOrder(scores: Matrix, point: Vector)
    requires |scores| >= 1 && |point| == 2 && forall i :: 0 <= i < |scores| ==> scores[i] == point
    ensures CharaWard.FinalClusters(scores, 2, 3) == CharaWard.ScanOrderMerge(CharaWard.Initial(scores, 2), 3)
  {
    var cs := CharaWard.Initial(scores, 2);
    forall c | c in cs
      ensures c.centroid == point
    {
      var q :| 0 <= q < |cs| && cs[q] == c;
    }
    CharaWard.SamePointScanOrder(cs, 2, 3, point);
  }
}
