# PCA and Ward clustering engine of the farm LCA views

The farm-level life-cycle views cluster farm-seasons in two steps. First a principal
component analysis (`pca`) reduces four features to two scores per row. Then an
agglomerative Ward clustering (`ward`) cuts those scores into at most three groups. The
engine appears as near-identical copies in four scripts:

- `docs/cluster.js`, `pivot_app/cluster-lca.js` and `pivot_app/cluster-lca-single.js` hold
  the same `pca`, `jacobiEigen`, `identity` and `ward`. They are modelled once, and the table
  below cites the docs copy. The other two copies carry the same code at pca 456-487 /
  375-406, jacobiEigen 489-539 / 408-458 and ward 547-586 / 489-528.
- `pivot_app/cluster-lca-chara.js` has its own `ward`. Its merge cost is the canonical Ward
  cost divided by the merged size, clusters carry a `size` field, and the merged pair is
  removed with `filter`. Its `jacobiEigen` reads eigenvectors from the columns of the
  accumulated rotation rather than from its rows.

Everything is stated over exact `real` arithmetic:

- `Math.sqrt` is a parameter `sqrt`. Lemmas that need it assume `IsSqrt(sqrt)`, meaning it
  is non-negative and squares back to its argument.
- The Jacobi rotation (`atan2`, `cos`, `sin` and the update of `A`) is a parameter `rotate`.
  The model assumes only that it keeps the matrix square (`KeepsShape`).
- The pivot search, the `max < tol` stop, the iteration cap and the accumulation of the
  rotation into `V` are modelled as written.

Modules:

- `RealArith`: field facts over `real`.
- `Linalg`: vectors, matrices, squared distance and the nested pair scan.
- `Standardization`: column means, Bessel-corrected deviations with the `|| 1` fallback,
  and z-scores.
- `Covariance`: the upper-triangle accumulation and its mirror.
- `Jacobi`: the pivot search, the sweep loop and the two eigenvector layouts.
- `Ordering`: the stable descending sort of eigenvalue indices.
- `Pca`: the eigenpair spectrum, the loadings and the scores.
- `Agglomeration`: the first-cheapest pair scan, `splice`/`filter`, flattening of member
  lists and the label stamping.
- `Ward`: the canonical copy.
- `CharaWard`: the characterisation copy.
- `Divergence`: a four-row input on which the two copies disagree.
- `Views`: the three callers.
  - `computePCAandClusters` in docs/cluster.js.
  - `computeClusters` in cluster-lca-single.js: the finite filter, the empty guard and the
    key-to-label map.
  - `init` in cluster-lca-chara.js: the all-zero placeholder features.

## Model

| member | source | states |
|---|---|---|
| Linalg.TransposeTwice | pivot_app/cluster-lca-chara.js:794-796 | reading columns out twice gives the matrix back |
| Linalg.TransposeIdentity | docs/cluster.js:552-556 | the identity read column-wise is the identity |
| Linalg.ScanStep | docs/cluster.js:574-575 | advancing the inner loop of the `for i / for j = i + 1` scan visits exactly one more pair |
| Linalg.ScanNextRow | docs/cluster.js:574-575 | running past the last `j` and moving to the next `i` visits no new pair |
| Linalg.ScanDone | docs/cluster.js:574-575 | once `i` passes the last index, every pair has been visited |
| Linalg.SqDistNonNegative | docs/cluster.js:565-566 | the summed squared differences of two centroids are never negative |
| Linalg.SqDistSymmetric | docs/cluster.js:565-566 | the squared distance does not depend on which centroid comes first |
| Linalg.SqDistSelf | docs/cluster.js:565-566 | a centroid is at squared distance 0 from itself |
| Linalg.ScaledOffsets | pivot_app/cluster-lca-chara.js:809-813 | when every coordinate offset is scaled by `w`, the squared distance is scaled by `w^2` |
| Standardization.Std | docs/cluster.js:472-474 | the divisor is never zero, because a zero deviation falls back to 1 |
| Standardization.ZScores | docs/cluster.js:475 | each z-score times its column's divisor gives back the row value minus the column mean |
| Standardization.Standardize | docs/cluster.js:469-475 | the means and divisors are those of each column, every z-score column sums to zero, and a z-score column is all zero exactly when the input column is constant |
| Standardization.ZeroVarianceFallback | docs/cluster.js:474 | a constant column gets divisor 1 and an all-zero z-score column |
| Standardization.UnitVariance | docs/cluster.js:473-475 | a non-constant column gets divisor `sqrt(sum of squared deviations / (n - 1))`, and its z-scores then have squared sum `n - 1` |
| Standardization.ZeroDeviation | docs/cluster.js:473 | a zero sum of squared deviations means every entry equals the mean |
| Standardization.ConstantDeviation | docs/cluster.js:473 | a constant column has a zero sum of squared deviations about its value |
| Standardization.ConstantColumnMean | docs/cluster.js:469-471 | the mean of a constant column is its value |
| Standardization.DeviationNonNegative | docs/cluster.js:473 | the sum of squared deviations is never negative |
| Standardization.ScaledDeviation | docs/cluster.js:475 | dividing the offsets by `s` divides the sum of squared deviations by `s^2` |
| Covariance.CovarianceMatrix | docs/cluster.js:477-490 | the covariance matrix is p-by-p, exactly symmetric, and entry `[a][b]` is the cross sum of z-score columns a and b over `n - 1` |
| Covariance.CrossSumSymmetric | docs/cluster.js:478-484 | the cross sum of columns a and b equals that of b and a, which is what makes the mirror exact |
| Covariance.CrossSumDiagonal | docs/cluster.js:478-484 | the cross sum of a column with itself is its sum of squares |
| Covariance.ZeroColumnCovariance | docs/cluster.js:477-490 | an all-zero z-score column has a zero covariance row and column |
| Covariance.ConstantColumnCovariance | docs/cluster.js:472-490 | a constant input column gives a zero covariance row and column after standardising |
| Covariance.UnitDiagonal | docs/cluster.js:472-490 | a non-constant input column has covariance 1 with itself after standardising |
| Jacobi.PivotScan | docs/cluster.js:505-517 | the scan from any pair on ends with a pair above the diagonal whose magnitude is no smaller than any other and strictly larger than every pair scanned before it |
| Jacobi.PivotOf | docs/cluster.js:505-517 | the pivot `p < q` carries the largest magnitude `abs(A[p][q])` above the diagonal, ties going to the first pair in scan order because the comparison is a strict `>` |
| Jacobi.RotateRows | docs/cluster.js:539-544 | the accumulator stays square; every row other than p and q is unchanged; row p becomes `c*V[p] - s*V[q]` and row q becomes `s*V[p] + c*V[q]`, entry by entry |
| Jacobi.RotateColumns | pivot_app/cluster-lca-chara.js:783-788 | the accumulator stays square; every column other than p and q is unchanged; in each row i, column p becomes `c*V[i][p] - s*V[i][q]` and column q becomes `s*V[i][p] + c*V[i][q]` |
| Jacobi.Sweep | docs/cluster.js:504-546 | the loop runs at most `maxIter = 100` times, the eigenvalues are the final diagonal, and an early stop means the largest off-diagonal magnitude is below `tol = 1e-8` |
| Jacobi.JacobiEigen | docs/cluster.js:500-550 | the eigenvalues are the diagonal of the final matrix, at most 100 rotations happen, and fewer than 100 means every entry above the diagonal is below `tol` |
| Jacobi.AlreadyDiagonal | docs/cluster.js:518 | a matrix whose entries above the diagonal are all below `tol` is returned unrotated, with its diagonal and identity eigenvectors |
| Jacobi.RotateTranspose | pivot_app/cluster-lca-chara.js:783-788 | rotating the columns of `V` is rotating the rows of its transpose |
| Jacobi.LayoutsAgree | pivot_app/cluster-lca-chara.js:736-798 | accumulating the rotations in columns and reading columns out gives the same sweep as accumulating and reading rows |
| Jacobi.EigenvectorsAgree | pivot_app/cluster-lca-chara.js:794-796 | with the same rotation, accumulating into the columns of `V` and reading columns out gives the same eigenvalues and eigenvectors as accumulating into rows and reading rows |
| Ordering.Insert | docs/cluster.js:492 | inserting an index into a ranked list gives a ranked permutation of the list plus that index |
| Ordering.SortPrefix | docs/cluster.js:492 | the first k indices sorted give a ranked permutation of `0 .. k - 1` |
| Ordering.Order | docs/cluster.js:492 | the sorted order is a permutation of all indices by decreasing eigenvalue, equal values keeping their index order as the stable sort does |
| Ordering.RankedUnique | docs/cluster.js:492 | two ranked lists of the same indices are equal |
| Ordering.OrderUnique | docs/cluster.js:492 | any ranked permutation of the indices is the sorted order, so every stable descending sort gives the same result |
| Ordering.TopOfRanked | docs/cluster.js:492-493 | the first `kept` ranked indices carry values no smaller than any index left out |
| Pca.Spectrum | docs/cluster.js:475-491 | the eigen-decomposition of the covariance of the z-scores has p eigenvalues and p eigenvectors of length p |
| Pca.Loadings | docs/cluster.js:493 | there are `min(k, p)` loadings, each of length p |
| Pca.Scores | docs/cluster.js:494-496 | there is one score row per input row, with one entry per loading, and entry `(i, c)` is the dot product of loading c with row i |
| Pca.ScoreColumnSum | docs/cluster.js:494-496 | the sum of a score column is the loading dotted with the column sums of the z-scores |
| Pca.Pca | docs/cluster.js:465-498 | there are `min(k, p)` loadings of length p and n score rows of length `min(k, p)`. The loadings are those the eigen-decomposition of the covariance of Z ranks first (`Loadings`). Score `(i, c)` is loading c dotted with standardized row i, and every score column sums to zero |
| Pca.CentredScores | docs/cluster.js:494-496 | projecting rows whose columns each sum to zero gives score columns that each sum to zero |
| Pca.LoadingsAreLeading | docs/cluster.js:492-493 | there are `min(k, p)` loadings, loading c is the eigenvector of the c-th entry of the sorted order, the kept eigenvalues are non-increasing, and no eigenvalue left out exceeds one that is kept |
| Pca.ZeroInput | docs/cluster.js:469-497 | an all-zero input gets divisor 1 in every column, zero rotations, identity eigenvectors and all-zero scores |
| Pca.DotAdd | docs/cluster.js:495 | the dot product distributes over a vector sum |
| Agglomeration.Scan | docs/cluster.js:571-583 | from any point of the nested scan, the strict `<` running minimum ends at the first cheapest pair |
| Agglomeration.Pick | docs/cluster.js:571-583 | the chosen pair has `i < j`, no pair is cheaper, and every pair before it in scan order is strictly dearer |
| Agglomeration.FirstCheapestUnique | docs/cluster.js:577 | any pair that is cheapest and strictly cheaper than every earlier pair is the one chosen |
| Agglomeration.EqualCostsPickFirst | docs/cluster.js:577 | when all costs are equal, the first pair `(0, 1)` is chosen |
| Agglomeration.Splice | docs/cluster.js:589-590 | removing `bestJ` then `bestI` removes exactly those two entries and keeps the others in order |
| Agglomeration.FilterIsSplice | pivot_app/cluster-lca-chara.js:845 | filtering out positions `bestI` and `bestJ` gives the same list as the two splices |
| Agglomeration.SpliceKeepsRows | docs/cluster.js:586-591 | splicing out two member lists and pushing their concatenation keeps the multiset of rows |
| Agglomeration.FlattenMember | docs/cluster.js:593-594 | a row is listed in the concatenated member lists exactly when some cluster lists it |
| Agglomeration.Stamp | docs/cluster.js:594 | stamping a cluster's members sets exactly those labels to its position and leaves the others |
| Agglomeration.LabelsOfListed | docs/cluster.js:593-594 | when no row is listed twice, every listed row ends with the position of the cluster that lists it |
| Agglomeration.PartitionLabels | docs/cluster.js:593-595 | when the member lists partition `0 .. n-1`, every row's label is the position of its cluster, and two rows share a label exactly when one cluster holds both |
| Ward.Singletons | docs/cluster.js:561 | there is one singleton cluster per row, and their member lists partition the rows |
| Ward.Merged | docs/cluster.js:586-588 | the merged member list is `c1.idx ++ c2.idx`, and its centroid times its size is the size-weighted sum of the two centroids |
| Ward.Choose | docs/cluster.js:571-583 | the merged pair has `bestI < bestJ`, minimises the Ward cost, and is strictly cheaper than every pair before it in scan order |
| Ward.Step | docs/cluster.js:584-591 | one merge splices out the chosen pair, appends their merged cluster last, leaves one cluster fewer and keeps the multiset of rows |
| Ward.MembersStep | docs/cluster.js:589-591 | after a merge the member lists are the spliced lists plus the merged one |
| Ward.Agglomerate | docs/cluster.js:570-592 | merging until at most k remain leaves `min(n, k)` clusters holding the same rows |
| Ward.MergeCosts | docs/cluster.js:570-592 | there are `n - min(n, k)` merges, and the first costs no more than any pair of the starting clusters |
| Ward.FinalClusters | docs/cluster.js:560-592 | the final `min(n, k)` clusters' member lists partition the rows |
| Ward.Ward | docs/cluster.js:558-596 | there is one label per row, each below `min(n, k)` |
| Ward.WardLabels | docs/cluster.js:593-595 | each row's label is the position of the final cluster holding it, and each cluster's first member carries its position |
| Ward.WardSameCluster | docs/cluster.js:593-595 | two rows share a label exactly when one final cluster holds both |
| Ward.WardWithoutMerges | pivot_app/cluster-lca.js:550-585 | with at most k rows nothing is merged and the labels are `0 .. n-1` in row order |
| Ward.SingletonRows | docs/cluster.js:561 | the first n singletons hold exactly the rows `0 .. n-1` |
| Ward.MergedMean | docs/cluster.js:586-588 | merging two clusters whose centroids are their member means gives a centroid that is the merged members' mean |
| Ward.StepMeans | docs/cluster.js:584-591 | a merge step keeps every centroid the mean of its members |
| Ward.AgglomerateMeans | docs/cluster.js:570-592 | every cluster left after agglomeration has its members' mean as its centroid |
| Ward.CentroidIsMean | docs/cluster.js:558-592 | every final centroid is the mean of its member rows |
| Ward.SamePointMergesFirst | docs/cluster.js:571-591 | when all centroids coincide, the first pair is merged at cost 0 and all centroids still coincide |
| Ward.SamePointCosts | docs/cluster.js:570-592 | when all centroids coincide, every merge costs 0 |
| CharaWard.Initial | pivot_app/cluster-lca-chara.js:808 | there is one singleton of size 1 per row, and their point lists partition the rows |
| CharaWard.CharaCostNonNegative | pivot_app/cluster-lca-chara.js:820-828 | no candidate merge has a negative cost |
| CharaWard.Choose | pivot_app/cluster-lca-chara.js:815-835 | the merged pair has `bestI < bestJ`, minimises this copy's cost, and is strictly cheaper than every earlier pair in scan order |
| CharaWard.Step | pivot_app/cluster-lca-chara.js:836-846 | a merge filters out the chosen pair and pushes the merged cluster, keeping the multiset of rows and `size == points.length` |
| CharaWard.SpliceKeeps | pivot_app/cluster-lca-chara.js:845-846 | filtering the pair out and pushing the merged cluster keeps the rows and the size invariant |
| CharaWard.Agglomerate | pivot_app/cluster-lca-chara.js:814-847 | merging until at most k remain leaves `min(n, k)` clusters with the same rows and sizes that count their points |
| CharaWard.FinalClusters | pivot_app/cluster-lca-chara.js:808-847 | the final `min(n, k)` clusters' point lists partition the rows, and each size counts its points |
| CharaWard.CharaWard | pivot_app/cluster-lca-chara.js:806-851 | there is one label per row, each below `min(n, k)`, and it is the position of the final cluster holding the row |
| CharaWard.MembersStep | pivot_app/cluster-lca-chara.js:845-846 | after a merge the point lists are the filtered lists plus the merged one |
| CharaWard.MergedAgrees | pivot_app/cluster-lca-chara.js:836-844 | while sizes count points, this copy's merged cluster is the canonical copy's merged cluster |
| CharaWard.CostRelation | pivot_app/cluster-lca-chara.js:820-828 | this copy's cost is the canonical Ward cost divided by the merged size |
| CharaWard.DistancesToMerged | pivot_app/cluster-lca-chara.js:820-824 | each centroid's squared distance to the merged centroid is the other cluster's share squared times the centroids' squared distance |
| CharaWard.SamePointChoice | pivot_app/cluster-lca-chara.js:815-835 | when all centroids coincide, every cost is 0 and the pair `(0, 1)` is chosen |
| CharaWard.SamePointMergesFirst | pivot_app/cluster-lca-chara.js:836-846 | when all centroids coincide, a merge joins the first two clusters and pushes them last, and all centroids still coincide |
| CharaWard.SamePointScanOrder | pivot_app/cluster-lca-chara.js:814-847 | when all centroids coincide, agglomeration is the pure scan-order merge that always joins the first two clusters |
| Divergence.WardCostOnLine | docs/cluster.js:562-568 | on one feature the Ward cost is the size factor times the squared gap |
| Divergence.CharaCostOnLine | pivot_app/cluster-lca-chara.js:820-828 | on one feature this copy's cost is that value over the merged size |
| Divergence.WardExample | docs/cluster.js:558-596 | the rows 0, 0, 1, 2 with k = 2 are labelled `[0, 0, 1, 1]` |
| Divergence.CharaExample | pivot_app/cluster-lca-chara.js:806-851 | the same rows are labelled `[1, 1, 1, 0]` by this copy |
| Divergence.CopiesDisagree | pivot_app/cluster-lca-chara.js:820-828 | the two copies' labels for the same input differ |
| Views.FarmMatrix | docs/cluster.js:212-217 | there is one row of four features per farm-season |
| Views.ComputePcaAndClusters | docs/cluster.js:211-222 | there are two centred score columns per farm-season, and one label below `min(n, 3)` per farm-season. The loadings are the two leading eigenvectors of the farm matrix's covariance. Score row i is farm-season i's standardized features dotted with each loading, which is the alignment with `state.data` that the table relies on |
| Views.FarmClusters | docs/cluster.js:211-222 | two farm-seasons share a label exactly when Ward's final cluster over their scores holds both |
| Views.Keep | pivot_app/cluster-lca-single.js:364 | the filter keeps exactly the observations whose every feature passes, and nothing else |
| Views.KeepAppend | pivot_app/cluster-lca-single.js:364 | filtering a concatenation is the concatenation of the filtered parts, so kept observations keep their order and multiplicity |
| Views.SingleKeep | pivot_app/cluster-lca-single.js:364 | a single observation is kept exactly when every feature passes |
| Views.ValidLabels | pivot_app/cluster-lca-single.js:366-368 | there is one label below `min(n, 3)` per kept observation, and a single observation is labelled 0 |
| Views.LabelMap | pivot_app/cluster-lca-single.js:369-370 | exactly the kept keys are mapped, each to the label of the last observation carrying it |
| Views.LastWithKey | pivot_app/cluster-lca-single.js:370 | this is the last observation carrying a given key, since a later `set` overwrites an earlier one |
| Views.ComputeClustersAsWritten | pivot_app/cluster-lca-single.js:364-371 | with the global `isFinite`, the keys mapped are those of observations with no non-finite feature; when there is none the map is empty; and every label is below 3 |
| Views.ComputeClusters | pivot_app/cluster-lca-single.js:364-371 | with `Number.isFinite`, exactly the keys of observations whose four features are all numbers are mapped; when there is none the map is empty; and every label is below 3 |
| Views.KeptAlignment | pivot_app/cluster-lca-single.js:364-371 | with distinct keys and any filter at least as strict as the global `isFinite`, every kept observation's key maps to the label of its own row |
| Views.RowAlignment | pivot_app/cluster-lca-single.js:366-371 | with distinct keys and the `Number.isFinite` filter, every kept observation's key maps to the label of its own row |
| Views.RowAlignmentAsWritten | pivot_app/cluster-lca-single.js:364-371 | with distinct keys and the global `isFinite` filter as written, every kept observation's key, `null` features included, maps to the label of its own row |
| Views.KeepDistinct | pivot_app/cluster-lca-single.js:364 | filtering keeps keys distinct |
| Views.NullFeatureKept | pivot_app/cluster-lca-single.js:364 | an observation with a `null` feature passes the global `isFinite` filter and gets label 0 |
| Views.NullFeatureDropped | pivot_app/cluster-lca-single.js:364 | with `Number.isFinite`, the same observation is dropped and the map is empty |
| Views.NoNitrogenRow | pivot_app/cluster-lca-single.js:353-364 | a farm-season without nitrogen records passes the global filter and enters the matrix with nitrogen rate 0 |
| Views.CharaInit | pivot_app/cluster-lca-chara.js:97-107 | there is one label below `min(n, 3)` per export |
| Views.PlaceholderScores | pivot_app/cluster-lca-chara.js:99-106 | with the all-zero placeholders every score is `[0, 0]` |
| Views.PlaceholderClusters | pivot_app/cluster-lca-chara.js:104-107 | with the all-zero placeholders, clustering is the pure scan-order merge |
| Views.SameRowsScanOrder | pivot_app/cluster-lca-chara.js:814-847 | identical score rows are clustered by the pure scan-order merge |

## Left out

- The Jacobi rotation angle and update (`atan2`, `cos`, `sin`, the new `A`) are a parameter
  `rotate`. No claim is made that the sweep converges to true eigenpairs.
- The second off-diagonal update loop of pivot_app/cluster-lca-chara.js:775-782 is not
  modelled. It sits inside the rotation, which is a parameter.
- Jacobi.EigenvectorsAgree: proves agreement of the two eigenvector layouts only under one
  shared `rotate`. The characterisation copy updates `A` differently (its second loop at
  775-782), so its later pivots, eigenvalues and eigenvectors can differ from the other
  copies'. That difference is not modelled, because the rotation is a parameter.
- IEEE-754 doubles are not modelled. That covers rounding, `NaN`, `Math.sqrt(NaN) || 1` and
  the division by `n - 1` when there is a single row. `pca` requires at least two rows and two
  columns.
- Views.ValidLabels: with one kept observation the source's `pca` divides by zero and its
  scores are `NaN`. `ward` with `n <= 3` never reads them. So the model labels that row 0
  without calling `pca`.
- Ward.MergeCosts: the stretch property that successive merge costs never decrease (the
  no-inversion property of Ward's cost) is not proved. Only the first merge's minimality is.
- DOM rendering, filters, event handlers, `fetch`, CSV download and the heatmap are
  presentation and I/O.
- The farm-season aggregation of cluster-lca-single.js (289-362) is not modelled. That covers
  building `map` from operations, fertilisation, sowing and machine records, the `toNum`
  parsing, and the key `farmer_id_season`. Observations enter the model as a key and four
  feature values, where `null` marks a feature without records.
- The impact accounting in `scenarios.js`, `lca-*.js`, `n2o.js` and `methane.js`, and the
  conversion scripts under `scripts/`, are ETL that only feeds the engine a matrix.
- Ward.Ward: requires `k >= 1`. With `k = 0` the source's loop would merge down to one
  cluster and then read a second cluster that does not exist (`c2.idx` on `undefined`), which
  throws. Every caller passes `k = 3`.
- Views.ComputePcaAndClusters: its farm-seasons carry four numbers. The docs view's own
  aggregation (docs/cluster.js:124-127) gives `null` for a feature without records, and its
  filter (docs/cluster.js:43) uses the same global `isFinite`. So the finding below applies to
  that copy as well. That aggregation and filter are not modelled; the finding is modelled on
  cluster-lca-single.js only.
- Jacobi.Sweep: the source mutates `A` and `V` in place. The model threads them as values,
  which gives the same sequence of states.

## Findings

| source | as written | input that shows it | evidently intended | confidence | as-written member | corrected member |
|---|---|---|---|---|---|---|
| pivot_app/cluster-lca-single.js:364 | the global `isFinite(v)` converts with `Number` first, so `null` (a feature with no records) passes as 0 | the observation `f1_2021` with features `[null, 1, 2, 3]` is kept and clustered with nitrogen rate 0 | `Number.isFinite(v)`, which drops observations that lack a feature, as the `filter` of finite rows intends | not executed | Views.ComputeClustersAsWritten, Views.NullFeatureKept | Views.ComputeClusters, Views.NullFeatureDropped |
