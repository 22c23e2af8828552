/** `pca(matrix, k)`: standardise, form the covariance matrix, decompose it with
    `jacobiEigen`, order the eigenpairs by decreasing eigenvalue, keep the first `k`
    eigenvectors as loadings and project every standardised row onto them. */
module Pca {
  import opened RealArith
  import opened Linalg
  import opened Standardization
  import opened Covariance
  import opened Jacobi
  import opened Ordering

  datatype Projection = Projection(scores: Matrix, loadings: Matrix)

  /** Pointwise sum of two vectors. */
  function Add(u: Vector, v: Vector): (w: Vector)
    requires |u| == |v|
    ensures |w| == |u|
  {
    seq(|u|, j requires 0 <= j < |u| => u[j] + v[j])
  }

  /** The column sums of the first `k` rows, as one vector. */
  function ColumnSums(z: Matrix, p: nat, k: nat): (t: Vector)
    requires k <= |z| && Rectangular(z, p)
    ensures |t| == p
  {
    seq(p, j requires 0 <= j < p => ColumnSum(z, j, k))
  }

  /** The eigen decomposition of the covariance of the standardised matrix. */
  function Spectrum(m: Matrix, p: nat, sqrt: real -> real, rotate: (Matrix, nat, nat) -> Plane, layout: Layout): (e: Eigen)
    requires |m| >= 2 && p >= 2 && Rectangular(m, p) && KeepsShape(rotate)
    ensures |e.values| == p && |e.vectors| == p && Square(e.vectors)
  {
    JacobiEigen(CovarianceMatrix(Standardize(m, p, sqrt).z, p), rotate, layout)
  }

  /** `order.slice(0, k).map((o) => eigenvectors[o.idx])`. */
  function Loadings(e: Eigen, k: nat): (l: Matrix)
    requires |e.values| == |e.vectors| && Square(e.vectors)
    ensures |l| == Min(k, |e.values|) && Rectangular(l, |e.vectors|)
  {
    var order := Order(e.values);
    seq(Min(k, |order|), c requires 0 <= c < Min(k, |order|) => e.vectors[order[c]])
  }

  /** `Z.map((row) => loadings.map((vec) => vec.reduce((sum, v, j) => sum + v * row[j], 0)))`. */
  function Scores(z: Matrix, loadings: Matrix, p: nat): (s: Matrix)
    requires Rectangular(z, p) && Rectangular(loadings, p)
    ensures |s| == |z| && Rectangular(s, |loadings|)
    ensures forall i, c :: 0 <= i < |z| && 0 <= c < |loadings| ==> s[i][c] == Dot(loadings[c], z[i])
  {
    seq(|z|, i requires 0 <= i < |z| =>
      seq(|loadings|, c requires 0 <= c < |loadings| => Dot(loadings[c], z[i])))
  }

  /** `pca(matrix, k)` for a matrix of `n >= 2` rows of `p >= 2` columns. The result has
      one score row per input row with `min(k, p)` components, and every score column sums
      to zero because every column of Z does. */
  function Pca(m: Matrix, p: nat, k: nat, sqrt: real -> real, rotate: (Matrix, nat, nat) -> Plane, layout: Layout): (r: Projection)
    requires |m| >= 2 && p >= 2 && Rectangular(m, p) && KeepsShape(rotate)
    ensures |r.loadings| == Min(k, p) && Rectangular(r.loadings, p)
    ensures |r.scores| == |m| && Rectangular(r.scores, Min(k, p))
    ensures forall c :: 0 <= c < Min(k, p) ==> ColumnSum(r.scores, c, |m|) == 0.0
    ensures r.loadings == Loadings(Spectrum(m, p, sqrt, rotate, layout), k)
    ensures forall i, c :: 0 <= i < |m| && 0 <= c < Min(k, p) ==>
      r.scores[i][c] == Dot(r.loadings[c], Standardize(m, p, sqrt).z[i])
  {
    var z := Standardize(m, p, sqrt).z;
    var loadings := Loadings(Spectrum(m, p, sqrt, rotate, layout), k);
    CentredScores(z, loadings, p);
    Projection(Scores(z, loadings, p), loadings)
  }

  /** Projecting centred rows gives centred score columns. */
  lemma CentredScores(z: Matrix, loadings: Matrix, p: nat)
    requires Rectangular(z, p) && Rectangular(loadings, p)
    requires forall j :: 0 <= j < p ==> ColumnSum(z, j, |z|) == 0.0
    ensures forall c :: 0 <= c < |loadings| ==> ColumnSum(Scores(z, loadings, p), c, |z|) == 0.0
  {
    forall c | 0 <= c < |loadings|
      ensures ColumnSum(Scores(z, loadings, p), c, |z|) == 0.0
    {
      ScoreColumnSum(z, loadings, p, c, |z|);
      DotZero(loadings[c], ColumnSums(z, p, |z|));
    }
  }

  lemma {:induction false} DotAdd(u: Vector, v: Vector, w: Vector)
    requires |u| == |v| == |w|
    ensures Dot(u, Add(v, w)) == Dot(u, v) + Dot(u, w)
  {
    if |u| > 0 {
      var n := |u|;
      assert Add(v, w)[..n - 1] == Add(v[..n - 1], w[..n - 1]);
      DotAdd(u[..n - 1], v[..n - 1], w[..n - 1]);
      MulAdd(u[n - 1], v[n - 1], w[n - 1]);
    }
  }

  lemma {:induction false} DotZero(u: Vector, v: Vector)
    requires |u| == |v| && forall j :: 0 <= j < |v| ==> v[j] == 0.0
    ensures Dot(u, v) == 0.0
  {
    if |u| > 0 {
      DotZero(u[..|u| - 1], v[..|v| - 1]);
    }
  }

  /** Summing a score column over rows is projecting the column sums of Z. */
  lemma {:induction false} ScoreColumnSum(z: Matrix, loadings: Matrix, p: nat, c: nat, k: nat)
    requires Rectangular(z, p) && Rectangular(loadings, p) && c < |loadings| && k <= |z|
    ensures ColumnSum(Scores(z, loadings, p), c, k) == Dot(loadings[c], ColumnSums(z, p, k))
  {
    if k == 0 {
      DotZero(loadings[c], ColumnSums(z, p, 0));
    } else {
      ScoreColumnSum(z, loadings, p, c, k - 1);
      assert ColumnSums(z, p, k) == Add(ColumnSums(z, p, k - 1), z[k - 1]);
      DotAdd(loadings[c], ColumnSums(z, p, k - 1), z[k - 1]);
    }
  }

  /** The loadings are the eigenvectors of the largest eigenvalues, largest first: listed
      eigenvalues never increase, and no eigenvector left out has a larger eigenvalue than
      one kept. */
  lemma LoadingsAreLeading(e: Eigen, k: nat)
    requires |e.values| == |e.vectors| && Square(e.vectors)
    ensures var order, kept := Order(e.values), Min(k, |e.values|);
      && |Loadings(e, k)| == kept
      && (forall c :: 0 <= c < kept ==> Loadings(e, k)[c] == e.vectors[order[c]])
      && (forall c, d :: 0 <= c < d < kept ==> e.values[order[c]] >= e.values[order[d]])
      && (forall c, x :: 0 <= c < kept && 0 <= x < |e.values| && x !in order[..kept] ==>
            e.values[order[c]] >= e.values[x])
  {
    TopOfRanked(e.values, Order(e.values), Min(k, |e.values|));
  }

  /** With all-zero input, as the placeholder features of cluster-lca-chara.js give, every
      column falls back to divisor 1, Z and the covariance matrix are all zero, Jacobi stops
      before its first rotation, and every score is zero. */
  lemma ZeroInput(m: Matrix, p: nat, k: nat, sqrt: real -> real, rotate: (Matrix, nat, nat) -> Plane, layout: Layout)
    requires |m| >= 2 && p >= 2 && Rectangular(m, p) && KeepsShape(rotate) && IsSqrt(sqrt)
    requires forall i, j :: 0 <= i < |m| && 0 <= j < p ==> m[i][j] == 0.0
    ensures forall j :: 0 <= j < p ==> Standardize(m, p, sqrt).std[j] == 1.0
    ensures Spectrum(m, p, sqrt, rotate, layout).iterations == 0
    ensures Spectrum(m, p, sqrt, rotate, layout).vectors == Identity(p)
    ensures forall i, c :: 0 <= i < |m| && 0 <= c < Min(k, p) ==> Pca(m, p, k, sqrt, rotate, layout).scores[i][c] == 0.0
  {
    ZeroStandardized(m, p, sqrt);
    var st := Standardize(m, p, sqrt);
    var cov := CovarianceMatrix(st.z, p);
    forall a, b | 0 <= a < p && 0 <= b < p
      ensures cov[a][b] == 0.0
    {
      ZeroColumnCovariance(st.z, p, a);
    }
    AlreadyDiagonal(cov, rotate, layout);
    ZeroScores(st.z, Pca(m, p, k, sqrt, rotate, layout).loadings, p);
  }

  /** Projecting all-zero rows gives all-zero scores. */
  lemma ZeroScores(z: Matrix, loadings: Matrix, p: nat)
    requires Rectangular(z, p) && Rectangular(loadings, p)
    requires forall i, j :: 0 <= i < |z| && 0 <= j < p ==> z[i][j] == 0.0
    ensures forall i, c :: 0 <= i < |z| && 0 <= c < |loadings| ==> Dot(loadings[c], z[i]) == 0.0
  {
    forall i, c | 0 <= i < |z| && 0 <= c < |loadings|
      ensures Dot(loadings[c], z[i]) == 0.0
    {
      DotZero(loadings[c], z[i]);
    }
  }

  /** All-zero columns fall back to divisor 1 and standardize to zero. */
  lemma ZeroStandardized(m: Matrix, p: nat, sqrt: real -> real)
    requires |m| >= 2 && Rectangular(m, p) && IsSqrt(sqrt)
    requires forall i, j :: 0 <= i < |m| && 0 <= j < p ==> m[i][j] == 0.0
    ensures forall j :: 0 <= j < p ==> Standardize(m, p, sqrt).std[j] == 1.0 && ZeroColumn(Standardize(m, p, sqrt).z, j)
  {
    forall j | 0 <= j < p
      ensures Standardize(m, p, sqrt).std[j] == 1.0 && ZeroColumn(Standardize(m, p, sqrt).z, j)
    {
      assert ConstantColumn(m, j);
      ZeroVarianceFallback(m, p, sqrt, j);
    }
  }
}
