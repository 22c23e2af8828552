/** The covariance stage of `pca`: products of z-scores accumulated on the upper triangle
    `j >= i`, divided by `n - 1`, and mirrored into the lower triangle. */
module Covariance {
  import opened RealArith
  import opened Linalg
  import opened Standardization

  /** `cov[a][b] += row[a] * row[b]` over the first `k` rows. */
  function CrossSum(z: Matrix, a: nat, b: nat, k: nat): real
    requires k <= |z| && HasColumn(z, a) && HasColumn(z, b)
  {
    if k == 0 then 0.0 else CrossSum(z, a, b, k - 1) + z[k - 1][a] * z[k - 1][b]
  }

  /** The sample covariance of columns `a` and `b`, as a reference definition that makes no
      use of the triangle: the full cross sum over all rows divided by `n - 1`. */
  function SampleCovariance(z: Matrix, a: nat, b: nat): real
    requires |z| >= 2 && HasColumn(z, a) && HasColumn(z, b)
  {
    CrossSum(z, a, b, |z|) / ((|z| - 1) as real)
  }

  /** The matrix `cov` as `pca` leaves it: an entry on or above the diagonal holds its own
      accumulated sum divided by `n - 1`; an entry below it is copied from its mirror image. */
  function CovarianceMatrix(z: Matrix, p: nat): (cov: Matrix)
    requires |z| >= 2 && Rectangular(z, p)
    ensures |cov| == p && Square(cov)
    ensures forall a, b :: 0 <= a < p && 0 <= b < p ==> cov[a][b] == cov[b][a]
    ensures forall a, b :: 0 <= a < p && 0 <= b < p ==> cov[a][b] == SampleCovariance(z, a, b)
  {
    assert forall a :: 0 <= a < p ==> HasColumn(z, a);
    var cov := seq(p, a requires 0 <= a < p =>
      seq(p, b requires 0 <= b < p =>
        if a <= b then CrossSum(z, a, b, |z|) / ((|z| - 1) as real)
        else CrossSum(z, b, a, |z|) / ((|z| - 1) as real)));
    forall a, b | 0 <= a < p && 0 <= b < p
      ensures cov[a][b] == SampleCovariance(z, a, b)
    {
      CrossSumSymmetric(z, a, b, |z|);
    }
    cov
  }

  /** The accumulated products do not depend on the order of the two columns. */
  lemma {:induction false} CrossSumSymmetric(z: Matrix, a: nat, b: nat, k: nat)
    requires k <= |z| && HasColumn(z, a) && HasColumn(z, b)
    ensures CrossSum(z, a, b, k) == CrossSum(z, b, a, k)
  {
    if k > 0 {
      CrossSumSymmetric(z, a, b, k - 1);
    }
  }

  /** On the diagonal the cross sum is the squared deviation from 0. */
  lemma {:induction false} CrossSumDiagonal(z: Matrix, a: nat, k: nat)
    requires k <= |z| && HasColumn(z, a)
    ensures CrossSum(z, a, a, k) == Deviation(z, a, 0.0, k)
  {
    if k > 0 {
      CrossSumDiagonal(z, a, k - 1);
      SelfProduct(z[k - 1][a]);
    }
  }

  /** A zero column contributes nothing to any cross sum it takes part in. */
  lemma {:induction false} CrossSumZeroColumn(z: Matrix, a: nat, b: nat, k: nat)
    requires k <= |z| && HasColumn(z, a) && HasColumn(z, b) && ZeroColumn(z, a)
    ensures CrossSum(z, a, b, k) == 0.0 && CrossSum(z, b, a, k) == 0.0
  {
    if k > 0 {
      CrossSumZeroColumn(z, a, b, k - 1);
    }
  }

  /** A zero column of Z gives a zero row and a zero column of the covariance matrix. */
  lemma ZeroColumnCovariance(z: Matrix, p: nat, a: nat)
    requires |z| >= 2 && Rectangular(z, p) && a < p && ZeroColumn(z, a)
    ensures forall b :: 0 <= b < p ==> CovarianceMatrix(z, p)[a][b] == 0.0 && CovarianceMatrix(z, p)[b][a] == 0.0
  {
    var cov := CovarianceMatrix(z, p);
    forall b | 0 <= b < p
      ensures cov[a][b] == 0.0 && cov[b][a] == 0.0
    {
      CrossSumZeroColumn(z, a, b, |z|);
    }
  }

  /** Standardising first makes the covariance a correlation matrix: a column that was not
      constant has variance exactly 1. */
  lemma UnitDiagonal(m: Matrix, p: nat, sqrt: real -> real, a: nat)
    requires |m| >= 2 && Rectangular(m, p) && a < p && IsSqrt(sqrt)
    requires !ConstantColumn(m, a)
    ensures CovarianceMatrix(Standardize(m, p, sqrt).z, p)[a][a] == 1.0
  {
    UnitVariance(m, p, sqrt, a);
    DiagonalFromDeviation(Standardize(m, p, sqrt).z, p, a);
  }

  /** A column whose squared sum is `n - 1` has a diagonal covariance entry of 1. */
  lemma DiagonalFromDeviation(z: Matrix, p: nat, a: nat)
    requires |z| >= 2 && Rectangular(z, p) && a < p
    requires Deviation(z, a, 0.0, |z|) == (|z| - 1) as real
    ensures CovarianceMatrix(z, p)[a][a] == 1.0
  {
    CrossSumDiagonal(z, a, |z|);
  }

  /** A constant raw column leaves a zero row and a zero column in the covariance matrix. */
  lemma ConstantColumnCovariance(m: Matrix, p: nat, sqrt: real -> real, a: nat)
    requires |m| >= 2 && Rectangular(m, p) && a < p && IsSqrt(sqrt)
    requires ConstantColumn(m, a)
    ensures forall b :: 0 <= b < p ==>
      CovarianceMatrix(Standardize(m, p, sqrt).z, p)[a][b] == 0.0 &&
      CovarianceMatrix(Standardize(m, p, sqrt).z, p)[b][a] == 0.0
  {
    ZeroColumnCovariance(Standardize(m, p, sqrt).z, p, a);
  }
}
