/** The first stage of `pca`: column means, Bessel-corrected standard deviations with
    the `|| 1` fallback, and the z-score matrix Z. */
module Standardization {
  import opened Linalg
  import opened RealArith

  /** What the model relies on about the host's `Math.sqrt` on non-negative arguments:
      it returns the non-negative root, and the root of 0 is 0. */
  ghost predicate IsSqrt(sqrt: real -> real) {
    sqrt(0.0) == 0.0 &&
    forall x :: 0.0 <= x ==> 0.0 <= sqrt(x) && Sq(sqrt(x)) == x
  }

  /** Column `j` exists in every row. */
  predicate HasColumn(m: Matrix, j: nat) {
    forall i :: 0 <= i < |m| ==> j < |m[i]|
  }

  /** `mean[j] += v` over all rows, then `mean[j] /= n`. */
  function Mean(m: Matrix, j: nat): real
    requires |m| > 0 && HasColumn(m, j)
  {
    ColumnSum(m, j, |m|) / (|m| as real)
  }

  /** Sum of the squared deviations from `mu` of column `j` over the first `k` rows,
      `std[j] += (v - mean[j]) ** 2`. */
  function Deviation(m: Matrix, j: nat, mu: real, k: nat): real
    requires k <= |m| && HasColumn(m, j)
  {
    if k == 0 then 0.0
    else Deviation(m, j, mu, k - 1) + Sq(m[k - 1][j] - mu)
  }

  /** `Math.sqrt(std[j] / (n - 1)) || 1`. A zero root is falsy and becomes 1; with a single
      row the quotient is 0 / 0, whose NaN root is falsy too, so the divisor is 1 as well. */
  function Std(m: Matrix, j: nat, sqrt: real -> real): (s: real)
    requires |m| > 0 && HasColumn(m, j)
    ensures s != 0.0
  {
    if |m| == 1 then 1.0
    else
      var root := sqrt(Deviation(m, j, Mean(m, j), |m|) / ((|m| - 1) as real));
      if root == 0.0 then 1.0 else root
  }

  /** Every entry of column `j` equals the first one. */
  predicate ConstantColumn(m: Matrix, j: nat)
    requires |m| > 0 && HasColumn(m, j)
  {
    forall i :: 0 <= i < |m| ==> m[i][j] == m[0][j]
  }

  /** Every entry of column `j` is zero. */
  predicate ZeroColumn(m: Matrix, j: nat)
    requires HasColumn(m, j)
  {
    forall i :: 0 <= i < |m| ==> m[i][j] == 0.0
  }

  datatype Standardized = Standardized(mean: Vector, std: Vector, z: Matrix)

  /** The z-scores `(v - mean[j]) / std[j]` of every entry. */
  function ZScores(m: Matrix, p: nat, mean: Vector, std: Vector): (z: Matrix)
    requires Rectangular(m, p) && |mean| == p && |std| == p
    requires forall j :: 0 <= j < p ==> std[j] != 0.0
    ensures |z| == |m| && Rectangular(z, p)
    ensures forall i, j :: 0 <= i < |m| && 0 <= j < p ==> z[i][j] * std[j] == m[i][j] - mean[j]
  {
    var z := seq(|m|, i requires 0 <= i < |m| => seq(p, j requires 0 <= j < p => (m[i][j] - mean[j]) / std[j]));
    assert forall i, j :: 0 <= i < |m| && 0 <= j < p ==> z[i][j] * std[j] == m[i][j] - mean[j] by {
      forall i, j | 0 <= i < |m| && 0 <= j < p
        ensures z[i][j] * std[j] == m[i][j] - mean[j]
      {
        QuotientTimesDivisor(m[i][j] - mean[j], std[j]);
      }
    }
    z
  }

  /** The standardisation step of `pca`. Every column of Z sums to zero, and a column of
      Z is all zeros exactly when the raw column is constant. */
  function Standardize(m: Matrix, p: nat, sqrt: real -> real): (r: Standardized)
    requires |m| > 0 && Rectangular(m, p)
    ensures |r.mean| == p && |r.std| == p && |r.z| == |m| && Rectangular(r.z, p)
    ensures forall j :: 0 <= j < p ==> r.mean[j] == Mean(m, j) && r.std[j] == Std(m, j, sqrt)
    ensures forall i, j :: 0 <= i < |m| && 0 <= j < p ==> r.z[i][j] * r.std[j] == m[i][j] - r.mean[j]
    ensures forall j :: 0 <= j < p ==> ColumnSum(r.z, j, |m|) == 0.0
    ensures forall j :: 0 <= j < p ==> (ZeroColumn(r.z, j) <==> ConstantColumn(m, j))
  {
    var mean := seq(p, j requires 0 <= j < p => Mean(m, j));
    var std := seq(p, j requires 0 <= j < p => Std(m, j, sqrt));
    var z := ZScores(m, p, mean, std);
    ZColumnsCentred(m, p, mean, std, z);
    ZeroColumnsAreConstant(m, p, mean, std, z);
    Standardized(mean, std, z)
  }

  lemma ZColumnsCentred(m: Matrix, p: nat, mean: Vector, std: Vector, z: Matrix)
    requires |m| > 0 && Rectangular(m, p) && |mean| == p && |std| == p
    requires |z| == |m| && Rectangular(z, p)
    requires forall j :: 0 <= j < p ==> mean[j] == Mean(m, j) && std[j] != 0.0
    requires forall i, j :: 0 <= i < |m| && 0 <= j < p ==> z[i][j] * std[j] == m[i][j] - mean[j]
    ensures forall j :: 0 <= j < p ==> ColumnSum(z, j, |m|) == 0.0
  {
    forall j | 0 <= j < p
      ensures ColumnSum(z, j, |m|) == 0.0
    {
      assert HasColumn(m, j) && HasColumn(z, j);
      forall i | 0 <= i < |m|
        ensures z[i][j] * std[j] == m[i][j] - mean[j]
      {
      }
      QuotientProduct(mean[j], ColumnSum(m, j, |m|), |m| as real);
      ColumnCentred(m, z, j, mean[j], std[j]);
    }
  }

  /** One column of Z sums to zero, given that `mu` times the row count is the column total. */
  lemma ColumnCentred(m: Matrix, z: Matrix, j: nat, mu: real, s: real)
    requires |z| == |m| && HasColumn(m, j) && HasColumn(z, j) && s != 0.0
    requires mu * (|m| as real) == ColumnSum(m, j, |m|)
    requires forall i :: 0 <= i < |m| ==> z[i][j] * s == m[i][j] - mu
    ensures ColumnSum(z, j, |m|) == 0.0
  {
    ShiftedColumnSum(m, z, j, mu, s, |m|);
    ProductZero(ColumnSum(z, j, |m|), s);
  }

  lemma ZeroColumnsAreConstant(m: Matrix, p: nat, mean: Vector, std: Vector, z: Matrix)
    requires |m| > 0 && Rectangular(m, p) && |mean| == p && |std| == p
    requires |z| == |m| && Rectangular(z, p)
    requires forall j :: 0 <= j < p ==> mean[j] == Mean(m, j) && std[j] != 0.0
    requires forall i, j :: 0 <= i < |m| && 0 <= j < p ==> z[i][j] * std[j] == m[i][j] - mean[j]
    ensures forall j :: 0 <= j < p ==> (ZeroColumn(z, j) <==> ConstantColumn(m, j))
  {
    forall j | 0 <= j < p
      ensures ZeroColumn(z, j) <==> ConstantColumn(m, j)
    {
      if ConstantColumn(m, j) {
        ConstantColumnMean(m, j);
        forall i | 0 <= i < |m|
          ensures z[i][j] == 0.0
        {
          ProductZero(z[i][j], std[j]);
        }
      }
      if ZeroColumn(z, j) {
        forall i | 0 <= i < |m|
          ensures m[i][j] == m[0][j]
        {
        }
      }
    }
  }

  /** Summing the z-scores of a column: `sum(z) * s == sum(v) - k * mu`. */
  lemma {:induction false} ShiftedColumnSum(m: Matrix, z: Matrix, j: nat, mu: real, s: real, k: nat)
    requires k <= |m| && k <= |z| && HasColumn(m, j) && HasColumn(z, j)
    requires forall i :: 0 <= i < k ==> z[i][j] * s == m[i][j] - mu
    ensures ColumnSum(z, j, k) * s == ColumnSum(m, j, k) - (k as real) * mu
  {
    if k > 0 {
      ShiftedColumnSum(m, z, j, mu, s, k - 1);
      Distribute(ColumnSum(z, j, k - 1), z[k - 1][j], s);
      MulSucc((k - 1) as real, mu);
    }
  }

  lemma {:induction false} ConstantColumnSum(m: Matrix, j: nat, c: real, k: nat)
    requires k <= |m| && HasColumn(m, j)
    requires forall i :: 0 <= i < k ==> m[i][j] == c
    ensures ColumnSum(m, j, k) == (k as real) * c
  {
    if k > 0 {
      ConstantColumnSum(m, j, c, k - 1);
      MulSucc((k - 1) as real, c);
    }
  }

  /** The mean of a constant column is its value. */
  lemma ConstantColumnMean(m: Matrix, j: nat)
    requires |m| > 0 && HasColumn(m, j) && ConstantColumn(m, j)
    ensures Mean(m, j) == m[0][j]
  {
    ConstantColumnSum(m, j, m[0][j], |m|);
  }

  lemma {:induction false} DeviationNonNegative(m: Matrix, j: nat, mu: real, k: nat)
    requires k <= |m| && HasColumn(m, j)
    ensures Deviation(m, j, mu, k) >= 0.0
  {
    if k > 0 {
      DeviationNonNegative(m, j, mu, k - 1);
      SqNonNegative(m[k - 1][j] - mu);
    }
  }

  /** A zero sum of squared deviations means every entry equals `mu`. */
  lemma {:induction false} ZeroDeviation(m: Matrix, j: nat, mu: real, k: nat)
    requires k <= |m| && HasColumn(m, j) && Deviation(m, j, mu, k) == 0.0
    ensures forall i :: 0 <= i < k ==> m[i][j] == mu
  {
    if k > 0 {
      DeviationNonNegative(m, j, mu, k - 1);
      SqNonNegative(m[k - 1][j] - mu);
      SqZero(m[k - 1][j] - mu);
      ZeroDeviation(m, j, mu, k - 1);
    }
  }

  lemma {:induction false} ConstantDeviation(m: Matrix, j: nat, mu: real, k: nat)
    requires k <= |m| && HasColumn(m, j)
    requires forall i :: 0 <= i < k ==> m[i][j] == mu
    ensures Deviation(m, j, mu, k) == 0.0
  {
    if k > 0 {
      ConstantDeviation(m, j, mu, k - 1);
    }
  }

  /** Dividing every deviation by `s` divides their squared sum by `s^2`. */
  lemma {:induction false} ScaledDeviation(m: Matrix, z: Matrix, j: nat, mu: real, s: real, k: nat)
    requires k <= |m| && k <= |z| && HasColumn(m, j) && HasColumn(z, j)
    requires forall i :: 0 <= i < k ==> z[i][j] * s == m[i][j] - mu
    ensures Deviation(z, j, 0.0, k) * Sq(s) == Deviation(m, j, mu, k)
  {
    if k > 0 {
      ScaledDeviation(m, z, j, mu, s, k - 1);
      var e := z[k - 1][j] - 0.0;
      Distribute(Deviation(z, j, 0.0, k - 1), Sq(e), Sq(s));
      SqProduct(e, s);
    }
  }

  /** A constant column gets divisor 1 and becomes an all-zero column of Z. */
  lemma ZeroVarianceFallback(m: Matrix, p: nat, sqrt: real -> real, j: nat)
    requires |m| > 0 && Rectangular(m, p) && j < p && IsSqrt(sqrt)
    requires ConstantColumn(m, j)
    ensures Standardize(m, p, sqrt).std[j] == 1.0
    ensures ZeroColumn(Standardize(m, p, sqrt).z, j)
  {
    if |m| > 1 {
      ConstantColumnMean(m, j);
      ConstantDeviation(m, j, Mean(m, j), |m|);
    }
  }

  /** A column that is not constant is scaled to sample variance exactly 1: the squared
      sum of its z-scores (whose mean is 0) over the n rows is n - 1. */
  lemma UnitVariance(m: Matrix, p: nat, sqrt: real -> real, j: nat)
    requires |m| >= 2 && Rectangular(m, p) && j < p && IsSqrt(sqrt)
    requires !ConstantColumn(m, j)
    ensures Standardize(m, p, sqrt).std[j] == sqrt(Deviation(m, j, Mean(m, j), |m|) / ((|m| - 1) as real))
    ensures Deviation(Standardize(m, p, sqrt).z, j, 0.0, |m|) == (|m| - 1) as real
  {
    var r := Standardize(m, p, sqrt);
    var mu := Mean(m, j);
    var dev := Deviation(m, j, mu, |m|);
    var n1 := (|m| - 1) as real;
    DeviationNonNegative(m, j, mu, |m|);
    if dev == 0.0 {
      ZeroDeviation(m, j, mu, |m|);
      assert false;
    }
    var v := dev / n1;
    var root := sqrt(v);
    assert Sq(root) == v;
    if root == 0.0 {
      assert false;
    }
    ScaledDeviation(m, r.z, j, mu, root, |m|);
    CancelQuotient(Deviation(r.z, j, 0.0, |m|), dev, n1);
  }
}
