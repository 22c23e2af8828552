/** Vectors, matrices and the finite sums the PCA and Ward engine is built from.
    Everything is over exact `real` arithmetic; sums are accumulated left to right,
    as the JavaScript `forEach`/`reduce` loops do. */
module Linalg {
  import opened RealArith

  type Vector = seq<real>
  type Matrix = seq<seq<real>>

  /** Every row of `m` has exactly `cols` entries. */
  predicate Rectangular(m: Matrix, cols: nat) {
    forall i :: 0 <= i < |m| ==> |m[i]| == cols
  }

  /** A square matrix: as many columns as rows. */
  predicate Square(a: Matrix) {
    Rectangular(a, |a|)
  }

  function Abs(x: real): real {
    if x < 0.0 then -x else x
  }

  function Min(a: nat, b: nat): nat {
    if a <= b then a else b
  }

  /** The row indices 0, 1, ..., n-1 in order. */
  function Range(n: nat): (r: seq<nat>)
    ensures |r| == n
    ensures forall i :: 0 <= i < n ==> r[i] == i
  {
    seq(n, i => i)
  }

  /** Sum of column `j` over the first `k` rows. */
  function ColumnSum(m: Matrix, j: nat, k: nat): real
    requires k <= |m|
    requires forall i :: 0 <= i < |m| ==> j < |m[i]|
  {
    if k == 0 then 0.0 else ColumnSum(m, j, k - 1) + m[k - 1][j]
  }

  /** Dot product, `vec.reduce((sum, v, j) => sum + v * row[j], 0)`. */
  function Dot(u: Vector, v: Vector): real
    requires |u| == |v|
  {
    if |u| == 0 then 0.0
    else Dot(u[..|u| - 1], v[..|v| - 1]) + u[|u| - 1] * v[|v| - 1]
  }

  /** Squared Euclidean distance, summed coordinate by coordinate. */
  function SqDist(u: Vector, v: Vector): real
    requires |u| == |v|
  {
    PartialSqDist(u, v, |u|)
  }

  /** The squared differences of the first `k` coordinates, added left to right. */
  function PartialSqDist(u: Vector, v: Vector, k: nat): real
    requires |u| == |v| && k <= |u|
  {
    if k == 0 then 0.0 else PartialSqDist(u, v, k - 1) + Sq(u[k - 1] - v[k - 1])
  }

  /** The n-by-n identity, the starting value of the Jacobi accumulator. */
  function Identity(n: nat): (e: Matrix)
    ensures |e| == n && Square(e)
  {
    seq(n, i => seq(n, j => if i == j then 1.0 else 0.0))
  }

  /** Columns of a square matrix read out as rows. */
  function Transpose(a: Matrix): (t: Matrix)
    requires Square(a)
    ensures |t| == |a| && Square(t)
    ensures forall i, j :: 0 <= i < |a| && 0 <= j < |a| ==> t[i][j] == a[j][i]
  {
    seq(|a|, i requires 0 <= i < |a| => seq(|a|, j requires 0 <= j < |a| => a[j][i]))
  }

  /** The main diagonal `A.map((row, i) => row[i])`. */
  function Diagonal(a: Matrix): (d: Vector)
    requires Square(a)
    ensures |d| == |a|
  {
    seq(|a|, i requires 0 <= i < |a| => a[i][i])
  }

  /** Pair (i, j) is visited strictly before pair (i2, j2) by the nested scan
      `for i … for j = i + 1 …` used by both the Jacobi pivot search and Ward. */
  predicate ScanBefore(i: nat, j: nat, i2: nat, j2: nat) {
    i < i2 || (i == i2 && j < j2)
  }

  /** Moving from `(i, j)` to `(i, j + 1)` adds exactly the pair `(i, j)` to those visited. */
  lemma ScanStep(n: nat, i: nat, j: nat)
    requires i < j < n
    ensures forall x, y :: 0 <= x < y < n ==>
      (ScanBefore(x, y, i, j + 1) <==> ScanBefore(x, y, i, j) || (x == i && y == j))
  {
    forall x, y | 0 <= x < y < n
      ensures ScanBefore(x, y, i, j + 1) <==> ScanBefore(x, y, i, j) || (x == i && y == j)
    {
    }
  }

  /** Once `j` runs past the last index, `(i + 1, i + 2)` has the same pairs before it. */
  lemma ScanNextRow(n: nat, i: nat, j: nat)
    requires i < n <= j
    ensures forall x, y :: 0 <= x < y < n ==> (ScanBefore(x, y, i, j) <==> ScanBefore(x, y, i + 1, i + 2))
  {
    forall x, y | 0 <= x < y < n
      ensures ScanBefore(x, y, i, j) <==> ScanBefore(x, y, i + 1, i + 2)
    {
    }
  }

  /** Once `i` runs past the last index, every pair has been visited. */
  lemma ScanDone(n: nat, i: nat, j: nat)
    requires n <= i
    ensures forall x, y :: 0 <= x < y < n ==> ScanBefore(x, y, i, j) && ScanBefore(x, y, n, 0)
  {
  }

  lemma SqDistNonNegative(u: Vector, v: Vector)
    requires |u| == |v|
    ensures SqDist(u, v) >= 0.0
  {
    PartialNonNegative(u, v, |u|);
  }

  lemma {:induction false} PartialNonNegative(u: Vector, v: Vector, k: nat)
    requires |u| == |v| && k <= |u|
    ensures PartialSqDist(u, v, k) >= 0.0
  {
    if k > 0 {
      PartialNonNegative(u, v, k - 1);
      SqNonNegative(u[k - 1] - v[k - 1]);
    }
  }

  lemma SqDistSymmetric(u: Vector, v: Vector)
    requires |u| == |v|
    ensures SqDist(u, v) == SqDist(v, u)
  {
    PartialSymmetric(u, v, |u|);
  }

  lemma {:induction false} PartialSymmetric(u: Vector, v: Vector, k: nat)
    requires |u| == |v| && k <= |u|
    ensures PartialSqDist(u, v, k) == PartialSqDist(v, u, k)
  {
    if k > 0 {
      PartialSymmetric(u, v, k - 1);
      SqProduct(-1.0, u[k - 1] - v[k - 1]);
    }
  }

  lemma SqDistSelf(u: Vector)
    ensures SqDist(u, u) == 0.0
  {
    PartialSelf(u, |u|);
  }

  lemma {:induction false} PartialSelf(u: Vector, k: nat)
    requires k <= |u|
    ensures PartialSqDist(u, u, k) == 0.0
  {
    if k > 0 {
      PartialSelf(u, k - 1);
    }
  }

  /** When every coordinate's squared gap from `u` to `m` is `f` times its squared gap from `u` to
      `v`, so is the squared distance. */
  lemma ScaledSqDist(u: Vector, v: Vector, m: Vector, f: real)
    requires |u| == |v| == |m|
    requires forall t :: 0 <= t < |u| ==> Sq(u[t] - m[t]) == f * Sq(u[t] - v[t])
    ensures SqDist(u, m) == f * SqDist(u, v)
  {
    ScaledPartial(u, v, m, f, |u|);
  }

  lemma {:induction false} ScaledPartial(u: Vector, v: Vector, m: Vector, f: real, k: nat)
    requires |u| == |v| == |m| && k <= |u|
    requires forall t :: 0 <= t < |u| ==> Sq(u[t] - m[t]) == f * Sq(u[t] - v[t])
    ensures PartialSqDist(u, m, k) == f * PartialSqDist(u, v, k)
  {
    if k > 0 {
      ScaledPartial(u, v, m, f, k - 1);
      ScaleJoin(PartialSqDist(u, m, k - 1), Sq(u[k - 1] - m[k - 1]), PartialSqDist(u, v, k - 1),
        Sq(u[k - 1] - v[k - 1]), f, PartialSqDist(u, m, k), PartialSqDist(u, v, k));
    }
  }

  lemma ScaleJoin(a: real, b: real, c: real, d: real, f: real, sm: real, sv: real)
    requires sm == a + b && sv == c + d && a == f * c && b == f * d
    ensures sm == f * sv
  {
  }

  /** When every coordinate of `u - m` is `w` times that of `u - v`, the squared distance from
      `u` to `m` is `w^2` times the squared distance between `u` and `v`, either way round. */
  lemma ScaledOffsets(u: Vector, v: Vector, m: Vector, w: real)
    requires |u| == |v| == |m|
    requires forall t :: 0 <= t < |u| ==> u[t] - m[t] == w * (u[t] - v[t])
    ensures SqDist(u, m) == Sq(w) * SqDist(u, v)
    ensures SqDist(u, m) == Sq(w) * SqDist(v, u)
  {
    forall t | 0 <= t < |u|
      ensures Sq(u[t] - m[t]) == Sq(w) * Sq(u[t] - v[t])
    {
      SqProduct(w, u[t] - v[t]);
    }
    ScaledSqDist(u, v, m, Sq(w));
    SqDistSymmetric(u, v);
  }

  /** The transpose of the identity is the identity. */
  lemma TransposeIdentity(n: nat)
    ensures Transpose(Identity(n)) == Identity(n)
  {
    var t, e := Transpose(Identity(n)), Identity(n);
    forall i | 0 <= i < n
      ensures t[i] == e[i]
    {
      assert forall j :: 0 <= j < n ==> t[i][j] == e[i][j];
    }
  }

  /** Transposing twice gives the matrix back. */
  lemma TransposeTwice(a: Matrix)
    requires Square(a)
    ensures Transpose(Transpose(a)) == a
  {
    var t := Transpose(Transpose(a));
    forall i | 0 <= i < |a|
      ensures t[i] == a[i]
    {
      assert forall j :: 0 <= j < |a| ==> t[i][j] == a[i][j];
    }
  }
}
