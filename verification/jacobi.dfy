/** `jacobiEigen`: repeated plane rotations of a symmetric matrix, each one aimed at the
    largest off-diagonal entry, until that entry drops below a tolerance or an iteration
    cap is reached. The rotation itself (its angle from `atan2`, its `cos` and `sin`) is a
    parameter; this module models the pivot search, the stop test, the cap, the identity
    start and the bookkeeping of the accumulated rotations. */
module Jacobi {
  import opened Linalg

  /** The default `tol = 1e-8`. */
  const Tol: real := 0.00000001
  /** The default `maxIter = 100`. */
  const MaxIter: nat := 100

  /** A candidate pivot `(p, q)` with its magnitude `max = |A[p][q]|`. */
  datatype Pivot = Pivot(p: nat, q: nat, max: real)

  /** One rotation as computed from the pivot: the rotated matrix and the cosine and sine
      of the rotation angle. */
  datatype Plane = Plane(a: Matrix, c: real, s: real)

  /** Where the accumulator `V` keeps the eigenvectors: `Rows` rotates rows p and q of `V`
      and reads eigenvectors off its rows (docs/cluster.js, cluster-lca.js,
      cluster-lca-single.js); `Columns` rotates columns p and q and reads eigenvectors off
      its columns (cluster-lca-chara.js). */
  datatype Layout = Rows | Columns

  /** The outcome of `jacobiEigen`: the final rotated matrix, its diagonal as eigenvalues,
      the eigenvectors, and how many rotations were applied. */
  datatype Eigen = Eigen(a: Matrix, values: Vector, vectors: Matrix, iterations: nat)

  /** A rotation keeps the matrix square and of the same size. */
  ghost predicate KeepsShape(rotate: (Matrix, nat, nat) -> Plane) {
    forall a: Matrix, p: nat, q: nat {:trigger rotate(a, p, q)} ::
      Square(a) && p < q < |a| ==> |rotate(a, p, q).a| == |a| && Square(rotate(a, p, q).a)
  }

  /** `best` is a correct running result of the pivot scan once every pair before `(i, j)`
      in scan order has been visited: it is a pair above the diagonal carrying its own
      magnitude, no visited pair is larger, and every pair before it is strictly smaller. */
  predicate PivotSoFar(a: Matrix, i: nat, j: nat, best: Pivot)
    requires Square(a)
  {
    && best.p < best.q < |a|
    && best.max == Abs(a[best.p][best.q])
    && (forall x, y :: 0 <= x < y < |a| && ScanBefore(x, y, i, j) ==> Abs(a[x][y]) <= best.max)
    && (forall x, y :: 0 <= x < y < |a| && ScanBefore(x, y, best.p, best.q) ==> Abs(a[x][y]) < best.max)
  }

  /** The nested `for i … for j = i + 1 …` loop, from pair `(i, j)` on; a pair replaces the
      running best only when its magnitude is strictly larger. */
  function PivotScan(a: Matrix, i: nat, j: nat, best: Pivot): (r: Pivot)
    requires Square(a) && i < j <= |a| + 1 && PivotSoFar(a, i, j, best)
    ensures PivotSoFar(a, |a|, 0, r)
    decreases |a| - i, |a| + 1 - j
  {
    if i >= |a| then
      assert forall x, y :: 0 <= x < y < |a| ==> ScanBefore(x, y, i, j);
      best
    else if j >= |a| then
      assert forall x, y :: 0 <= x < y < |a| ==> (ScanBefore(x, y, i, j) <==> ScanBefore(x, y, i + 1, i + 2));
      PivotScan(a, i + 1, i + 2, best)
    else
      var val := Abs(a[i][j]);
      PivotScan(a, i, j + 1, if val > best.max then Pivot(i, j, val) else best)
  }

  /** The pivot of one sweep, starting from `p = 0, q = 1, max = |A[0][1]|`: the first pair
      in scan order whose magnitude is the largest above the diagonal. */
  function PivotOf(a: Matrix): (r: Pivot)
    requires Square(a) && |a| >= 2
    ensures r.p < r.q < |a| && r.max == Abs(a[r.p][r.q])
    ensures forall x, y :: 0 <= x < y < |a| ==> Abs(a[x][y]) <= r.max
    ensures forall x, y :: 0 <= x < y < |a| && ScanBefore(x, y, r.p, r.q) ==> Abs(a[x][y]) < r.max
  {
    PivotScan(a, 0, 1, Pivot(0, 1, Abs(a[0][1])))
  }

  /** `V[p][j] = c*Vp[j] - s*Vq[j]; V[q][j] = s*Vp[j] + c*Vq[j]`: rows p and q rotated. */
  function RotateRows(v: Matrix, p: nat, q: nat, c: real, s: real): (w: Matrix)
    requires Square(v) && p < q < |v|
    ensures |w| == |v| && Square(w)
    ensures forall i :: 0 <= i < |v| && i != p && i != q ==> w[i] == v[i]
    ensures forall j :: 0 <= j < |v| ==> w[p][j] == c * v[p][j] - s * v[q][j]
    ensures forall j :: 0 <= j < |v| ==> w[q][j] == s * v[p][j] + c * v[q][j]
  {
    seq(|v|, i requires 0 <= i < |v| =>
      if i == p then seq(|v|, j requires 0 <= j < |v| => c * v[p][j] - s * v[q][j])
      else if i == q then seq(|v|, j requires 0 <= j < |v| => s * v[p][j] + c * v[q][j])
      else v[i])
  }

  /** `V[i][p] = c*vip - s*viq; V[i][q] = s*vip + c*viq` for every row: columns p and q rotated. */
  function RotateColumns(v: Matrix, p: nat, q: nat, c: real, s: real): (w: Matrix)
    requires Square(v) && p < q < |v|
    ensures |w| == |v| && Square(w)
    ensures forall i, j :: 0 <= i < |v| && 0 <= j < |v| && j != p && j != q ==> w[i][j] == v[i][j]
    ensures forall i :: 0 <= i < |v| ==> w[i][p] == c * v[i][p] - s * v[i][q]
    ensures forall i :: 0 <= i < |v| ==> w[i][q] == s * v[i][p] + c * v[i][q]
  {
    seq(|v|, i requires 0 <= i < |v| =>
      seq(|v|, j requires 0 <= j < |v| =>
        if j == p then c * v[i][p] - s * v[i][q]
        else if j == q then s * v[i][p] + c * v[i][q]
        else v[i][j]))
  }

  function Accumulate(v: Matrix, p: nat, q: nat, c: real, s: real, layout: Layout): (w: Matrix)
    requires Square(v) && p < q < |v|
    ensures |w| == |v| && Square(w)
  {
    match layout
    case Rows => RotateRows(v, p, q, c, s)
    case Columns => RotateColumns(v, p, q, c, s)
  }

  /** The eigenvectors as the layout stores them in `V`. */
  function Vectors(v: Matrix, layout: Layout): (e: Matrix)
    requires Square(v)
    ensures |e| == |v| && Square(e)
  {
    match layout
    case Rows => v
    case Columns => Transpose(v)
  }

  /** The `while (iter < maxIter)` loop from iteration `iter` on. */
  function Sweep(a: Matrix, v: Matrix, iter: nat, rotate: (Matrix, nat, nat) -> Plane, layout: Layout): (r: Eigen)
    requires Square(a) && |a| >= 2 && Square(v) && |v| == |a| && iter <= MaxIter && KeepsShape(rotate)
    ensures Square(r.a) && |r.a| == |a| && |r.values| == |a| && |r.vectors| == |a| && Square(r.vectors)
    ensures iter <= r.iterations <= MaxIter
    ensures r.values == Diagonal(r.a)
    ensures r.iterations < MaxIter ==> PivotOf(r.a).max < Tol
    decreases MaxIter - iter
  {
    if iter == MaxIter then
      Eigen(a, Diagonal(a), Vectors(v, layout), iter)
    else
      var pivot := PivotOf(a);
      if pivot.max < Tol then
        Eigen(a, Diagonal(a), Vectors(v, layout), iter)
      else
        var plane := rotate(a, pivot.p, pivot.q);
        Sweep(plane.a, Accumulate(v, pivot.p, pivot.q, plane.c, plane.s, layout), iter + 1, rotate, layout)
  }

  /** `jacobiEigen(A)` with the default tolerance and cap, `V` starting as the identity.
      Either the cap was reached, or every entry above the diagonal of the final matrix is
      below the tolerance. */
  function JacobiEigen(a: Matrix, rotate: (Matrix, nat, nat) -> Plane, layout: Layout): (r: Eigen)
    requires Square(a) && |a| >= 2 && KeepsShape(rotate)
    ensures Square(r.a) && |r.a| == |a| && |r.values| == |a| && |r.vectors| == |a| && Square(r.vectors)
    ensures r.values == Diagonal(r.a)
    ensures r.iterations <= MaxIter
    ensures r.iterations < MaxIter ==> forall x, y :: 0 <= x < y < |a| ==> Abs(r.a[x][y]) < Tol
  {
    Sweep(a, Identity(|a|), 0, rotate, layout)
  }

  /** A matrix whose entries above the diagonal are all below the tolerance is returned as
      it is, with the identity as eigenvectors and no rotation applied. */
  lemma AlreadyDiagonal(a: Matrix, rotate: (Matrix, nat, nat) -> Plane, layout: Layout)
    requires Square(a) && |a| >= 2 && KeepsShape(rotate)
    requires forall x, y :: 0 <= x < y < |a| ==> Abs(a[x][y]) < Tol
    ensures JacobiEigen(a, rotate, layout) == Eigen(a, Diagonal(a), Identity(|a|), 0)
  {
    var pivot := PivotOf(a);
    assert pivot.max < Tol;
    if layout == Columns {
      TransposeIdentity(|a|);
    }
  }

  /** Rotating columns of `V` is rotating rows of its transpose. */
  lemma RotateTranspose(v: Matrix, p: nat, q: nat, c: real, s: real)
    requires Square(v) && p < q < |v|
    ensures Transpose(RotateColumns(v, p, q, c, s)) == RotateRows(Transpose(v), p, q, c, s)
  {
    var l, r := Transpose(RotateColumns(v, p, q, c, s)), RotateRows(Transpose(v), p, q, c, s);
    forall i | 0 <= i < |v|
      ensures l[i] == r[i]
    {
      assert forall j :: 0 <= j < |v| ==> l[i][j] == r[i][j];
    }
  }

  /** The two layouts of `V` yield the same eigenvectors from the same rotations. */
  lemma {:induction false} LayoutsAgree(a: Matrix, v: Matrix, iter: nat, rotate: (Matrix, nat, nat) -> Plane)
    requires Square(a) && |a| >= 2 && Square(v) && |v| == |a| && iter <= MaxIter && KeepsShape(rotate)
    ensures Sweep(a, Transpose(v), iter, rotate, Columns) == Sweep(a, v, iter, rotate, Rows)
    decreases MaxIter - iter, 1
  {
    if iter < MaxIter && PivotOf(a).max >= Tol {
      RotatedAgrees(a, v, iter, rotate);
    } else {
      StoppedAgrees(a, v, iter, rotate);
    }
  }

  /** While the sweep goes on, the layouts agree if they agree from the next rotation on. */
  lemma {:induction false} RotatedAgrees(a: Matrix, v: Matrix, iter: nat, rotate: (Matrix, nat, nat) -> Plane)
    requires Square(a) && |a| >= 2 && Square(v) && |v| == |a| && iter < MaxIter && KeepsShape(rotate)
    requires PivotOf(a).max >= Tol
    ensures Sweep(a, Transpose(v), iter, rotate, Columns) == Sweep(a, v, iter, rotate, Rows)
    decreases MaxIter - iter, 0
  {
    var pivot := PivotOf(a);
    var plane := rotate(a, pivot.p, pivot.q);
    LayoutsAgree(plane.a, RotateRows(v, pivot.p, pivot.q, plane.c, plane.s), iter + 1, rotate);
    RotationAgrees(a, v, iter, rotate);
  }

  /** Once the sweep stops, both layouts report `V` read as rows. */
  lemma StoppedAgrees(a: Matrix, v: Matrix, iter: nat, rotate: (Matrix, nat, nat) -> Plane)
    requires Square(a) && |a| >= 2 && Square(v) && |v| == |a| && iter <= MaxIter && KeepsShape(rotate)
    requires iter == MaxIter || PivotOf(a).max < Tol
    ensures Sweep(a, Transpose(v), iter, rotate, Columns) == Sweep(a, v, iter, rotate, Rows)
  {
    TransposeTwice(v);
  }

  /** If the two layouts agree after the next rotation, they agree before it. */
  lemma RotationAgrees(a: Matrix, v: Matrix, iter: nat, rotate: (Matrix, nat, nat) -> Plane)
    requires Square(a) && |a| >= 2 && Square(v) && |v| == |a| && iter < MaxIter && KeepsShape(rotate)
    requires PivotOf(a).max >= Tol
    requires var pivot := PivotOf(a); var plane := rotate(a, pivot.p, pivot.q);
      var w := RotateRows(v, pivot.p, pivot.q, plane.c, plane.s);
      Sweep(plane.a, Transpose(w), iter + 1, rotate, Columns) == Sweep(plane.a, w, iter + 1, rotate, Rows)
    ensures Sweep(a, Transpose(v), iter, rotate, Columns) == Sweep(a, v, iter, rotate, Rows)
  {
    var pivot := PivotOf(a);
    var plane := rotate(a, pivot.p, pivot.q);
    ColumnsAccumulate(v, pivot.p, pivot.q, plane.c, plane.s);
  }

  /** Rotating columns of the transpose of `V` is rotating rows of `V`, then transposing. */
  lemma ColumnsAccumulate(v: Matrix, p: nat, q: nat, c: real, s: real)
    requires Square(v) && p < q < |v|
    ensures Accumulate(Transpose(v), p, q, c, s, Columns) == Transpose(RotateRows(v, p, q, c, s))
  {
    var u := RotateColumns(Transpose(v), p, q, c, s);
    RotateTranspose(Transpose(v), p, q, c, s);
    TransposeTwice(v);
    TransposeTwice(u);
  }

  /** Hence `jacobiEigen` of cluster-lca-chara.js and of the other copies agree on the
      eigenvectors whenever their rotations agree. */
  lemma EigenvectorsAgree(a: Matrix, rotate: (Matrix, nat, nat) -> Plane)
    requires Square(a) && |a| >= 2 && KeepsShape(rotate)
    ensures JacobiEigen(a, rotate, Columns) == JacobiEigen(a, rotate, Rows)
  {
    TransposeIdentity(|a|);
    LayoutsAgree(a, Identity(|a|), 0, rotate);
  }
}
