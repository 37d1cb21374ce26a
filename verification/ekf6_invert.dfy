/**
 * The 4x4 Gauss-Jordan inversion with partial pivoting that the attitude/AOA
 * filter uses to invert its innovation covariance. The augmented matrix
 * [A | I] is reduced in place, one column at a time: pick the row with the
 * largest magnitude in the column, give up if that magnitude is below
 * 1e-10, swap it up, scale it to a unit pivot, and clear the column in every
 * other row.
 *
 * The proof mirrors every row operation on the work matrix by the inverse
 * column operation on a ghost matrix G, so that G * work == [A | I] holds
 * throughout. When the left half of work has become I, G must be A, and
 * G * (right half) == I says the right half is an inverse of A.
 */
module Ekf6Invert {
  import opened Wrappers
  import opened Numeric
  import opened Ekf6Matrix

  /** A best pivot smaller than this in magnitude is taken as singular. */
  const PIVOT_EPSILON: real := 0.0000000001

  // ---------------------------------------------------------------------
  // Row operations on the work matrix and their inverses on G

  // Scalar steps, named so that the entries of updated rows are compared as terms.
  function Times(a: real, b: real): real { a * b }
  function AddMul(a: real, f: real, b: real): real { a + f * b }
  function SubMul(a: real, f: real, b: real): real { a - f * b }

  function SwapRows(m: Mat, a: nat, b: nat): Mat
    requires a < |m| && b < |m|
  {
    m[a := m[b]][b := m[a]]
  }

  function ScaleRow(m: Mat, c: nat, s: real): Mat
    requires c < |m| && s != 0.0
  {
    m[c := seq(|m[c]|, j requires 0 <= j < |m[c]| => m[c][j] / s)]
  }

  function SubtractRow(m: Mat, r: nat, c: nat, f: real): Mat
    requires r < |m| && c < |m| && |m[r]| == |m[c]|
  {
    m[r := seq(|m[r]|, j requires 0 <= j < |m[r]| => SubMul(m[r][j], f, m[c][j]))]
  }

  function SwapCols(g: Mat, a: nat, b: nat): Mat
    requires forall i :: 0 <= i < |g| ==> a < |g[i]| && b < |g[i]|
  {
    seq(|g|, i requires 0 <= i < |g| => g[i][a := g[i][b]][b := g[i][a]])
  }

  function ScaleCol(g: Mat, c: nat, s: real): Mat
    requires forall i :: 0 <= i < |g| ==> c < |g[i]|
  {
    seq(|g|, i requires 0 <= i < |g| => g[i][c := Times(g[i][c], s)])
  }

  function AddCol(g: Mat, c: nat, r: nat, f: real): Mat
    requires forall i :: 0 <= i < |g| ==> c < |g[i]| && r < |g[i]|
  {
    seq(|g|, i requires 0 <= i < |g| => g[i][c := AddMul(g[i][c], f, g[i][r])])
  }

  /** [A | I]: A on the left, the identity on the right. */
  function Augment(a: Mat): (m: Mat)
    requires IsMat(a, N_MEAS, N_MEAS)
    ensures IsMat(m, N_MEAS, 2 * N_MEAS)
    ensures forall i, j :: 0 <= i < N_MEAS && 0 <= j < N_MEAS ==> m[i][j] == a[i][j]
    ensures forall i, j :: 0 <= i < N_MEAS && N_MEAS <= j < 2 * N_MEAS ==> m[i][j] == if i == j - N_MEAS then 1.0 else 0.0
  {
    seq(N_MEAS, i requires 0 <= i < N_MEAS =>
      seq(2 * N_MEAS, j requires 0 <= j < 2 * N_MEAS =>
        if j < N_MEAS then a[i][j] else if i == j - N_MEAS then 1.0 else 0.0))
  }

  // ---------------------------------------------------------------------
  // Each pair of operations leaves every row-by-column sum unchanged

  lemma DotSwap(u: seq<real>, w: seq<real>, a: nat, b: nat)
    requires |u| == |w| && a < |u| && b < |u| && a != b
    ensures Dot(u[a := u[b]][b := u[a]], w[a := w[b]][b := w[a]]) == Dot(u, w)
  {
    var u1 := u[a := u[b]];
    var w1 := w[a := w[b]];
    var w2 := w1[b := w[a]];
    DotUpdateLeft(u1, w2, b, u[a]);
    DotUpdateLeft(u, w2, a, u[b]);
    DotUpdateRight(u, w1, b, w[a]);
    DotUpdateRight(u, w, a, w[b]);
  }

  lemma DotScale(u: seq<real>, w: seq<real>, u1: seq<real>, w1: seq<real>, c: nat, s: real)
    requires |u| == |w| && c < |u| && s != 0.0
    requires u1 == u[c := Times(u[c], s)] && w1 == w[c := w[c] / s]
    ensures Dot(u1, w1) == Dot(u, w)
  {
    var w1 := w[c := w[c] / s];
    DotUpdateLeft(u, w1, c, u[c] * s);
    DotUpdateRight(u, w, c, w[c] / s);
    assert (u[c] * s - u[c]) * (w[c] / s) + u[c] * (w[c] / s - w[c]) == 0.0 by {
      assert (u[c] * s) * (w[c] / s) == u[c] * w[c];
    }
  }

  lemma DotSubtract(u: seq<real>, w: seq<real>, u1: seq<real>, w1: seq<real>, r: nat, c: nat, f: real)
    requires |u| == |w| && r < |u| && c < |u| && r != c
    requires u1 == u[c := AddMul(u[c], f, u[r])] && w1 == w[r := SubMul(w[r], f, w[c])]
    ensures Dot(u1, w1) == Dot(u, w)
  {
    var w1 := w[r := SubMul(w[r], f, w[c])];
    DotUpdateLeft(u, w1, c, u[c] + f * u[r]);
    DotUpdateRight(u, w, r, w[r] - f * w[c]);
  }

  lemma ColumnSwap(m: Mat, a: nat, b: nat, j: nat)
    requires IsMat(m, |m|, Cols(m)) && a < |m| && b < |m| && j < Cols(m)
    ensures IsMat(SwapRows(m, a, b), |m|, Cols(m)) && Cols(SwapRows(m, a, b)) == Cols(m)
    ensures Column(SwapRows(m, a, b), j) == Column(m, j)[a := m[b][j]][b := m[a][j]]
  {
    assert SwapRows(m, a, b)[0] == if a == 0 then m[b] else if b == 0 then m[a] else m[0];
  }

  lemma ColumnScale(m: Mat, c: nat, s: real, j: nat)
    requires IsMat(m, |m|, Cols(m)) && c < |m| && s != 0.0 && j < Cols(m)
    ensures IsMat(ScaleRow(m, c, s), |m|, Cols(m)) && Cols(ScaleRow(m, c, s)) == Cols(m)
    ensures Column(ScaleRow(m, c, s), j) == Column(m, j)[c := Column(m, j)[c] / s]
  {
    assert |ScaleRow(m, c, s)[0]| == |m[0]|;
  }

  lemma ColumnSubtract(m: Mat, r: nat, c: nat, f: real, j: nat)
    requires IsMat(m, |m|, Cols(m)) && r < |m| && c < |m| && j < Cols(m)
    ensures IsMat(SubtractRow(m, r, c, f), |m|, Cols(m)) && Cols(SubtractRow(m, r, c, f)) == Cols(m)
    ensures Column(SubtractRow(m, r, c, f), j) == Column(m, j)[r := SubMul(Column(m, j)[r], f, Column(m, j)[c])]
  {
    var m1 := SubtractRow(m, r, c, f);
    assert |m1[0]| == |m[0]|;
    assert forall i :: 0 <= i < |m| ==> Column(m1, j)[i] == Column(m, j)[r := SubMul(Column(m, j)[r], f, Column(m, j)[c])][i];
  }

  lemma ScaleColRow(g: Mat, c: nat, s: real, i: nat)
    requires IsMat(g, N_MEAS, N_MEAS) && c < N_MEAS && i < N_MEAS
    ensures ScaleCol(g, c, s)[i] == g[i][c := Times(g[i][c], s)]
  {
    var h := ScaleCol(g, c, s);
    assert |h| == N_MEAS && |h[i]| == N_MEAS;
    assert forall k :: 0 <= k < N_MEAS ==> h[i][k] == g[i][c := Times(g[i][c], s)][k];
  }

  lemma AddColRow(g: Mat, c: nat, r: nat, f: real, i: nat)
    requires IsMat(g, N_MEAS, N_MEAS) && c < N_MEAS && r < N_MEAS && i < N_MEAS
    ensures AddCol(g, c, r, f)[i] == g[i][c := AddMul(g[i][c], f, g[i][r])]
  {
    var h := AddCol(g, c, r, f);
    assert |h| == N_MEAS && |h[i]| == N_MEAS;
    assert forall k :: 0 <= k < N_MEAS ==> h[i][k] == g[i][c := AddMul(g[i][c], f, g[i][r])][k];
  }

  lemma SwapKeeps(g: Mat, m: Mat, a: nat, b: nat)
    requires IsMat(g, N_MEAS, N_MEAS) && IsMat(m, N_MEAS, 2 * N_MEAS)
    requires a < N_MEAS && b < N_MEAS && a != b
    ensures IsMat(SwapCols(g, a, b), N_MEAS, N_MEAS) && IsMat(SwapRows(m, a, b), N_MEAS, 2 * N_MEAS)
    ensures Mul(SwapCols(g, a, b), SwapRows(m, a, b)) == Mul(g, m)
  {
    var g1, m1 := SwapCols(g, a, b), SwapRows(m, a, b);
    forall i, j | 0 <= i < N_MEAS && 0 <= j < 2 * N_MEAS
      ensures Mul(g1, m1)[i][j] == Mul(g, m)[i][j]
    {
      ColumnSwap(m, a, b, j);
      DotSwap(g[i], Column(m, j), a, b);
    }
    MatEq(Mul(g1, m1), Mul(g, m), N_MEAS, 2 * N_MEAS);
  }

  lemma ScaleKeeps(g: Mat, m: Mat, c: nat, s: real)
    requires IsMat(g, N_MEAS, N_MEAS) && IsMat(m, N_MEAS, 2 * N_MEAS)
    requires c < N_MEAS && s != 0.0
    ensures IsMat(ScaleCol(g, c, s), N_MEAS, N_MEAS) && IsMat(ScaleRow(m, c, s), N_MEAS, 2 * N_MEAS)
    ensures Mul(ScaleCol(g, c, s), ScaleRow(m, c, s)) == Mul(g, m)
  {
    var g1, m1 := ScaleCol(g, c, s), ScaleRow(m, c, s);
    forall i, j | 0 <= i < N_MEAS && 0 <= j < 2 * N_MEAS
      ensures Mul(g1, m1)[i][j] == Mul(g, m)[i][j]
    {
      ColumnScale(m, c, s, j);
      ScaleColRow(g, c, s, i);
      DotScale(g[i], Column(m, j), g1[i], Column(m1, j), c, s);
    }
    MatEq(Mul(g1, m1), Mul(g, m), N_MEAS, 2 * N_MEAS);
  }

  lemma SubtractKeeps(g: Mat, m: Mat, r: nat, c: nat, f: real)
    requires IsMat(g, N_MEAS, N_MEAS) && IsMat(m, N_MEAS, 2 * N_MEAS)
    requires r < N_MEAS && c < N_MEAS && r != c
    ensures IsMat(AddCol(g, c, r, f), N_MEAS, N_MEAS) && IsMat(SubtractRow(m, r, c, f), N_MEAS, 2 * N_MEAS)
    ensures Mul(AddCol(g, c, r, f), SubtractRow(m, r, c, f)) == Mul(g, m)
  {
    var g1, m1 := AddCol(g, c, r, f), SubtractRow(m, r, c, f);
    forall i, j | 0 <= i < N_MEAS && 0 <= j < 2 * N_MEAS
      ensures Mul(g1, m1)[i][j] == Mul(g, m)[i][j]
    {
      ColumnSubtract(m, r, c, f, j);
      AddColRow(g, c, r, f, i);
      DotSubtract(g[i], Column(m, j), g1[i], Column(m1, j), r, c, f);
    }
    MatEq(Mul(g1, m1), Mul(g, m), N_MEAS, 2 * N_MEAS);
  }

  /** G = I starts the invariant off: I * [A | I] == [A | I]. */
  lemma IdentityLeft(m: Mat)
    requires IsMat(m, N_MEAS, 2 * N_MEAS)
    ensures Mul(Identity(N_MEAS), m) == m
  {
    var e := Identity(N_MEAS);
    forall i, j | 0 <= i < N_MEAS && 0 <= j < 2 * N_MEAS
      ensures Mul(e, m)[i][j] == m[i][j]
    {
      Dot4(e[i], Column(m, j));
    }
    MatEq(Mul(e, m), m, N_MEAS, 2 * N_MEAS);
  }

  /**
   * Once the left half of the work matrix is the identity, G * work == [A | I]
   * forces G == A, and the right half is then a right inverse of A.
   */
  lemma InverseFromReduced(a: Mat, g: Mat, m: Mat, inv: Mat)
    requires IsMat(a, N_MEAS, N_MEAS) && IsMat(g, N_MEAS, N_MEAS)
    requires IsMat(m, N_MEAS, 2 * N_MEAS) && IsMat(inv, N_MEAS, N_MEAS)
    requires Mul(g, m) == Augment(a)
    requires forall i, k :: 0 <= i < N_MEAS && 0 <= k < N_MEAS ==> m[i][k] == if i == k then 1.0 else 0.0
    requires forall i, j :: 0 <= i < N_MEAS && 0 <= j < N_MEAS ==> inv[i][j] == m[i][j + N_MEAS]
    ensures Mul(a, inv) == Identity(N_MEAS)
  {
    forall i, j | 0 <= i < N_MEAS && 0 <= j < N_MEAS
      ensures g[i][j] == a[i][j]
    {
      Dot4(g[i], Column(m, j));
      assert Mul(g, m)[i][j] == Augment(a)[i][j];
    }
    MatEq(g, a, N_MEAS, N_MEAS);
    forall i, j | 0 <= i < N_MEAS && 0 <= j < N_MEAS
      ensures Mul(a, inv)[i][j] == Identity(N_MEAS)[i][j]
    {
      assert Column(inv, j) == Column(m, j + N_MEAS);
      assert Mul(g, m)[i][j + N_MEAS] == Augment(a)[i][j + N_MEAS];
    }
    MatEq(Mul(a, inv), Identity(N_MEAS), N_MEAS, N_MEAS);
  }

  // ---------------------------------------------------------------------
  // The reduction as a function of the matrix: the same passes, pivot
  // choices and threshold as the in-place algorithm, which is proved to
  // follow it step by step

  /** The pivot search from row `row` on, `best` being the first largest magnitude so far. */
  function PivotRowFrom(m: Mat, col: nat, row: nat, best: nat): (p: nat)
    requires IsMat(m, N_MEAS, 2 * N_MEAS) && col <= best < row <= N_MEAS
    ensures col <= p < N_MEAS
    decreases N_MEAS - row
  {
    if row == N_MEAS then best
    else PivotRowFrom(m, col, row + 1, if Abs(m[row][col]) > Abs(m[best][col]) then row else best)
  }

  /** The first row in [col, 4) with the largest magnitude in column col. */
  function PivotRow(m: Mat, col: nat): (p: nat)
    requires IsMat(m, N_MEAS, 2 * N_MEAS) && col < N_MEAS
    ensures col <= p < N_MEAS
  {
    PivotRowFrom(m, col, col + 1, col)
  }

  /** Every candidate pivot of column col is below the threshold. */
  predicate SmallColumn(m: Mat, col: nat)
    requires IsMat(m, N_MEAS, 2 * N_MEAS) && col < N_MEAS
  {
    forall i :: col <= i < N_MEAS ==> Abs(m[i][col]) < PIVOT_EPSILON
  }

  /** Bring the pivot row p up to row col and divide it by the pivot. */
  function Normalize(m: Mat, col: nat, p: nat): (r: Mat)
    requires IsMat(m, N_MEAS, 2 * N_MEAS) && col <= p < N_MEAS && m[p][col] != 0.0
    ensures IsMat(r, N_MEAS, 2 * N_MEAS)
  {
    var m1 := if p != col then SwapRows(m, col, p) else m;
    ScaleRow(m1, col, m1[col][col])
  }

  /** Clear column col in rows row, row+1, ... other than col, each by its current entry. */
  function EliminateFrom(m: Mat, col: nat, row: nat): (r: Mat)
    requires IsMat(m, N_MEAS, 2 * N_MEAS) && col < N_MEAS && row <= N_MEAS
    ensures IsMat(r, N_MEAS, 2 * N_MEAS)
    decreases N_MEAS - row
  {
    if row == N_MEAS then m
    else if row == col then EliminateFrom(m, col, row + 1)
    else EliminateFrom(SubtractRow(m, row, col, m[row][col]), col, row + 1)
  }

  /** One pass of the column loop: None when the best pivot is below the threshold. */
  function ReduceStep(m: Mat, col: nat): (r: Option<Mat>)
    requires IsMat(m, N_MEAS, 2 * N_MEAS) && col < N_MEAS
    ensures r.Some? ==> IsMat(r.value, N_MEAS, 2 * N_MEAS)
  {
    var p := PivotRow(m, col);
    if Abs(m[p][col]) < PIVOT_EPSILON then None
    else Some(EliminateFrom(Normalize(m, col, p), col, 0))
  }

  /** The first n passes of the column loop. */
  function ReduceUpTo(m: Mat, n: nat): (r: Option<Mat>)
    requires IsMat(m, N_MEAS, 2 * N_MEAS) && n <= N_MEAS
    ensures r.Some? ==> IsMat(r.value, N_MEAS, 2 * N_MEAS)
  {
    if n == 0 then Some(m)
    else match ReduceUpTo(m, n - 1)
      case None => None
      case Some(m1) => ReduceStep(m1, n - 1)
  }

  /** [A | I] fully reduced, or None when some pass finds no pivot of at least 1e-10. */
  function GaussJordan(a: Mat): Option<Mat>
    requires IsMat(a, N_MEAS, N_MEAS)
  {
    ReduceUpTo(Augment(a), N_MEAS)
  }

  /** Columns 4-7 of a 4x8 matrix. */
  function RightHalf(m: Mat): (r: Mat)
    requires IsMat(m, N_MEAS, 2 * N_MEAS)
    ensures IsMat(r, N_MEAS, N_MEAS)
    ensures forall i, j :: 0 <= i < N_MEAS && 0 <= j < N_MEAS ==> r[i][j] == m[i][j + N_MEAS]
  {
    seq(N_MEAS, i requires 0 <= i < N_MEAS => m[i][N_MEAS..])
  }

  lemma {:induction false} PivotRowFromIsMax(m: Mat, col: nat, row: nat, best: nat)
    requires IsMat(m, N_MEAS, 2 * N_MEAS) && col <= best < row <= N_MEAS
    requires forall r :: col <= r < row ==> Abs(m[r][col]) <= Abs(m[best][col])
    ensures forall r :: col <= r < N_MEAS ==> Abs(m[r][col]) <= Abs(m[PivotRowFrom(m, col, row, best)][col])
    decreases N_MEAS - row
  {
    if row < N_MEAS {
      var next := if Abs(m[row][col]) > Abs(m[best][col]) then row else best;
      PivotRowFromIsMax(m, col, row + 1, next);
    }
  }

  /** A row that is maximal in column col and strictly above every earlier row is the pivot row. */
  lemma {:induction false} PivotRowFromUnique(m: Mat, col: nat, row: nat, best: nat, p: nat)
    requires IsMat(m, N_MEAS, 2 * N_MEAS) && col <= best < row <= N_MEAS && col <= p < N_MEAS
    requires forall r :: col <= r < row ==> Abs(m[r][col]) <= Abs(m[best][col])
    requires forall r :: col <= r < best ==> Abs(m[r][col]) < Abs(m[best][col])
    requires forall r :: col <= r < N_MEAS ==> Abs(m[r][col]) <= Abs(m[p][col])
    requires forall r :: col <= r < p ==> Abs(m[r][col]) < Abs(m[p][col])
    ensures PivotRowFrom(m, col, row, best) == p
    decreases N_MEAS - row
  {
    if row < N_MEAS {
      var next := if Abs(m[row][col]) > Abs(m[best][col]) then row else best;
      PivotRowFromUnique(m, col, row + 1, next, p);
    }
  }

  /** A pass fails exactly when every candidate pivot of its column is below the threshold. */
  lemma ReduceStepFailsIff(m: Mat, col: nat)
    requires IsMat(m, N_MEAS, 2 * N_MEAS) && col < N_MEAS
    ensures ReduceStep(m, col).None? <==> SmallColumn(m, col)
  {
    PivotRowFromIsMax(m, col, col + 1, col);
  }

  /** Once a pass fails, every longer run fails. */
  lemma {:induction false} FailureIsFinal(m: Mat, n: nat, n': nat)
    requires IsMat(m, N_MEAS, 2 * N_MEAS) && n <= n' <= N_MEAS && ReduceUpTo(m, n).None?
    ensures ReduceUpTo(m, n').None?
    decreases n' - n
  {
    if n < n' {
      FailureIsFinal(m, n, n' - 1);
    }
  }

  /**
   * The reduction of [A | I] fails exactly when, after the passes before
   * some column succeeded, every candidate pivot of that column is below
   * 1e-10.
   */
  lemma {:induction false} GaussJordanFailsIff(a: Mat)
    requires IsMat(a, N_MEAS, N_MEAS)
    ensures GaussJordan(a).None? <==> exists col :: 0 <= col < N_MEAS && StallsAt(Augment(a), col)
  {
    ReduceUpToFailsIff(Augment(a), N_MEAS);
  }

  /** The passes before column col succeed and column col has no usable pivot. */
  predicate StallsAt(m: Mat, col: nat)
    requires IsMat(m, N_MEAS, 2 * N_MEAS) && col < N_MEAS
  {
    ReduceUpTo(m, col).Some? && SmallColumn(ReduceUpTo(m, col).value, col)
  }

  lemma {:induction false} ReduceUpToFailsIff(m: Mat, n: nat)
    requires IsMat(m, N_MEAS, 2 * N_MEAS) && n <= N_MEAS
    ensures ReduceUpTo(m, n).None? <==> exists col :: 0 <= col < n && StallsAt(m, col)
  {
    if n > 0 {
      ReduceUpToFailsIff(m, n - 1);
      var prev := ReduceUpTo(m, n - 1);
      if prev.Some? {
        LastPassFailsIff(m, n);
      } else {
        var col :| 0 <= col < n - 1 && StallsAt(m, col);
      }
    }
  }

  /** When the earlier passes succeed, the run up to n fails exactly when column n - 1 stalls. */
  lemma LastPassFailsIff(m: Mat, n: nat)
    requires IsMat(m, N_MEAS, 2 * N_MEAS) && 0 < n <= N_MEAS && ReduceUpTo(m, n - 1).Some?
    ensures ReduceUpTo(m, n).None? <==> StallsAt(m, n - 1)
  {
    ReduceStepFailsIff(ReduceUpTo(m, n - 1).value, n - 1);
  }

  /** A failed step at column col makes the whole reduction fail. */
  lemma StepFailureIsFinal(a: Mat, col: nat, m: Mat)
    requires IsMat(a, N_MEAS, N_MEAS) && col < N_MEAS
    requires ReduceUpTo(Augment(a), col) == Some(m) && ReduceStep(m, col).None?
    ensures GaussJordan(a).None?
  {
    FailureIsFinal(Augment(a), col + 1, N_MEAS);
  }

  /** A first column with no entry of magnitude 1e-10 or more makes the first pass fail. */
  lemma SmallFirstColumnFails(a: Mat)
    requires IsMat(a, N_MEAS, N_MEAS)
    requires forall i :: 0 <= i < N_MEAS ==> Abs(a[i][0]) < PIVOT_EPSILON
    ensures GaussJordan(a).None?
  {
    var m := Augment(a);
    assert SmallColumn(m, 0);
    ReduceStepFailsIff(m, 0);
    assert ReduceUpTo(m, 1).None?;
    FailureIsFinal(m, 1, N_MEAS);
  }

  // ---------------------------------------------------------------------
  // The in-place algorithm

  /** The row in [col, 4) with the largest magnitude in column col; the first one on ties. */
  method FindPivot(work: array2<real>, col: nat) returns (maxRow: nat, maxVal: real)
    requires work.Length0 == N_MEAS && work.Length1 == 2 * N_MEAS && col < N_MEAS
    ensures col <= maxRow < N_MEAS && maxVal == Abs(work[maxRow, col])
    ensures maxRow == PivotRow(Snapshot(work), col)
    ensures forall r :: col <= r < N_MEAS ==> Abs(work[r, col]) <= maxVal
    ensures forall r :: col <= r < maxRow ==> Abs(work[r, col]) < maxVal
  {
    maxRow := col;
    maxVal := Abs(work[col, col]);
    for row := col + 1 to N_MEAS
      invariant col <= maxRow < row && maxVal == Abs(work[maxRow, col])
      invariant forall r :: col <= r < row ==> Abs(work[r, col]) <= maxVal
      invariant forall r :: col <= r < maxRow ==> Abs(work[r, col]) < maxVal
    {
      var val := Abs(work[row, col]);
      if val > maxVal {
        maxVal := val;
        maxRow := row;
      }
    }
    ghost var m := Snapshot(work);
    forall r | col <= r < N_MEAS
      ensures Abs(m[r][col]) <= Abs(m[maxRow][col])
    {
    }
    forall r | col <= r < maxRow
      ensures Abs(m[r][col]) < Abs(m[maxRow][col])
    {
    }
    PivotRowFromUnique(m, col, col + 1, col, maxRow);
  }

  method SwapRowsInPlace(work: array2<real>, a: nat, b: nat)
    requires work.Length0 == N_MEAS && work.Length1 == 2 * N_MEAS && a < N_MEAS && b < N_MEAS
    modifies work
    ensures forall i, k :: 0 <= i < N_MEAS && 0 <= k < 2 * N_MEAS ==>
      work[i, k] == if i == a then old(work[b, k]) else if i == b then old(work[a, k]) else old(work[i, k])
    ensures Snapshot(work) == SwapRows(old(Snapshot(work)), a, b)
  {
    for j := 0 to 2 * N_MEAS
      invariant forall i, k :: 0 <= i < N_MEAS && 0 <= k < 2 * N_MEAS ==>
        work[i, k] == if k < j && i == a then old(work[b, k]) else if k < j && i == b then old(work[a, k]) else old(work[i, k])
    {
      var tmp := work[a, j];
      work[a, j] := work[b, j];
      work[b, j] := tmp;
    }
    MatEq(Snapshot(work), SwapRows(old(Snapshot(work)), a, b), N_MEAS, 2 * N_MEAS);
  }

  method ScaleRowInPlace(work: array2<real>, c: nat, pivot: real)
    requires work.Length0 == N_MEAS && work.Length1 == 2 * N_MEAS && c < N_MEAS && pivot != 0.0
    modifies work
    ensures forall i, k :: 0 <= i < N_MEAS && 0 <= k < 2 * N_MEAS ==>
      work[i, k] == if i == c then old(work[c, k]) / pivot else old(work[i, k])
    ensures Snapshot(work) == ScaleRow(old(Snapshot(work)), c, pivot)
  {
    for j := 0 to 2 * N_MEAS
      invariant forall i, k :: 0 <= i < N_MEAS && 0 <= k < 2 * N_MEAS ==>
        work[i, k] == if k < j && i == c then old(work[c, k]) / pivot else old(work[i, k])
    {
      work[c, j] := work[c, j] / pivot;
    }
    MatEq(Snapshot(work), ScaleRow(old(Snapshot(work)), c, pivot), N_MEAS, 2 * N_MEAS);
  }

  method EliminateRow(work: array2<real>, r: nat, c: nat, factor: real)
    requires work.Length0 == N_MEAS && work.Length1 == 2 * N_MEAS && r < N_MEAS && c < N_MEAS && r != c
    modifies work
    ensures forall i, k :: 0 <= i < N_MEAS && 0 <= k < 2 * N_MEAS ==>
      work[i, k] == if i == r then old(work[r, k]) - factor * old(work[c, k]) else old(work[i, k])
    ensures Snapshot(work) == SubtractRow(old(Snapshot(work)), r, c, factor)
  {
    for j := 0 to 2 * N_MEAS
      invariant forall i, k :: 0 <= i < N_MEAS && 0 <= k < 2 * N_MEAS ==>
        work[i, k] == if k < j && i == r then SubMul(old(work[r, k]), factor, old(work[c, k])) else old(work[i, k])
    {
      work[r, j] := SubMul(work[r, j], factor, work[c, j]);
    }
    ghost var m0 := old(Snapshot(work));
    ghost var m1 := Snapshot(work);
    ghost var spec := SubtractRow(m0, r, c, factor);
    forall i, k | 0 <= i < N_MEAS && 0 <= k < 2 * N_MEAS
      ensures m1[i][k] == spec[i][k]
    {
      if i == r {
        assert spec[i][k] == SubMul(m0[r][k], factor, m0[c][k]);
      }
    }
    MatEq(m1, spec, N_MEAS, 2 * N_MEAS);
  }

  /** Columns 0 .. col-1 of the working matrix are already unit columns. */
  ghost predicate UnitColumns(work: array2<real>, col: nat)
    requires work.Length0 == N_MEAS && work.Length1 == 2 * N_MEAS && col <= N_MEAS
    reads work
  {
    forall i, k :: 0 <= i < N_MEAS && 0 <= k < col ==> work[i, k] == if i == k then 1.0 else 0.0
  }

  /** EKF6.cpp lines 540-545: the 4x8 matrix [A | I]. */
  method BuildAugmented(a: array2<real>) returns (work: array2<real>)
    requires a.Length0 == N_MEAS && a.Length1 == N_MEAS
    ensures fresh(work) && work.Length0 == N_MEAS && work.Length1 == 2 * N_MEAS
    ensures Snapshot(work) == Augment(Snapshot(a))
  {
    ghost var a0 := Snapshot(a);
    work := new real[N_MEAS, 2 * N_MEAS];
    for i := 0 to N_MEAS
      modifies work
      invariant forall r, k :: 0 <= r < i && 0 <= k < 2 * N_MEAS ==> work[r, k] == Augment(a0)[r][k]
    {
      for j := 0 to N_MEAS
        modifies work
        invariant forall r, k :: 0 <= r < i && 0 <= k < 2 * N_MEAS ==> work[r, k] == Augment(a0)[r][k]
        invariant forall k :: 0 <= k < j ==> work[i, k] == Augment(a0)[i][k]
        invariant forall k :: N_MEAS <= k < N_MEAS + j ==> work[i, k] == Augment(a0)[i][k]
      {
        work[i, j] := a[i, j];
        work[i, j + N_MEAS] := if i == j then 1.0 else 0.0;
      }
    }
    MatEq(Snapshot(work), Augment(a0), N_MEAS, 2 * N_MEAS);
  }

  /**
   * EKF6.cpp lines 550-578 for one column: choose the pivot row, give up when its
   * magnitude is below 1e-10, otherwise bring it to row col and divide that
   * row by the pivot. The ghost g carries the inverse column operations.
   */
  method PivotColumn(work: array2<real>, col: nat, ghost g0: Mat) returns (ok: bool, ghost g: Mat, ghost big: nat)
    requires work.Length0 == N_MEAS && work.Length1 == 2 * N_MEAS && col < N_MEAS
    requires IsMat(g0, N_MEAS, N_MEAS) && UnitColumns(work, col)
    modifies work
    ensures !ok ==> unchanged(work)
    ensures !ok ==> forall i :: col <= i < N_MEAS ==> Abs(old(work[i, col])) < PIVOT_EPSILON
    ensures ok ==> col <= big < N_MEAS && Abs(old(work[big, col])) >= PIVOT_EPSILON
    ensures ok ==> IsMat(g, N_MEAS, N_MEAS) && Mul(g, Snapshot(work)) == Mul(g0, old(Snapshot(work)))
    ensures ok ==> work[col, col] == 1.0 && UnitColumns(work, col)
    ensures ok <==> Abs(old(Snapshot(work))[PivotRow(old(Snapshot(work)), col)][col]) >= PIVOT_EPSILON
    ensures ok ==> Snapshot(work) == Normalize(old(Snapshot(work)), col, PivotRow(old(Snapshot(work)), col))
  {
    ghost var m0 := Snapshot(work);
    g := g0;
    var maxRow, maxVal := FindPivot(work, col);
    big := maxRow;
    if maxVal < PIVOT_EPSILON {
      return false, g, big;
    }
    assert m0[maxRow][col] == work[maxRow, col];
    if maxRow != col {
      g := SwapToPivot(work, col, maxRow, g);
    }
    ghost var m1 := Snapshot(work);
    assert m1 == if maxRow != col then SwapRows(m0, col, maxRow) else m0;
    var pivot := work[col, col];
    g := NormalizePivot(work, col, pivot, g);
    assert Snapshot(work) == ScaleRow(m1, col, m1[col][col]);
    ok := true;
  }

  lemma DivSelf(x: real)
    requires x != 0.0
    ensures x / x == 1.0
  {
  }

  /** EKF6.cpp lines 566-572: exchange row col with the pivot row. */
  method SwapToPivot(work: array2<real>, col: nat, maxRow: nat, ghost g0: Mat) returns (ghost g: Mat)
    requires work.Length0 == N_MEAS && work.Length1 == 2 * N_MEAS && col < maxRow < N_MEAS
    requires IsMat(g0, N_MEAS, N_MEAS) && UnitColumns(work, col)
    modifies work
    ensures IsMat(g, N_MEAS, N_MEAS) && Mul(g, Snapshot(work)) == Mul(g0, old(Snapshot(work)))
    ensures UnitColumns(work, col) && work[col, col] == old(work[maxRow, col])
    ensures Snapshot(work) == SwapRows(old(Snapshot(work)), col, maxRow)
  {
    ghost var m := Snapshot(work);
    SwapRowsInPlace(work, col, maxRow);
    SwapKeeps(g0, m, col, maxRow);
    g := SwapCols(g0, col, maxRow);
  }

  /** EKF6.cpp lines 575-578: divide the pivot row by the pivot. */
  method NormalizePivot(work: array2<real>, col: nat, pivot: real, ghost g0: Mat) returns (ghost g: Mat)
    requires work.Length0 == N_MEAS && work.Length1 == 2 * N_MEAS && col < N_MEAS
    requires IsMat(g0, N_MEAS, N_MEAS) && UnitColumns(work, col)
    requires pivot == work[col, col] && pivot != 0.0
    modifies work
    ensures IsMat(g, N_MEAS, N_MEAS) && Mul(g, Snapshot(work)) == Mul(g0, old(Snapshot(work)))
    ensures UnitColumns(work, col) && work[col, col] == 1.0
    ensures Snapshot(work) == ScaleRow(old(Snapshot(work)), col, pivot)
  {
    ghost var m := Snapshot(work);
    ScaleRowInPlace(work, col, pivot);
    ScaleKeeps(g0, m, col, pivot);
    g := ScaleCol(g0, col, pivot);
    DivSelf(pivot);
    forall i, k | 0 <= i < N_MEAS && 0 <= k < col
      ensures work[i, k] == if i == k then 1.0 else 0.0
    {
      if i == col {
        assert old(work[col, k]) == 0.0;
      }
    }
  }

  /** EKF6.cpp lines 581-588 for one column: clear column col in every other row. */
  method EliminateColumn(work: array2<real>, col: nat, ghost g0: Mat) returns (ghost g: Mat)
    requires work.Length0 == N_MEAS && work.Length1 == 2 * N_MEAS && col < N_MEAS
    requires IsMat(g0, N_MEAS, N_MEAS) && work[col, col] == 1.0 && UnitColumns(work, col)
    modifies work
    ensures IsMat(g, N_MEAS, N_MEAS) && Mul(g, Snapshot(work)) == Mul(g0, old(Snapshot(work)))
    ensures UnitColumns(work, col + 1)
    ensures Snapshot(work) == EliminateFrom(old(Snapshot(work)), col, 0)
  {
    g := g0;
    for row := 0 to N_MEAS
      invariant IsMat(g, N_MEAS, N_MEAS) && Mul(g, Snapshot(work)) == Mul(g0, old(Snapshot(work)))
      invariant work[col, col] == 1.0 && UnitColumns(work, col)
      invariant forall i :: 0 <= i < row && i != col ==> work[i, col] == 0.0
      invariant EliminateFrom(Snapshot(work), col, row) == EliminateFrom(old(Snapshot(work)), col, 0)
    {
      if row != col {
        var factor := work[row, col];
        ghost var m := Snapshot(work);
        assert m[row][col] == factor;
        EliminateRow(work, row, col, factor);
        SubtractKeeps(g, m, row, col, factor);
        g := AddCol(g, col, row, factor);
      }
    }
  }

  /** EKF6.cpp lines 592-596: the right half of the reduced matrix. */
  method CopyRightHalf(work: array2<real>, inv: array2<real>)
    requires work.Length0 == N_MEAS && work.Length1 == 2 * N_MEAS
    requires inv.Length0 == N_MEAS && inv.Length1 == N_MEAS && inv != work
    modifies inv
    ensures forall i, j :: 0 <= i < N_MEAS && 0 <= j < N_MEAS ==> inv[i, j] == work[i, j + N_MEAS]
  {
    for i := 0 to N_MEAS
      invariant forall r, j :: 0 <= r < i && 0 <= j < N_MEAS ==> inv[r, j] == work[r, j + N_MEAS]
    {
      for j := 0 to N_MEAS
        invariant forall r, k :: 0 <= r < i && 0 <= k < N_MEAS ==> inv[r, k] == work[r, k + N_MEAS]
        invariant forall k :: 0 <= k < j ==> inv[i, k] == work[i, k + N_MEAS]
      {
        inv[i, j] := work[i, j + N_MEAS];
      }
    }
  }

  /** One pass of the column loop at EKF6.cpp lines 548-589. */
  method ReduceColumn(work: array2<real>, col: nat, ghost g0: Mat) returns (found: bool, ghost g: Mat)
    requires work.Length0 == N_MEAS && work.Length1 == 2 * N_MEAS && col < N_MEAS
    requires IsMat(g0, N_MEAS, N_MEAS) && UnitColumns(work, col)
    modifies work
    ensures found ==> IsMat(g, N_MEAS, N_MEAS) && Mul(g, Snapshot(work)) == Mul(g0, old(Snapshot(work)))
    ensures found ==> UnitColumns(work, col + 1)
    ensures found == ReduceStep(old(Snapshot(work)), col).Some?
    ensures found ==> Snapshot(work) == ReduceStep(old(Snapshot(work)), col).value
  {
    ghost var g1, big;
    found, g1, big := PivotColumn(work, col, g0);
    g := g1;
    if found {
      g := EliminateColumn(work, col, g1);
    }
  }

  /** EKF6.cpp lines 592-596 once the left half is the identity: the right half is A's inverse. */
  method ExtractInverse(work: array2<real>, inv: array2<real>, ghost a0: Mat, ghost g: Mat)
    requires work.Length0 == N_MEAS && work.Length1 == 2 * N_MEAS
    requires inv.Length0 == N_MEAS && inv.Length1 == N_MEAS && inv != work
    requires IsMat(a0, N_MEAS, N_MEAS) && IsMat(g, N_MEAS, N_MEAS)
    requires Mul(g, Snapshot(work)) == Augment(a0) && UnitColumns(work, N_MEAS)
    modifies inv
    ensures Mul(a0, Snapshot(inv)) == Identity(N_MEAS)
    ensures Snapshot(inv) == RightHalf(Snapshot(work))
  {
    CopyRightHalf(work, inv);
    MatEq(Snapshot(inv), RightHalf(Snapshot(work)), N_MEAS, N_MEAS);
    InverseFromReduced(a0, g, Snapshot(work), Snapshot(inv));
  }

  /** The column loop of invert4x4, run to the end or to the first column without a pivot. */
  method ReduceAll(work: array2<real>, ghost a0: Mat) returns (ok: bool, ghost g: Mat)
    requires work.Length0 == N_MEAS && work.Length1 == 2 * N_MEAS
    requires IsMat(a0, N_MEAS, N_MEAS) && Snapshot(work) == Augment(a0)
    modifies work
    ensures ok <==> GaussJordan(a0).Some?
    ensures ok ==> Snapshot(work) == GaussJordan(a0).value
    ensures ok ==> IsMat(g, N_MEAS, N_MEAS) && Mul(g, Snapshot(work)) == Augment(a0)
    ensures ok ==> UnitColumns(work, N_MEAS)
  {
    ghost var aug := Augment(a0);
    IdentityLeft(aug);
    g := Identity(N_MEAS);
    for col := 0 to N_MEAS
      invariant IsMat(g, N_MEAS, N_MEAS) && Mul(g, Snapshot(work)) == aug
      invariant UnitColumns(work, col)
      invariant ReduceUpTo(aug, col) == Some(Snapshot(work))
    {
      ghost var before := Snapshot(work);
      var found, g1 := ReduceColumn(work, col, g);
      if !found {
        StepFailureIsFinal(a0, col, before);
        return false, g;
      }
      g := g1;
    }
    return true, g;
  }

  /**
   * invert4x4: succeeds exactly when the reduction GaussJordan finds a pivot
   * of at least 1e-10 in every column, and then returns the right half of the
   * reduced matrix, an inverse of A; otherwise it reports failure and leaves
   * the output untouched.
   */
  method Invert4x4(a: array2<real>, inv: array2<real>) returns (ok: bool)
    requires a.Length0 == N_MEAS && a.Length1 == N_MEAS
    requires inv.Length0 == N_MEAS && inv.Length1 == N_MEAS
    modifies inv
    ensures ok <==> GaussJordan(old(Snapshot(a))).Some?
    ensures ok ==> Snapshot(inv) == RightHalf(GaussJordan(old(Snapshot(a))).value)
    ensures ok ==> Mul(old(Snapshot(a)), Snapshot(inv)) == Identity(N_MEAS)
    ensures !ok ==> unchanged(inv)
    ensures (forall i :: 0 <= i < N_MEAS ==> Abs(old(a[i, 0])) < PIVOT_EPSILON) ==> !ok
  {
    ghost var a0 := Snapshot(a);
    if forall i :: 0 <= i < N_MEAS ==> Abs(a0[i][0]) < PIVOT_EPSILON {
      SmallFirstColumnFails(a0);
    }
    var work := BuildAugmented(a);
    var reduced, g := ReduceAll(work, a0);
    if !reduced {
      return false;
    }
    ExtractInverse(work, inv, a0, g);
    return true;
  }
}
