/**
 * Dense real matrices as the attitude/AOA Kalman filter's frozen dense
 * reference computes them: every entry of a product is the row-by-column
 * sum accumulated from k = 0 upwards. Sizes are explicit (6 states, 4
 * measurements); floats are modelled as reals.
 */
module Ekf6Matrix {
  type Mat = seq<seq<real>>

  /** The filter's state and measurement dimensions. */
  const N_STATES: nat := 6
  const N_MEAS: nat := 4

  predicate IsMat(m: Mat, rows: nat, cols: nat) {
    |m| == rows && forall i :: 0 <= i < rows ==> |m[i]| == cols
  }

  /** The number of columns of a matrix with at least one row. */
  function Cols(m: Mat): nat {
    if |m| == 0 then 0 else |m[0]|
  }

  /** sum_{k < n} u[k] * v[k], accumulated in the order of the C loops. */
  function DotTo(u: seq<real>, v: seq<real>, n: nat): real
    requires n <= |u| && n <= |v|
  {
    if n == 0 then 0.0 else DotTo(u, v, n - 1) + u[n - 1] * v[n - 1]
  }

  function Dot(u: seq<real>, v: seq<real>): real
    requires |u| == |v|
  {
    DotTo(u, v, |u|)
  }

  /** A four-term dot product written out. */
  lemma Dot4(u: seq<real>, v: seq<real>)
    requires |u| == |v| == 4
    ensures Dot(u, v) == u[0] * v[0] + u[1] * v[1] + u[2] * v[2] + u[3] * v[3]
  {
    assert DotTo(u, v, 1) == u[0] * v[0];
    assert DotTo(u, v, 2) == DotTo(u, v, 1) + u[1] * v[1];
    assert DotTo(u, v, 3) == DotTo(u, v, 2) + u[2] * v[2];
    assert DotTo(u, v, 4) == DotTo(u, v, 3) + u[3] * v[3];
  }

  /** A six-term dot product written out. */
  lemma Dot6(u: seq<real>, v: seq<real>)
    requires |u| == |v| == 6
    ensures Dot(u, v) == u[0] * v[0] + u[1] * v[1] + u[2] * v[2] + u[3] * v[3] + u[4] * v[4] + u[5] * v[5]
  {
    assert DotTo(u, v, 1) == u[0] * v[0];
    assert DotTo(u, v, 2) == DotTo(u, v, 1) + u[1] * v[1];
    assert DotTo(u, v, 3) == DotTo(u, v, 2) + u[2] * v[2];
    assert DotTo(u, v, 4) == DotTo(u, v, 3) + u[3] * v[3];
    assert DotTo(u, v, 5) == DotTo(u, v, 4) + u[4] * v[4];
    assert DotTo(u, v, 6) == DotTo(u, v, 5) + u[5] * v[5];
  }

  /** Changing one entry of the left vector changes the sum by that entry's difference times its partner. */
  lemma DotUpdateLeft(u: seq<real>, w: seq<real>, c: nat, x: real)
    requires |u| == |w| && c < |u|
    ensures Dot(u[c := x], w) == Dot(u, w) + (x - u[c]) * w[c]
  {
    DotToUpdateLeft(u, w, c, x, |u|);
  }

  lemma {:induction false} DotToUpdateLeft(u: seq<real>, w: seq<real>, c: nat, x: real, n: nat)
    requires |u| == |w| && c < |u| && n <= |u|
    ensures DotTo(u[c := x], w, n) == DotTo(u, w, n) + (if c < n then (x - u[c]) * w[c] else 0.0)
  {
    if n > 0 {
      DotToUpdateLeft(u, w, c, x, n - 1);
    }
  }

  /** The same on the right. */
  lemma DotUpdateRight(u: seq<real>, w: seq<real>, r: nat, y: real)
    requires |u| == |w| && r < |u|
    ensures Dot(u, w[r := y]) == Dot(u, w) + u[r] * (y - w[r])
  {
    DotToUpdateRight(u, w, r, y, |u|);
  }

  lemma {:induction false} DotToUpdateRight(u: seq<real>, w: seq<real>, r: nat, y: real, n: nat)
    requires |u| == |w| && r < |u| && n <= |u|
    ensures DotTo(u, w[r := y], n) == DotTo(u, w, n) + (if r < n then u[r] * (y - w[r]) else 0.0)
  {
    if n > 0 {
      DotToUpdateRight(u, w, r, y, n - 1);
    }
  }

  /** Two matrices of one shape with the same entries are equal. */
  lemma MatEq(a: Mat, b: Mat, rows: nat, cols: nat)
    requires IsMat(a, rows, cols) && IsMat(b, rows, cols)
    requires forall i, j :: 0 <= i < rows && 0 <= j < cols ==> a[i][j] == b[i][j]
    ensures a == b
  {
    forall i | 0 <= i < rows
      ensures a[i] == b[i]
    {
      assert forall j :: 0 <= j < cols ==> a[i][j] == b[i][j];
    }
  }

  function Column(m: Mat, j: nat): (c: seq<real>)
    requires IsMat(m, |m|, Cols(m)) && j < Cols(m)
    ensures |c| == |m| && forall i :: 0 <= i < |m| ==> c[i] == m[i][j]
  {
    seq(|m|, i requires 0 <= i < |m| => m[i][j])
  }

  /** The product a * b: entry (i, j) is row i of a against column j of b. */
  function Mul(a: Mat, b: Mat): (c: Mat)
    requires IsMat(a, |a|, |b|) && IsMat(b, |b|, Cols(b))
    ensures IsMat(c, |a|, Cols(b))
    ensures forall i, j :: 0 <= i < |a| && 0 <= j < Cols(b) ==> c[i][j] == Dot(a[i], Column(b, j))
  {
    seq(|a|, i requires 0 <= i < |a| => seq(Cols(b), j requires 0 <= j < Cols(b) => Dot(a[i], Column(b, j))))
  }

  function Transpose(m: Mat): (t: Mat)
    requires IsMat(m, |m|, Cols(m))
    ensures IsMat(t, Cols(m), |m|)
    ensures forall j, i :: 0 <= j < Cols(m) && 0 <= i < |m| ==> t[j][i] == m[i][j]
  {
    seq(Cols(m), j requires 0 <= j < Cols(m) => Column(m, j))
  }

  /** Column j of a transpose is row j of the original. */
  lemma ColumnOfTranspose(m: Mat, j: nat)
    requires IsMat(m, |m|, Cols(m)) && 0 < Cols(m) && j < |m|
    ensures Cols(Transpose(m)) == |m|
    ensures Column(Transpose(m), j) == m[j]
  {
    var t := Transpose(m);
    assert |t[0]| == |m|;
  }

  function Add(a: Mat, b: Mat): (c: Mat)
    requires IsMat(a, |a|, Cols(a)) && IsMat(b, |a|, Cols(a))
    ensures IsMat(c, |a|, Cols(a))
    ensures forall i, j :: 0 <= i < |a| && 0 <= j < Cols(a) ==> c[i][j] == a[i][j] + b[i][j]
  {
    seq(|a|, i requires 0 <= i < |a| => seq(Cols(a), j requires 0 <= j < Cols(a) => a[i][j] + b[i][j]))
  }

  function Sub(a: Mat, b: Mat): (c: Mat)
    requires IsMat(a, |a|, Cols(a)) && IsMat(b, |a|, Cols(a))
    ensures IsMat(c, |a|, Cols(a))
    ensures forall i, j :: 0 <= i < |a| && 0 <= j < Cols(a) ==> c[i][j] == a[i][j] - b[i][j]
  {
    seq(|a|, i requires 0 <= i < |a| => seq(Cols(a), j requires 0 <= j < Cols(a) => a[i][j] - b[i][j]))
  }

  /** The square matrix with v on the diagonal and zeros elsewhere. */
  function Diag(v: seq<real>): (d: Mat)
    ensures IsMat(d, |v|, |v|)
    ensures forall i, j :: 0 <= i < |v| && 0 <= j < |v| ==> d[i][j] == if i == j then v[i] else 0.0
  {
    seq(|v|, i requires 0 <= i < |v| => seq(|v|, j requires 0 <= j < |v| => if i == j then v[i] else 0.0))
  }

  function Identity(n: nat): (e: Mat)
    ensures IsMat(e, n, n)
    ensures forall i, j :: 0 <= i < n && 0 <= j < n ==> e[i][j] == if i == j then 1.0 else 0.0
  {
    Diag(seq(n, _ => 1.0))
  }

  predicate Symmetric(m: Mat) {
    IsMat(m, |m|, |m|) && forall i, j :: 0 <= i < |m| && 0 <= j < |m| ==> m[i][j] == m[j][i]
  }

  /** The values of a two-dimensional array, row by row. */
  ghost function Snapshot(a: array2<real>): (m: Mat)
    reads a
    ensures IsMat(m, a.Length0, a.Length1)
    ensures forall i, j :: 0 <= i < a.Length0 && 0 <= j < a.Length1 ==> m[i][j] == a[i, j]
  {
    seq(a.Length0, i requires 0 <= i < a.Length0 reads a =>
      seq(a.Length1, j requires 0 <= j < a.Length1 reads a => a[i, j]))
  }
}
