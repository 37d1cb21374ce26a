/**
 * The measurement update of the six-state filter as values: the
 * accelerometer / alpha measurement model, its sparse Jacobian H, and the
 * products the firmware forms with H's sparsity (H P, S = H P H' + R,
 * P H', I - K H) and densely (K = P H' S^-1, the Joseph-form covariance),
 * each tied to the dense matrix algebra.
 */
module Ekf6Correction {
  import opened Ekf6Matrix
  import opened Ekf6Model

  /** The non-zero entries of the 4x6 measurement Jacobian besides H[3][2] = 1. */
  datatype MeasJacobian = MeasJacobian(h01: real, h10: real, h11: real, h20: real, h21: real)

  /** Predicted measurements and the Jacobian at one state. */
  datatype Linearisation = Linearisation(zPred: seq<real>, H: MeasJacobian)

  /** Products written as named functions so that equal factors are matched as terms. */
  function Lin1(a: real, b: real): real { a * b }
  function Lin2(a: real, b: real, c: real, d: real): real { a * b + c * d }

  /**
   * EKF6.cpp lines 330-367: gravity seen in the body frame at attitude (phi, theta),
   * alpha measured directly, and the derivatives of those predictions.
   */
  function Linearise(x: seq<real>, g: real, sin: real -> real, cos: real -> real): (l: Linearisation)
    requires |x| == N_STATES
    ensures |l.zPred| == N_MEAS && l.zPred[3] == x[2]
  {
    var sph := sin(x[0]);
    var cph := cos(x[0]);
    var sth := sin(x[1]);
    var cth := cos(x[1]);
    Linearisation(
      [g * sth, -g * cth * sph, -g * cth * cph, x[2]],
      MeasJacobian(g * cth, -g * cth * cph, g * sth * sph, g * cth * sph, g * sth * cph))
  }

  /** EKF6.cpp lines 369-377: y = z - z_pred, with the derived alpha theta - gamma as the fourth measurement. */
  function Innovation(x: seq<real>, ax: real, ay: real, az: real, gamma: real, zPred: seq<real>): (y: seq<real>)
    requires |x| == N_STATES && |zPred| == N_MEAS
    ensures |y| == N_MEAS
    ensures y[0] == ax - zPred[0] && y[1] == ay - zPred[1] && y[2] == az - zPred[2]
    ensures y[3] == (x[1] - gamma) - zPred[3]
  {
    [ax - zPred[0], ay - zPred[1], az - zPred[2], (x[1] - gamma) - zPred[3]]
  }

  /**
   * In level flight (both angles zero) the model predicts ax = ay = 0 and
   * az = -g, and the Jacobian reduces to its two pitch and roll terms.
   */
  lemma LevelFlightPrediction(x: seq<real>, g: real, sin: real -> real, cos: real -> real)
    requires |x| == N_STATES
    requires sin(x[0]) == 0.0 && cos(x[0]) == 1.0 && sin(x[1]) == 0.0 && cos(x[1]) == 1.0
    ensures Linearise(x, g, sin, cos).zPred == [0.0, 0.0, -g, x[2]]
    ensures Linearise(x, g, sin, cos).H == MeasJacobian(g, -g, 0.0, 0.0, 0.0)
  {
    var z := Linearise(x, g, sin, cos).zPred;
    assert z[0] == g * 0.0 == 0.0;
    assert z[1] == -g * 1.0 * 0.0 == 0.0;
    assert z[2] == -g * 1.0 * 1.0 == -g;
  }

  /** The predicted specific force always has magnitude g when sin and cos are a unit pair. */
  lemma PredictedForceMagnitude(x: seq<real>, g: real, sin: real -> real, cos: real -> real)
    requires |x| == N_STATES
    requires sin(x[0]) * sin(x[0]) + cos(x[0]) * cos(x[0]) == 1.0
    requires sin(x[1]) * sin(x[1]) + cos(x[1]) * cos(x[1]) == 1.0
    ensures var z := Linearise(x, g, sin, cos).zPred;
      z[0] * z[0] + z[1] * z[1] + z[2] * z[2] == g * g
  {
    var sph, cph, sth, cth := sin(x[0]), cos(x[0]), sin(x[1]), cos(x[1]);
    var z := Linearise(x, g, sin, cos).zPred;
    calc {
      z[0] * z[0] + z[1] * z[1] + z[2] * z[2];
      g * g * (sth * sth) + g * g * (cth * cth) * (sph * sph + cph * cph);
      g * g * (sth * sth) + g * g * (cth * cth);
      g * g * (sth * sth + cth * cth);
    }
  }

  /** The innovation vanishes exactly when every measurement agrees with its prediction. */
  lemma InnovationZeroIff(x: seq<real>, ax: real, ay: real, az: real, gamma: real, zPred: seq<real>)
    requires |x| == N_STATES && |zPred| == N_MEAS
    ensures Innovation(x, ax, ay, az, gamma, zPred) == [0.0, 0.0, 0.0, 0.0]
      <==> ax == zPred[0] && ay == zPred[1] && az == zPred[2] && x[1] - gamma == zPred[3]
  {
    var y := Innovation(x, ax, ay, az, gamma, zPred);
    if y == [0.0, 0.0, 0.0, 0.0] {
      assert y[0] == 0.0 && y[1] == 0.0 && y[2] == 0.0 && y[3] == 0.0;
    }
  }

  /** Entry (i, j) of the dense 4x6 Jacobian. */
  function MeasEntry(H: MeasJacobian, i: nat, j: nat): real {
    if i == 0 && j == 1 then H.h01
    else if i == 1 && j == 0 then H.h10
    else if i == 1 && j == 1 then H.h11
    else if i == 2 && j == 0 then H.h20
    else if i == 2 && j == 1 then H.h21
    else if i == 3 && j == 2 then 1.0
    else 0.0
  }

  function MeasMatrix(H: MeasJacobian): (h: Mat)
    ensures IsMat(h, N_MEAS, N_STATES)
    ensures forall i, j :: 0 <= i < N_MEAS && 0 <= j < N_STATES ==> h[i][j] == MeasEntry(H, i, j)
  {
    seq(N_MEAS, i requires 0 <= i < N_MEAS =>
      seq(N_STATES, j requires 0 <= j < N_STATES => MeasEntry(H, i, j)))
  }

  /** EKF6.cpp lines 389-395: H P, row by row. */
  function HPEntry(m: Mat, H: MeasJacobian, i: nat, j: nat): real
    requires IsMat(m, N_STATES, N_STATES) && i < N_MEAS && j < N_STATES
  {
    if i == 0 then Lin1(H.h01, m[1][j])
    else if i == 1 then Lin2(H.h10, m[0][j], H.h11, m[1][j])
    else if i == 2 then Lin2(H.h20, m[0][j], H.h21, m[1][j])
    else m[2][j]
  }

  function SparseHP(m: Mat, H: MeasJacobian): (hp: Mat)
    requires IsMat(m, N_STATES, N_STATES)
    ensures IsMat(hp, N_MEAS, N_STATES)
    ensures forall i, j :: 0 <= i < N_MEAS && 0 <= j < N_STATES ==> hp[i][j] == HPEntry(m, H, i, j)
  {
    seq(N_MEAS, i requires 0 <= i < N_MEAS =>
      seq(N_STATES, j requires 0 <= j < N_STATES => HPEntry(m, H, i, j)))
  }

  /** EKF6.cpp lines 408-414: (H P) H', column by column. */
  function HPHtEntry(hp: Mat, H: MeasJacobian, i: nat, j: nat): real
    requires IsMat(hp, N_MEAS, N_STATES) && i < N_MEAS && j < N_MEAS
  {
    if j == 0 then Lin1(hp[i][1], H.h01)
    else if j == 1 then Lin2(hp[i][0], H.h10, hp[i][1], H.h11)
    else if j == 2 then Lin2(hp[i][0], H.h20, hp[i][1], H.h21)
    else hp[i][2]
  }

  /** EKF6.cpp lines 408-419: the innovation covariance S = H P H' + R. */
  function SparseS(hp: Mat, H: MeasJacobian, r: seq<real>): (s: Mat)
    requires IsMat(hp, N_MEAS, N_STATES) && |r| == N_MEAS
    ensures IsMat(s, N_MEAS, N_MEAS)
    ensures forall i, j :: 0 <= i < N_MEAS && 0 <= j < N_MEAS ==> s[i][j] == HPHtEntry(hp, H, i, j) + (if i == j then r[i] else 0.0)
  {
    seq(N_MEAS, i requires 0 <= i < N_MEAS =>
      seq(N_MEAS, j requires 0 <= j < N_MEAS => HPHtEntry(hp, H, i, j) + (if i == j then r[i] else 0.0)))
  }

  /** EKF6.cpp lines 443-449: P H', column by column. */
  function PHtEntry(m: Mat, H: MeasJacobian, i: nat, j: nat): real
    requires IsMat(m, N_STATES, N_STATES) && i < N_STATES && j < N_MEAS
  {
    if j == 0 then Lin1(m[i][1], H.h01)
    else if j == 1 then Lin2(m[i][0], H.h10, m[i][1], H.h11)
    else if j == 2 then Lin2(m[i][0], H.h20, m[i][1], H.h21)
    else m[i][2]
  }

  function SparsePHt(m: Mat, H: MeasJacobian): (pht: Mat)
    requires IsMat(m, N_STATES, N_STATES)
    ensures IsMat(pht, N_STATES, N_MEAS)
    ensures forall i, j :: 0 <= i < N_STATES && 0 <= j < N_MEAS ==> pht[i][j] == PHtEntry(m, H, i, j)
  {
    seq(N_STATES, i requires 0 <= i < N_STATES =>
      seq(N_MEAS, j requires 0 <= j < N_MEAS => PHtEntry(m, H, i, j)))
  }

  /** EKF6.cpp lines 482-490: I - K H, with columns 3-5 identity columns. */
  function IKHEntry(k: Mat, H: MeasJacobian, i: nat, j: nat): real
    requires IsMat(k, N_STATES, N_MEAS) && i < N_STATES && j < N_STATES
  {
    var delta := if i == j then 1.0 else 0.0;
    if j == 0 then delta - Lin2(k[i][1], H.h10, k[i][2], H.h20)
    else if j == 1 then delta - (Lin1(k[i][0], H.h01) + Lin2(k[i][1], H.h11, k[i][2], H.h21))
    else if j == 2 then delta - k[i][3]
    else delta
  }

  function SparseIKH(k: Mat, H: MeasJacobian): (ikh: Mat)
    requires IsMat(k, N_STATES, N_MEAS)
    ensures IsMat(ikh, N_STATES, N_STATES)
    ensures forall i, j :: 0 <= i < N_STATES && 0 <= j < N_STATES ==> ikh[i][j] == IKHEntry(k, H, i, j)
  {
    seq(N_STATES, i requires 0 <= i < N_STATES =>
      seq(N_STATES, j requires 0 <= j < N_STATES => IKHEntry(k, H, i, j)))
  }

  /** u with each entry scaled by the matching entry of w. */
  function Weighted(u: seq<real>, w: seq<real>): (v: seq<real>)
    requires |u| == |w|
    ensures |v| == |u| && forall k :: 0 <= k < |u| ==> v[k] == u[k] * w[k]
  {
    seq(|u|, k requires 0 <= k < |u| => u[k] * w[k])
  }

  /** EKF6.cpp lines 504-515: the Joseph form (I-KH) P (I-KH)' + K R K', from IKHP = (I-KH) P. */
  function Joseph(ikhp: Mat, ikh: Mat, k: Mat, r: seq<real>): (c: Mat)
    requires IsMat(ikhp, N_STATES, N_STATES) && IsMat(ikh, N_STATES, N_STATES)
    requires IsMat(k, N_STATES, N_MEAS) && |r| == N_MEAS
    ensures IsMat(c, N_STATES, N_STATES)
    ensures forall i, j :: 0 <= i < N_STATES && 0 <= j < N_STATES ==>
      c[i][j] == Dot(ikhp[i], ikh[j]) + Dot(Weighted(k[i], r), k[j])
  {
    seq(N_STATES, i requires 0 <= i < N_STATES =>
      seq(N_STATES, j requires 0 <= j < N_STATES => Dot(ikhp[i], ikh[j]) + Dot(Weighted(k[i], r), k[j])))
  }

  /** The innovation covariance at covariance m. */
  function InnovationCov(m: Mat, H: MeasJacobian, r: seq<real>): (s: Mat)
    requires IsMat(m, N_STATES, N_STATES) && |r| == N_MEAS
    ensures IsMat(s, N_MEAS, N_MEAS)
  {
    SparseS(SparseHP(m, H), H, r)
  }

  /** EKF6.cpp lines 451-460: the Kalman gain P H' S^-1. */
  function Gain(m: Mat, H: MeasJacobian, sInv: Mat): (k: Mat)
    requires IsMat(m, N_STATES, N_STATES) && IsMat(sInv, N_MEAS, N_MEAS)
    ensures IsMat(k, N_STATES, N_MEAS)
  {
    Mul(SparsePHt(m, H), sInv)
  }

  /** EKF6.cpp lines 462-467: x + K y. */
  function CorrectedState(x: seq<real>, k: Mat, y: seq<real>): (x1: seq<real>)
    requires |x| == N_STATES && IsMat(k, N_STATES, N_MEAS) && |y| == N_MEAS
    ensures |x1| == N_STATES && forall i :: 0 <= i < N_STATES ==> x1[i] == x[i] + Dot(k[i], y)
  {
    seq(N_STATES, i requires 0 <= i < N_STATES => x[i] + Dot(k[i], y))
  }

  /** With no innovation the state correction leaves the state as it was, whatever the gain. */
  lemma ZeroInnovationKeepsState(x: seq<real>, k: Mat)
    requires |x| == N_STATES && IsMat(k, N_STATES, N_MEAS)
    ensures CorrectedState(x, k, [0.0, 0.0, 0.0, 0.0]) == x
  {
    var x1 := CorrectedState(x, k, [0.0, 0.0, 0.0, 0.0]);
    forall i | 0 <= i < N_STATES
      ensures x1[i] == x[i]
    {
      Dot4(k[i], [0.0, 0.0, 0.0, 0.0]);
    }
  }

  /** EKF6.cpp lines 482-518: the covariance after the update. */
  function CorrectedCov(m: Mat, k: Mat, H: MeasJacobian, r: seq<real>): (c: Mat)
    requires IsMat(m, N_STATES, N_STATES) && IsMat(k, N_STATES, N_MEAS) && |r| == N_MEAS
    ensures IsMat(c, N_STATES, N_STATES)
  {
    var ikh := SparseIKH(k, H);
    Joseph(Mul(ikh, m), ikh, k, r)
  }

  // ---------------------------------------------------------------------
  // The sparse forms are the dense products

  lemma HPEntryIsDense(m: Mat, H: MeasJacobian, i: nat, j: nat)
    requires IsMat(m, N_STATES, N_STATES) && i < N_MEAS && j < N_STATES
    ensures HPEntry(m, H, i, j) == Mul(MeasMatrix(H), m)[i][j]
  {
    Dot6(MeasMatrix(H)[i], Column(m, j));
  }

  /** H P formed sparsely is the dense product. */
  lemma HPIsDense(m: Mat, H: MeasJacobian)
    requires IsMat(m, N_STATES, N_STATES)
    ensures SparseHP(m, H) == Mul(MeasMatrix(H), m)
  {
    forall i, j | 0 <= i < N_MEAS && 0 <= j < N_STATES
      ensures SparseHP(m, H)[i][j] == Mul(MeasMatrix(H), m)[i][j]
    {
      HPEntryIsDense(m, H, i, j);
    }
    MatEq(SparseHP(m, H), Mul(MeasMatrix(H), m), N_MEAS, N_STATES);
  }

  lemma HPHtEntryIsDense(hp: Mat, H: MeasJacobian, i: nat, j: nat)
    requires IsMat(hp, N_MEAS, N_STATES) && i < N_MEAS && j < N_MEAS
    ensures HPHtEntry(hp, H, i, j) == Mul(hp, Transpose(MeasMatrix(H)))[i][j]
  {
    var h := MeasMatrix(H);
    ColumnOfTranspose(h, j);
    Dot6(hp[i], h[j]);
  }

  /** S formed sparsely is H P H' + diag(R). */
  lemma InnovationCovIsDense(m: Mat, H: MeasJacobian, r: seq<real>)
    requires IsMat(m, N_STATES, N_STATES) && |r| == N_MEAS
    ensures InnovationCov(m, H, r) == Add(Mul(Mul(MeasMatrix(H), m), Transpose(MeasMatrix(H))), Diag(r))
  {
    HPIsDense(m, H);
    var hp := SparseHP(m, H);
    var dense := Add(Mul(hp, Transpose(MeasMatrix(H))), Diag(r));
    forall i, j | 0 <= i < N_MEAS && 0 <= j < N_MEAS
      ensures InnovationCov(m, H, r)[i][j] == dense[i][j]
    {
      HPHtEntryIsDense(hp, H, i, j);
    }
    MatEq(InnovationCov(m, H, r), dense, N_MEAS, N_MEAS);
  }

  lemma PHtEntryIsDense(m: Mat, H: MeasJacobian, i: nat, j: nat)
    requires IsMat(m, N_STATES, N_STATES) && i < N_STATES && j < N_MEAS
    ensures PHtEntry(m, H, i, j) == Mul(m, Transpose(MeasMatrix(H)))[i][j]
  {
    var h := MeasMatrix(H);
    ColumnOfTranspose(h, j);
    Dot6(m[i], h[j]);
  }

  /** P H' formed sparsely is the dense product, so the gain is P H' S^-1. */
  lemma GainIsDense(m: Mat, H: MeasJacobian, sInv: Mat)
    requires IsMat(m, N_STATES, N_STATES) && IsMat(sInv, N_MEAS, N_MEAS)
    ensures Gain(m, H, sInv) == Mul(Mul(m, Transpose(MeasMatrix(H))), sInv)
  {
    forall i, j | 0 <= i < N_STATES && 0 <= j < N_MEAS
      ensures SparsePHt(m, H)[i][j] == Mul(m, Transpose(MeasMatrix(H)))[i][j]
    {
      PHtEntryIsDense(m, H, i, j);
    }
    MatEq(SparsePHt(m, H), Mul(m, Transpose(MeasMatrix(H))), N_STATES, N_MEAS);
  }

  lemma IKHEntryIsDense(k: Mat, H: MeasJacobian, i: nat, j: nat)
    requires IsMat(k, N_STATES, N_MEAS) && i < N_STATES && j < N_STATES
    ensures IKHEntry(k, H, i, j) == Sub(Identity(N_STATES), Mul(k, MeasMatrix(H)))[i][j]
  {
    Dot4(k[i], Column(MeasMatrix(H), j));
  }

  /** I - K H formed sparsely is the dense difference. */
  lemma IKHIsDense(k: Mat, H: MeasJacobian)
    requires IsMat(k, N_STATES, N_MEAS)
    ensures SparseIKH(k, H) == Sub(Identity(N_STATES), Mul(k, MeasMatrix(H)))
  {
    forall i, j | 0 <= i < N_STATES && 0 <= j < N_STATES
      ensures SparseIKH(k, H)[i][j] == Sub(Identity(N_STATES), Mul(k, MeasMatrix(H)))[i][j]
    {
      IKHEntryIsDense(k, H, i, j);
    }
    MatEq(SparseIKH(k, H), Sub(Identity(N_STATES), Mul(k, MeasMatrix(H))), N_STATES, N_STATES);
  }

  lemma NoiseTermIsDense(k: Mat, r: seq<real>, i: nat, j: nat)
    requires IsMat(k, N_STATES, N_MEAS) && |r| == N_MEAS && i < N_STATES && j < N_STATES
    ensures Dot(Weighted(k[i], r), k[j]) == Mul(Mul(k, Diag(r)), Transpose(k))[i][j]
  {
    var kr := Mul(k, Diag(r));
    forall c | 0 <= c < N_MEAS
      ensures kr[i][c] == Weighted(k[i], r)[c]
    {
      Dot4(k[i], Column(Diag(r), c));
    }
    assert kr[i] == Weighted(k[i], r);
    ColumnOfTranspose(k, j);
  }

  /** The Joseph sum is (I-KH) P (I-KH)' + K diag(R) K'. */
  lemma CorrectedCovIsDense(m: Mat, k: Mat, H: MeasJacobian, r: seq<real>)
    requires IsMat(m, N_STATES, N_STATES) && IsMat(k, N_STATES, N_MEAS) && |r| == N_MEAS
    ensures var ikh := Sub(Identity(N_STATES), Mul(k, MeasMatrix(H)));
      CorrectedCov(m, k, H, r) == Add(Mul(Mul(ikh, m), Transpose(ikh)), Mul(Mul(k, Diag(r)), Transpose(k)))
  {
    IKHIsDense(k, H);
    var ikh := SparseIKH(k, H);
    var ikhp := Mul(ikh, m);
    var dense := Add(Mul(ikhp, Transpose(ikh)), Mul(Mul(k, Diag(r)), Transpose(k)));
    forall i, j | 0 <= i < N_STATES && 0 <= j < N_STATES
      ensures CorrectedCov(m, k, H, r)[i][j] == dense[i][j]
    {
      ColumnOfTranspose(ikh, j);
      NoiseTermIsDense(k, r, i, j);
    }
    MatEq(CorrectedCov(m, k, H, r), dense, N_STATES, N_STATES);
  }
}
