/**
 * The six-state attitude / angle-of-attack extended Kalman filter, as
 * values: the state x = [phi, theta, alpha, bp, bq, br], its 6x6
 * covariance P, the tuning constants, and the prediction step written the
 * way the firmware computes it (sparse rows and columns of F). Floats are
 * reals; sin and cos are parameters the caller supplies.
 */
module Ekf6Model {
  import opened Numeric
  import opened Ekf6Matrix

  const GRAVITY: real := 9.80665
  /** |cos theta| below this is pushed out to it before dividing by it. */
  const SINGULARITY_THRESHOLD: real := 0.001

  datatype Config = Config(
    qAttitude: real, qAlpha: real, qBias: real,
    rAccel: real, rAlpha: real,
    pAttitude: real, pAlpha: real, pBias: real)

  /** The production tuning. */
  const DEFAULTS: Config := Config(0.001, 0.0001, 0.00000001, 0.5, 0.01, 0.1, 0.1, 0.01)

  datatype Measurements = Measurements(ax: real, ay: real, az: real, p: real, q: real, r: real, gamma: real)

  datatype State = State(phi: real, theta: real, alpha: real, bp: real, bq: real, br: real)

  /** Diagonal of Q: attitude, attitude, alpha, then three gyro biases. */
  function ProcessNoise(c: Config): (q: seq<real>)
    ensures |q| == N_STATES
  {
    [c.qAttitude, c.qAttitude, c.qAlpha, c.qBias, c.qBias, c.qBias]
  }

  /** Diagonal of R: three accelerometer axes, then the derived alpha. */
  function MeasurementNoise(c: Config): (r: seq<real>)
    ensures |r| == 4
  {
    [c.rAccel, c.rAccel, c.rAccel, c.rAlpha]
  }

  /** Diagonal of the initial covariance. */
  function InitialVariances(c: Config): (v: seq<real>)
    ensures |v| == N_STATES
  {
    [c.pAttitude, c.pAttitude, c.pAlpha, c.pBias, c.pBias, c.pBias]
  }

  function StateOf(x: seq<real>): State
    requires |x| == N_STATES
  {
    State(x[0], x[1], x[2], x[3], x[4], x[5])
  }

  /** The singularity guard on cos theta. */
  function ClampCos(c: real): (r: real)
    ensures Abs(r) >= SINGULARITY_THRESHOLD
    ensures Abs(c) >= SINGULARITY_THRESHOLD ==> r == c
    ensures Abs(c) < SINGULARITY_THRESHOLD ==> r == (if c >= 0.0 then SINGULARITY_THRESHOLD else -SINGULARITY_THRESHOLD)
    ensures (r >= 0.0) == (c >= 0.0)
  {
    if Abs(c) < SINGULARITY_THRESHOLD then
      (if c >= 0.0 then SINGULARITY_THRESHOLD else -SINGULARITY_THRESHOLD)
    else c
  }

  // ---------------------------------------------------------------------
  // Prediction

  /** The non-trivial entries of F = I + dt * A (rows 0 and 1). */
  datatype Jacobian = Jacobian(f00: real, f01: real, f03: real, f04: real, f05: real, f10: real, f14: real, f15: real)

  /** Euler-angle kinematics at one state: the two rates and the Jacobian. */
  datatype Kinematics = Kinematics(phiDot: real, thetaDot: real, jac: Jacobian)

  function PredictKinematics(x: seq<real>, p: real, q: real, r: real, dt: real,
                             sin: real -> real, cos: real -> real): Kinematics
    requires |x| == N_STATES
  {
    var pc := p - x[3];
    var qc := q - x[4];
    var rc := r - x[5];
    var sph := sin(x[0]);
    var cph := cos(x[0]);
    var cth := ClampCos(cos(x[1]));
    var tth := sin(x[1]) / cth;
    var sec2th := 1.0 + tth * tth;
    Kinematics(
      pc + qc * sph * tth + rc * cph * tth,
      qc * cph - rc * sph,
      Jacobian(
        1.0 + dt * (qc * cph * tth - rc * sph * tth),
        dt * (qc * sph * sec2th + rc * cph * sec2th),
        -dt,
        -dt * sph * tth,
        -dt * cph * tth,
        dt * (-qc * sph - rc * cph),
        -dt * cph,
        dt * sph))
  }

  /** One explicit Euler step. */
  function EulerStep(v: real, dt: real, rate: real): real {
    v + dt * rate
  }

  /** The predicted state: phi and theta integrated one Euler step, the rest kept. */
  function PredictState(x: seq<real>, p: real, q: real, r: real, dt: real,
                        sin: real -> real, cos: real -> real): (y: seq<real>)
    requires |x| == N_STATES
    ensures |y| == N_STATES && y[2..] == x[2..]
  {
    var k := PredictKinematics(x, p, q, r, dt, sin, cos);
    [EulerStep(x[0], dt, k.phiDot), EulerStep(x[1], dt, k.thetaDot)] + x[2..]
  }

  /** Entry (i, j) of the full 6x6 transition matrix. */
  function TransitionEntry(J: Jacobian, i: nat, j: nat): real {
    if i == 0 then
      (if j == 0 then J.f00 else if j == 1 then J.f01 else if j == 3 then J.f03
       else if j == 4 then J.f04 else if j == 5 then J.f05 else 0.0)
    else if i == 1 then
      (if j == 0 then J.f10 else if j == 1 then 1.0 else if j == 4 then J.f14
       else if j == 5 then J.f15 else 0.0)
    else if i == j then 1.0 else 0.0
  }

  /** F as a dense matrix: identity rows 2-5. */
  function Transition(J: Jacobian): (F: Mat)
    ensures IsMat(F, N_STATES, N_STATES)
    ensures forall i, j :: 0 <= i < N_STATES && 0 <= j < N_STATES ==> F[i][j] == TransitionEntry(J, i, j)
  {
    seq(N_STATES, i requires 0 <= i < N_STATES =>
      seq(N_STATES, j requires 0 <= j < N_STATES => TransitionEntry(J, i, j)))
  }

  /** The four sums the firmware writes out, as F's rows meet a column (Row) or as a row meets F' (Col). */
  function Row0(J: Jacobian, p0: real, p1: real, p3: real, p4: real, p5: real): real {
    J.f00 * p0 + J.f01 * p1 + J.f03 * p3 + J.f04 * p4 + J.f05 * p5
  }

  function Row1(J: Jacobian, p0: real, p1: real, p4: real, p5: real): real {
    J.f10 * p0 + p1 + J.f14 * p4 + J.f15 * p5
  }

  function Col0(J: Jacobian, a0: real, a1: real, a3: real, a4: real, a5: real): real {
    a0 * J.f00 + a1 * J.f01 + a3 * J.f03 + a4 * J.f04 + a5 * J.f05
  }

  function Col1(J: Jacobian, a0: real, a1: real, a4: real, a5: real): real {
    a0 * J.f10 + a1 + a4 * J.f14 + a5 * J.f15
  }

  /** Row i of FP = F * P as the firmware forms it: rows 0 and 1 computed, rows 2-5 copied. */
  function SparseFPEntry(m: Mat, J: Jacobian, i: nat, j: nat): real
    requires IsMat(m, N_STATES, N_STATES) && i < N_STATES && j < N_STATES
  {
    if i == 0 then Row0(J, m[0][j], m[1][j], m[3][j], m[4][j], m[5][j])
    else if i == 1 then Row1(J, m[0][j], m[1][j], m[4][j], m[5][j])
    else m[i][j]
  }

  function SparseFP(m: Mat, J: Jacobian): (fp: Mat)
    requires IsMat(m, N_STATES, N_STATES)
    ensures IsMat(fp, N_STATES, N_STATES)
    ensures forall i, j :: 0 <= i < N_STATES && 0 <= j < N_STATES ==> fp[i][j] == SparseFPEntry(m, J, i, j)
  {
    seq(N_STATES, i requires 0 <= i < N_STATES =>
      seq(N_STATES, j requires 0 <= j < N_STATES => SparseFPEntry(m, J, i, j)))
  }

  /** Column j of FP * F' as the firmware forms it: two computed columns, four copied. */
  function SparseFPFt(fp: Mat, J: Jacobian, i: nat, j: nat): real
    requires IsMat(fp, N_STATES, N_STATES) && i < N_STATES && j < N_STATES
  {
    if j == 0 then Col0(J, fp[i][0], fp[i][1], fp[i][3], fp[i][4], fp[i][5])
    else if j == 1 then Col1(J, fp[i][0], fp[i][1], fp[i][4], fp[i][5])
    else fp[i][j]
  }

  /** P_new = FP * F' with Q added on the diagonal. */
  function SparseCov(fp: Mat, J: Jacobian, q: seq<real>): (c: Mat)
    requires IsMat(fp, N_STATES, N_STATES) && |q| == N_STATES
    ensures IsMat(c, N_STATES, N_STATES)
    ensures forall i, j :: 0 <= i < N_STATES && 0 <= j < N_STATES ==> c[i][j] == SparseFPFt(fp, J, i, j) + (if i == j then q[i] else 0.0)
  {
    seq(N_STATES, i requires 0 <= i < N_STATES =>
      seq(N_STATES, j requires 0 <= j < N_STATES =>
        SparseFPFt(fp, J, i, j) + (if i == j then q[i] else 0.0)))
  }

  /** The predicted covariance the firmware computes. */
  function PredictCov(m: Mat, J: Jacobian, q: seq<real>): (c: Mat)
    requires IsMat(m, N_STATES, N_STATES) && |q| == N_STATES
    ensures IsMat(c, N_STATES, N_STATES)
  {
    SparseCov(SparseFP(m, J), J, q)
  }

  lemma FPEntry(m: Mat, J: Jacobian, i: nat, j: nat)
    requires IsMat(m, N_STATES, N_STATES) && i < N_STATES && j < N_STATES
    ensures SparseFP(m, J)[i][j] == Mul(Transition(J), m)[i][j]
  {
    var F := Transition(J);
    Dot6(F[i], Column(m, j));
  }

  /** The sparse FP is the dense product F * P. */
  lemma FPIsProduct(m: Mat, J: Jacobian)
    requires IsMat(m, N_STATES, N_STATES)
    ensures SparseFP(m, J) == Mul(Transition(J), m)
  {
    forall i, j | 0 <= i < N_STATES && 0 <= j < N_STATES
      ensures SparseFP(m, J)[i][j] == Mul(Transition(J), m)[i][j]
    {
      FPEntry(m, J, i, j);
    }
    MatEq(SparseFP(m, J), Mul(Transition(J), m), N_STATES, N_STATES);
  }

  lemma FPFtEntry(fp: Mat, J: Jacobian, i: nat, j: nat)
    requires IsMat(fp, N_STATES, N_STATES) && i < N_STATES && j < N_STATES
    ensures SparseFPFt(fp, J, i, j) == Mul(fp, Transpose(Transition(J)))[i][j]
  {
    var F := Transition(J);
    ColumnOfTranspose(F, j);
    Dot6(fp[i], F[j]);
  }

  /** The sparse FP * F' + Q is the dense product plus diag(Q). */
  lemma CovIsProduct(fp: Mat, J: Jacobian, q: seq<real>)
    requires IsMat(fp, N_STATES, N_STATES) && |q| == N_STATES
    ensures SparseCov(fp, J, q) == Add(Mul(fp, Transpose(Transition(J))), Diag(q))
  {
    var dense := Add(Mul(fp, Transpose(Transition(J))), Diag(q));
    forall i, j | 0 <= i < N_STATES && 0 <= j < N_STATES
      ensures SparseCov(fp, J, q)[i][j] == dense[i][j]
    {
      FPFtEntry(fp, J, i, j);
    }
    MatEq(SparseCov(fp, J, q), dense, N_STATES, N_STATES);
  }

  /** The sparse prediction is exactly F * P * F' + diag(Q). */
  lemma PredictCovIsDense(m: Mat, J: Jacobian, q: seq<real>)
    requires IsMat(m, N_STATES, N_STATES) && |q| == N_STATES
    ensures PredictCov(m, J, q) == Add(Mul(Mul(Transition(J), m), Transpose(Transition(J))), Diag(q))
  {
    FPIsProduct(m, J);
    CovIsProduct(SparseFP(m, J), J, q);
  }

  // ---------------------------------------------------------------------
  // Covariance reset for alpha

  /** Row 2 and column 2 cleared, then P[2][2] set to the initial alpha variance. */
  function ResetAlpha(m: Mat, v: real): (c: Mat)
    requires IsMat(m, N_STATES, N_STATES)
    ensures IsMat(c, N_STATES, N_STATES)
  {
    seq(N_STATES, i requires 0 <= i < N_STATES =>
      seq(N_STATES, j requires 0 <= j < N_STATES =>
        if i == 2 && j == 2 then v else if i == 2 || j == 2 then 0.0 else m[i][j]))
  }

  /** The reset decouples alpha: a symmetric covariance stays symmetric. */
  lemma ResetAlphaKeepsSymmetric(m: Mat, v: real)
    requires IsMat(m, N_STATES, N_STATES) && Symmetric(m)
    ensures Symmetric(ResetAlpha(m, v))
    ensures forall i :: 0 <= i < N_STATES && i != 2 ==> ResetAlpha(m, v)[i][2] == 0.0 && ResetAlpha(m, v)[2][i] == 0.0
  {
    var c := ResetAlpha(m, v);
    forall i, j | 0 <= i < N_STATES && 0 <= j < N_STATES
      ensures c[i][j] == c[j][i]
    {
    }
  }

  /** Resetting twice is resetting once. */
  lemma ResetAlphaIdempotent(m: Mat, v: real)
    requires IsMat(m, N_STATES, N_STATES)
    ensures ResetAlpha(ResetAlpha(m, v), v) == ResetAlpha(m, v)
  {
    var c := ResetAlpha(m, v);
    forall i, j | 0 <= i < N_STATES && 0 <= j < N_STATES
      ensures ResetAlpha(c, v)[i][j] == c[i][j]
    {
    }
    MatEq(ResetAlpha(c, v), c, N_STATES, N_STATES);
  }
}
