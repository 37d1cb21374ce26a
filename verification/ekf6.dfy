/**
 * The filter object: the state vector and covariance live in arrays that
 * init, predict, correct and the alpha reset overwrite in place.
 */
module Ekf6 {
  import opened Numeric
  import opened Ekf6Matrix
  import opened Ekf6Model
  import opened Ekf6Invert
  import opened Ekf6Correction

  /** memcpy of one 6x6 covariance into another. */
  method CopyMatrix(src: array2<real>, dst: array2<real>)
    requires src.Length0 == N_STATES && src.Length1 == N_STATES
    requires dst.Length0 == N_STATES && dst.Length1 == N_STATES && src != dst
    modifies dst
    ensures Snapshot(dst) == Snapshot(src)
  {
    for i := 0 to N_STATES
      invariant forall r, k :: 0 <= r < i && 0 <= k < N_STATES ==> dst[r, k] == src[r, k]
    {
      for j := 0 to N_STATES
        invariant forall r, k :: 0 <= r < i && 0 <= k < N_STATES ==> dst[r, k] == src[r, k]
        invariant forall k :: 0 <= k < j ==> dst[i, k] == src[i, k]
      {
        dst[i, j] := src[i, j];
      }
    }
    MatEq(Snapshot(dst), Snapshot(src), N_STATES, N_STATES);
  }

  /** EKF6.cpp lines 248-258: rows 0 and 1 of FP = F * P. */
  method FillTopRows(P: array2<real>, fp: array2<real>, J: Jacobian)
    requires P.Length0 == N_STATES && P.Length1 == N_STATES
    requires fp.Length0 == N_STATES && fp.Length1 == N_STATES && fp != P
    modifies fp
    ensures forall k :: 0 <= k < N_STATES ==>
      fp[0, k] == Row0(J, P[0, k], P[1, k], P[3, k], P[4, k], P[5, k]) &&
      fp[1, k] == Row1(J, P[0, k], P[1, k], P[4, k], P[5, k])
  {
    for j := 0 to N_STATES
      invariant forall k :: 0 <= k < j ==> fp[0, k] == Row0(J, P[0, k], P[1, k], P[3, k], P[4, k], P[5, k])
    {
      fp[0, j] := Row0(J, P[0, j], P[1, j], P[3, j], P[4, j], P[5, j]);
    }
    for j := 0 to N_STATES
      invariant forall k :: 0 <= k < N_STATES ==> fp[0, k] == Row0(J, P[0, k], P[1, k], P[3, k], P[4, k], P[5, k])
      invariant forall k :: 0 <= k < j ==> fp[1, k] == Row1(J, P[0, k], P[1, k], P[4, k], P[5, k])
    {
      fp[1, j] := Row1(J, P[0, j], P[1, j], P[4, j], P[5, j]);
    }
  }

  /** EKF6.cpp line 261: rows 2-5 of F are identity rows, so those rows of FP are P's. */
  method CopyLowerRows(P: array2<real>, fp: array2<real>)
    requires P.Length0 == N_STATES && P.Length1 == N_STATES
    requires fp.Length0 == N_STATES && fp.Length1 == N_STATES && fp != P
    modifies fp
    ensures forall r, k :: 2 <= r < N_STATES && 0 <= k < N_STATES ==> fp[r, k] == P[r, k]
    ensures forall r, k :: 0 <= r < 2 && 0 <= k < N_STATES ==> fp[r, k] == old(fp[r, k])
  {
    for i := 2 to N_STATES
      invariant forall r, k :: 2 <= r < i && 0 <= k < N_STATES ==> fp[r, k] == P[r, k]
      invariant forall r, k :: 0 <= r < 2 && 0 <= k < N_STATES ==> fp[r, k] == old(fp[r, k])
    {
      for j := 0 to N_STATES
        invariant forall r, k :: 2 <= r < i && 0 <= k < N_STATES ==> fp[r, k] == P[r, k]
        invariant forall r, k :: 0 <= r < 2 && 0 <= k < N_STATES ==> fp[r, k] == old(fp[r, k])
        invariant forall k :: 0 <= k < j ==> fp[i, k] == P[i, k]
      {
        fp[i, j] := P[i, j];
      }
    }
  }

  /** EKF6.cpp lines 246-261: FP = F * P, rows 0 and 1 computed, rows 2-5 copied. */
  method ComputeFP(P: array2<real>, J: Jacobian) returns (fp: array2<real>)
    requires P.Length0 == N_STATES && P.Length1 == N_STATES
    ensures fresh(fp) && fp.Length0 == N_STATES && fp.Length1 == N_STATES
    ensures Snapshot(fp) == SparseFP(Snapshot(P), J)
  {
    fp := new real[N_STATES, N_STATES];
    FillTopRows(P, fp, J);
    CopyLowerRows(P, fp);
    ghost var m := Snapshot(P);
    forall i, j | 0 <= i < N_STATES && 0 <= j < N_STATES
      ensures Snapshot(fp)[i][j] == SparseFP(m, J)[i][j]
    {
    }
    MatEq(Snapshot(fp), SparseFP(m, J), N_STATES, N_STATES);
  }

  /** EKF6.cpp lines 277-292: P_new = FP * F', columns 0 and 1 computed, columns 2-5 copied. */
  method FillCov(fp: array2<real>, pNew: array2<real>, J: Jacobian)
    requires fp.Length0 == N_STATES && fp.Length1 == N_STATES
    requires pNew.Length0 == N_STATES && pNew.Length1 == N_STATES && pNew != fp
    modifies pNew
    ensures forall r, k :: 0 <= r < N_STATES && 0 <= k < N_STATES ==> pNew[r, k] == SparseFPFt(Snapshot(fp), J, r, k)
  {
    for i := 0 to N_STATES
      invariant forall r :: 0 <= r < i ==>
        pNew[r, 0] == Col0(J, fp[r, 0], fp[r, 1], fp[r, 3], fp[r, 4], fp[r, 5]) &&
        pNew[r, 1] == Col1(J, fp[r, 0], fp[r, 1], fp[r, 4], fp[r, 5])
      invariant forall r, k :: 0 <= r < i && 2 <= k < N_STATES ==> pNew[r, k] == fp[r, k]
    {
      pNew[i, 0] := Col0(J, fp[i, 0], fp[i, 1], fp[i, 3], fp[i, 4], fp[i, 5]);
      pNew[i, 1] := Col1(J, fp[i, 0], fp[i, 1], fp[i, 4], fp[i, 5]);
      pNew[i, 2] := fp[i, 2];
      pNew[i, 3] := fp[i, 3];
      pNew[i, 4] := fp[i, 4];
      pNew[i, 5] := fp[i, 5];
    }
  }

  /** EKF6.cpp lines 295-297: the process noise on the diagonal. */
  method AddDiagonal(m: array2<real>, q: seq<real>)
    requires m.Length0 == N_STATES && m.Length1 == N_STATES && |q| == N_STATES
    modifies m
    ensures forall r, k :: 0 <= r < N_STATES && 0 <= k < N_STATES ==>
      m[r, k] == old(m[r, k]) + (if r == k then q[r] else 0.0)
  {
    for i := 0 to N_STATES
      invariant forall r, k :: 0 <= r < N_STATES && 0 <= k < N_STATES ==>
        m[r, k] == old(m[r, k]) + (if r == k && r < i then q[r] else 0.0)
    {
      m[i, i] := m[i, i] + q[i];
    }
  }

  /** EKF6.cpp lines 277-297: P_new = FP * F' + Q. */
  method ComputePredictCov(fp: array2<real>, J: Jacobian, q: seq<real>) returns (pNew: array2<real>)
    requires fp.Length0 == N_STATES && fp.Length1 == N_STATES && |q| == N_STATES
    ensures fresh(pNew) && pNew.Length0 == N_STATES && pNew.Length1 == N_STATES
    ensures Snapshot(pNew) == SparseCov(Snapshot(fp), J, q)
  {
    pNew := new real[N_STATES, N_STATES];
    FillCov(fp, pNew, J);
    AddDiagonal(pNew, q);
    MatEq(Snapshot(pNew), SparseCov(Snapshot(fp), J, q), N_STATES, N_STATES);
  }

  /** memset of a 6x6 covariance to zero. */
  method ZeroMatrix(m: array2<real>)
    requires m.Length0 == N_STATES && m.Length1 == N_STATES
    modifies m
    ensures forall i, j :: 0 <= i < N_STATES && 0 <= j < N_STATES ==> m[i, j] == 0.0
  {
    for i := 0 to N_STATES
      invariant forall r, k :: 0 <= r < i && 0 <= k < N_STATES ==> m[r, k] == 0.0
    {
      for j := 0 to N_STATES
        invariant forall r, k :: 0 <= r < i && 0 <= k < N_STATES ==> m[r, k] == 0.0
        invariant forall k :: 0 <= k < j ==> m[i, k] == 0.0
      {
        m[i, j] := 0.0;
      }
    }
  }

  /** EKF6.cpp lines 113-118: the initial variances on the diagonal of a zeroed covariance. */
  method SetDiagonal(P: array2<real>, pAttitude: real, pAlpha: real, pBias: real)
    requires P.Length0 == N_STATES && P.Length1 == N_STATES
    requires forall i, j :: 0 <= i < N_STATES && 0 <= j < N_STATES ==> P[i, j] == 0.0
    modifies P
    ensures Snapshot(P) == Diag([pAttitude, pAttitude, pAlpha, pBias, pBias, pBias])
  {
    P[0, 0] := pAttitude;
    P[1, 1] := pAttitude;
    P[2, 2] := pAlpha;
    P[3, 3] := pBias;
    P[4, 4] := pBias;
    P[5, 5] := pBias;
    DiagEntries(Snapshot(P), pAttitude, pAlpha, pBias);
  }

  /** A 6x6 matrix with the initial variances on the diagonal and zeros elsewhere. */
  lemma DiagEntries(m: Mat, a: real, b: real, c: real)
    requires IsMat(m, N_STATES, N_STATES)
    requires m[0][0] == a && m[1][1] == a && m[2][2] == b
    requires m[3][3] == c && m[4][4] == c && m[5][5] == c
    requires forall i, j :: 0 <= i < N_STATES && 0 <= j < N_STATES && i != j ==> m[i][j] == 0.0
    ensures m == Diag([a, a, b, c, c, c])
  {
    var v := [a, a, b, c, c, c];
    assert v[0] == a && v[1] == a && v[2] == b && v[3] == c && v[4] == c && v[5] == c;
    forall i, j | 0 <= i < N_STATES && 0 <= j < N_STATES
      ensures m[i][j] == Diag(v)[i][j]
    {
    }
    MatEq(m, Diag(v), N_STATES, N_STATES);
  }

  // ---------------------------------------------------------------------
  // The measurement update's loops

  /** EKF6.cpp lines 389-395: H P with H's sparsity. */
  method ComputeHP(P: array2<real>, H: MeasJacobian) returns (hp: array2<real>)
    requires P.Length0 == N_STATES && P.Length1 == N_STATES
    ensures fresh(hp) && hp.Length0 == N_MEAS && hp.Length1 == N_STATES
    ensures Snapshot(hp) == SparseHP(Snapshot(P), H)
  {
    ghost var m := Snapshot(P);
    hp := new real[N_MEAS, N_STATES];
    for j := 0 to N_STATES
      modifies hp
      invariant forall r, k :: 0 <= r < N_MEAS && 0 <= k < j ==> hp[r, k] == HPEntry(m, H, r, k)
    {
      hp[0, j] := Lin1(H.h01, P[1, j]);
      hp[1, j] := Lin2(H.h10, P[0, j], H.h11, P[1, j]);
      hp[2, j] := Lin2(H.h20, P[0, j], H.h21, P[1, j]);
      hp[3, j] := P[2, j];
      assert hp[0, j] == HPEntry(m, H, 0, j) && hp[1, j] == HPEntry(m, H, 1, j);
      assert hp[2, j] == HPEntry(m, H, 2, j) && hp[3, j] == HPEntry(m, H, 3, j);
    }
    forall i, j | 0 <= i < N_MEAS && 0 <= j < N_STATES
      ensures Snapshot(hp)[i][j] == SparseHP(m, H)[i][j]
    {
    }
    MatEq(Snapshot(hp), SparseHP(m, H), N_MEAS, N_STATES);
  }

  /** EKF6.cpp lines 408-414: (H P) H' with H's sparsity. */
  method FillS(hp: array2<real>, s: array2<real>, H: MeasJacobian)
    requires hp.Length0 == N_MEAS && hp.Length1 == N_STATES
    requires s.Length0 == N_MEAS && s.Length1 == N_MEAS && s != hp
    modifies s
    ensures forall i, j :: 0 <= i < N_MEAS && 0 <= j < N_MEAS ==> s[i, j] == HPHtEntry(Snapshot(hp), H, i, j)
  {
    for i := 0 to N_MEAS
      invariant forall r :: 0 <= r < i ==>
        s[r, 0] == Lin1(hp[r, 1], H.h01) &&
        s[r, 1] == Lin2(hp[r, 0], H.h10, hp[r, 1], H.h11) &&
        s[r, 2] == Lin2(hp[r, 0], H.h20, hp[r, 1], H.h21) &&
        s[r, 3] == hp[r, 2]
    {
      s[i, 0] := Lin1(hp[i, 1], H.h01);
      s[i, 1] := Lin2(hp[i, 0], H.h10, hp[i, 1], H.h11);
      s[i, 2] := Lin2(hp[i, 0], H.h20, hp[i, 1], H.h21);
      s[i, 3] := hp[i, 2];
    }
  }

  /** EKF6.cpp lines 416-419: the measurement noise on the diagonal of S. */
  method AddMeasurementNoise(s: array2<real>, r: seq<real>)
    requires s.Length0 == N_MEAS && s.Length1 == N_MEAS && |r| == N_MEAS
    modifies s
    ensures forall i, j :: 0 <= i < N_MEAS && 0 <= j < N_MEAS ==>
      s[i, j] == old(s[i, j]) + (if i == j then r[i] else 0.0)
  {
    for i := 0 to N_MEAS
      invariant forall a, b :: 0 <= a < N_MEAS && 0 <= b < N_MEAS ==>
        s[a, b] == old(s[a, b]) + (if a == b && a < i then r[a] else 0.0)
    {
      s[i, i] := s[i, i] + r[i];
    }
  }

  /** EKF6.cpp lines 408-419: S = H P H' + R. */
  method ComputeS(hp: array2<real>, H: MeasJacobian, r: seq<real>) returns (s: array2<real>)
    requires hp.Length0 == N_MEAS && hp.Length1 == N_STATES && |r| == N_MEAS
    ensures fresh(s) && s.Length0 == N_MEAS && s.Length1 == N_MEAS
    ensures Snapshot(s) == SparseS(Snapshot(hp), H, r)
  {
    s := new real[N_MEAS, N_MEAS];
    FillS(hp, s, H);
    AddMeasurementNoise(s, r);
    MatEq(Snapshot(s), SparseS(Snapshot(hp), H, r), N_MEAS, N_MEAS);
  }

  /** EKF6.cpp lines 443-449: P H' with H's sparsity. */
  method ComputePHt(P: array2<real>, H: MeasJacobian) returns (pht: array2<real>)
    requires P.Length0 == N_STATES && P.Length1 == N_STATES
    ensures fresh(pht) && pht.Length0 == N_STATES && pht.Length1 == N_MEAS
    ensures Snapshot(pht) == SparsePHt(Snapshot(P), H)
  {
    ghost var m := Snapshot(P);
    pht := new real[N_STATES, N_MEAS];
    for i := 0 to N_STATES
      modifies pht
      invariant forall r, c :: 0 <= r < i && 0 <= c < N_MEAS ==> pht[r, c] == PHtEntry(m, H, r, c)
    {
      pht[i, 0] := Lin1(P[i, 1], H.h01);
      pht[i, 1] := Lin2(P[i, 0], H.h10, P[i, 1], H.h11);
      pht[i, 2] := Lin2(P[i, 0], H.h20, P[i, 1], H.h21);
      pht[i, 3] := P[i, 2];
      assert pht[i, 0] == PHtEntry(m, H, i, 0) && pht[i, 1] == PHtEntry(m, H, i, 1);
      assert pht[i, 2] == PHtEntry(m, H, i, 2) && pht[i, 3] == PHtEntry(m, H, i, 3);
    }
    forall i, j | 0 <= i < N_STATES && 0 <= j < N_MEAS
      ensures Snapshot(pht)[i][j] == SparsePHt(m, H)[i][j]
    {
    }
    MatEq(Snapshot(pht), SparsePHt(m, H), N_STATES, N_MEAS);
  }

  /** Entry (i, j) of a * b, read from the arrays. */
  ghost function ProductAt(a: array2<real>, b: array2<real>, i: nat, j: nat): real
    requires a.Length1 == b.Length0 && 0 < b.Length0 && i < a.Length0 && j < b.Length1
    reads a, b
  {
    Dot(Snapshot(a)[i], Column(Snapshot(b), j))
  }

  /** Row i of a against column j of b, summed from k = 0 upwards. */
  method DotEntry(a: array2<real>, b: array2<real>, i: nat, j: nat) returns (sum: real)
    requires a.Length1 == b.Length0 && 0 < b.Length0 && i < a.Length0 && j < b.Length1
    ensures sum == ProductAt(a, b, i, j)
  {
    ghost var u := Snapshot(a)[i];
    ghost var v := Column(Snapshot(b), j);
    sum := 0.0;
    for k := 0 to a.Length1
      invariant sum == DotTo(u, v, k)
    {
      assert a[i, k] * b[k, j] == u[k] * v[k];
      sum := sum + a[i, k] * b[k, j];
    }
  }

  /** Row i of the dense product. */
  method FillProductRow(a: array2<real>, b: array2<real>, c: array2<real>, i: nat)
    requires a.Length1 == b.Length0 && 0 < b.Length0 && i < a.Length0
    requires c.Length0 == a.Length0 && c.Length1 == b.Length1 && c != a && c != b
    modifies c
    ensures forall q :: 0 <= q < b.Length1 ==> c[i, q] == ProductAt(a, b, i, q)
    ensures forall r, q :: 0 <= r < c.Length0 && r != i && 0 <= q < b.Length1 ==> c[r, q] == old(c[r, q])
  {
    for j := 0 to b.Length1
      invariant forall q :: 0 <= q < j ==> c[i, q] == ProductAt(a, b, i, q)
      invariant forall r, q :: 0 <= r < c.Length0 && r != i && 0 <= q < b.Length1 ==> c[r, q] == old(c[r, q])
    {
      c[i, j] := DotEntry(a, b, i, j);
    }
  }

  /** EKF6.cpp lines 453-460 and 494-501: the dense triple loop c = a * b. */
  method Multiply(a: array2<real>, b: array2<real>) returns (c: array2<real>)
    requires a.Length1 == b.Length0 && 0 < b.Length0
    ensures fresh(c) && c.Length0 == a.Length0 && c.Length1 == b.Length1
    ensures Snapshot(c) == Mul(Snapshot(a), Snapshot(b))
  {
    c := new real[a.Length0, b.Length1];
    for i := 0 to a.Length0
      modifies c
      invariant forall r, q :: 0 <= r < i && 0 <= q < b.Length1 ==> c[r, q] == ProductAt(a, b, r, q)
    {
      FillProductRow(a, b, c, i);
    }
    MatEq(Snapshot(c), Mul(Snapshot(a), Snapshot(b)), a.Length0, b.Length1);
  }

  /** EKF6.cpp lines 462-467: x += K y, one row at a time. */
  method AddGainTimesInnovation(x: array<real>, k: array2<real>, y: seq<real>)
    requires x.Length == N_STATES && k.Length0 == N_STATES && k.Length1 == N_MEAS && |y| == N_MEAS
    modifies x
    ensures x[..] == CorrectedState(old(x[..]), Snapshot(k), y)
  {
    ghost var km := Snapshot(k);
    for i := 0 to N_STATES
      invariant forall r :: 0 <= r < i ==> x[r] == old(x[r]) + Dot(km[r], y)
      invariant forall r :: i <= r < N_STATES ==> x[r] == old(x[r])
    {
      for j := 0 to N_MEAS
        invariant forall r :: 0 <= r < i ==> x[r] == old(x[r]) + Dot(km[r], y)
        invariant forall r :: i < r < N_STATES ==> x[r] == old(x[r])
        invariant x[i] == old(x[i]) + DotTo(km[i], y, j)
      {
        assert k[i, j] * y[j] == km[i][j] * y[j];
        x[i] := x[i] + k[i, j] * y[j];
      }
    }
  }

  /** Entry (i, j) of I - K H, read from the gain array. */
  function IKHAt(k: array2<real>, H: MeasJacobian, i: nat, j: nat): real
    requires k.Length0 == N_STATES && k.Length1 == N_MEAS && i < N_STATES
    reads k
  {
    var delta := if i == j then 1.0 else 0.0;
    if j == 0 then delta - Lin2(k[i, 1], H.h10, k[i, 2], H.h20)
    else if j == 1 then delta - (Lin1(k[i, 0], H.h01) + Lin2(k[i, 1], H.h11, k[i, 2], H.h21))
    else if j == 2 then delta - k[i, 3]
    else delta
  }

  /** EKF6.cpp lines 484-489: row i of I - K H. */
  method FillIKHRow(k: array2<real>, ikh: array2<real>, H: MeasJacobian, i: nat)
    requires k.Length0 == N_STATES && k.Length1 == N_MEAS && i < N_STATES
    requires ikh.Length0 == N_STATES && ikh.Length1 == N_STATES && ikh != k
    modifies ikh
    ensures forall q :: 0 <= q < N_STATES ==> ikh[i, q] == IKHAt(k, H, i, q)
    ensures forall r, q :: 0 <= r < N_STATES && r != i && 0 <= q < N_STATES ==> ikh[r, q] == old(ikh[r, q])
  {
    ikh[i, 0] := (if i == 0 then 1.0 else 0.0) - Lin2(k[i, 1], H.h10, k[i, 2], H.h20);
    ikh[i, 1] := (if i == 1 then 1.0 else 0.0) - (Lin1(k[i, 0], H.h01) + Lin2(k[i, 1], H.h11, k[i, 2], H.h21));
    ikh[i, 2] := (if i == 2 then 1.0 else 0.0) - k[i, 3];
    ikh[i, 3] := if i == 3 then 1.0 else 0.0;
    ikh[i, 4] := if i == 4 then 1.0 else 0.0;
    ikh[i, 5] := if i == 5 then 1.0 else 0.0;
  }

  /** EKF6.cpp lines 482-490: I - K H with H's sparsity. */
  method ComputeIKH(k: array2<real>, H: MeasJacobian) returns (ikh: array2<real>)
    requires k.Length0 == N_STATES && k.Length1 == N_MEAS
    ensures fresh(ikh) && ikh.Length0 == N_STATES && ikh.Length1 == N_STATES
    ensures Snapshot(ikh) == SparseIKH(Snapshot(k), H)
  {
    ikh := new real[N_STATES, N_STATES];
    for i := 0 to N_STATES
      modifies ikh
      invariant forall r, q :: 0 <= r < i && 0 <= q < N_STATES ==> ikh[r, q] == IKHAt(k, H, r, q)
    {
      FillIKHRow(k, ikh, H, i);
    }
    ghost var km := Snapshot(k);
    forall i, j | 0 <= i < N_STATES && 0 <= j < N_STATES
      ensures Snapshot(ikh)[i][j] == SparseIKH(km, H)[i][j]
    {
    }
    MatEq(Snapshot(ikh), SparseIKH(km, H), N_STATES, N_STATES);
  }

  /** Entry (i, j) of the Joseph-form covariance, read from the arrays. */
  ghost function JosephAt(ikhp: array2<real>, ikh: array2<real>, k: array2<real>, r: seq<real>, i: nat, j: nat): real
    requires ikhp.Length0 == N_STATES && ikhp.Length1 == N_STATES
    requires ikh.Length0 == N_STATES && ikh.Length1 == N_STATES
    requires k.Length0 == N_STATES && k.Length1 == N_MEAS && |r| == N_MEAS
    requires i < N_STATES && j < N_STATES
    reads ikhp, ikh, k
  {
    Dot(Snapshot(ikhp)[i], Snapshot(ikh)[j]) + Dot(Weighted(Snapshot(k)[i], r), Snapshot(k)[j])
  }

  /** EKF6.cpp lines 507-513 for one entry: (IKHP IKH')[i][j] accumulated, then (K R K')[i][j] on top. */
  method JosephEntry(ikhp: array2<real>, ikh: array2<real>, k: array2<real>, r: seq<real>, i: nat, j: nat) returns (sum: real)
    requires ikhp.Length0 == N_STATES && ikhp.Length1 == N_STATES
    requires ikh.Length0 == N_STATES && ikh.Length1 == N_STATES
    requires k.Length0 == N_STATES && k.Length1 == N_MEAS && |r| == N_MEAS
    requires i < N_STATES && j < N_STATES
    ensures sum == JosephAt(ikhp, ikh, k, r, i, j)
  {
    ghost var u := Snapshot(ikhp)[i];
    ghost var v := Snapshot(ikh)[j];
    ghost var kr := Weighted(Snapshot(k)[i], r);
    ghost var kj := Snapshot(k)[j];
    sum := 0.0;
    for c := 0 to N_STATES
      invariant sum == DotTo(u, v, c)
    {
      assert ikhp[i, c] * ikh[j, c] == u[c] * v[c];
      sum := sum + ikhp[i, c] * ikh[j, c];
    }
    for c := 0 to N_MEAS
      invariant sum == Dot(u, v) + DotTo(kr, kj, c)
    {
      assert k[i, c] * r[c] * k[j, c] == kr[c] * kj[c];
      sum := sum + k[i, c] * r[c] * k[j, c];
    }
  }

  /** EKF6.cpp lines 506-514: row i of the Joseph-form covariance. */
  method FillJosephRow(ikhp: array2<real>, ikh: array2<real>, k: array2<real>, r: seq<real>, pNew: array2<real>, i: nat)
    requires ikhp.Length0 == N_STATES && ikhp.Length1 == N_STATES
    requires ikh.Length0 == N_STATES && ikh.Length1 == N_STATES
    requires k.Length0 == N_STATES && k.Length1 == N_MEAS && |r| == N_MEAS
    requires pNew.Length0 == N_STATES && pNew.Length1 == N_STATES && i < N_STATES
    requires pNew != ikhp && pNew != ikh && pNew != k
    modifies pNew
    ensures forall b :: 0 <= b < N_STATES ==> pNew[i, b] == JosephAt(ikhp, ikh, k, r, i, b)
    ensures forall a, b :: 0 <= a < N_STATES && a != i && 0 <= b < N_STATES ==> pNew[a, b] == old(pNew[a, b])
  {
    for j := 0 to N_STATES
      invariant forall b :: 0 <= b < j ==> pNew[i, b] == JosephAt(ikhp, ikh, k, r, i, b)
      invariant forall a, b :: 0 <= a < N_STATES && a != i && 0 <= b < N_STATES ==> pNew[a, b] == old(pNew[a, b])
    {
      pNew[i, j] := JosephEntry(ikhp, ikh, k, r, i, j);
    }
  }

  /** EKF6.cpp lines 503-515: the Joseph-form covariance. */
  method ComputeJoseph(ikhp: array2<real>, ikh: array2<real>, k: array2<real>, r: seq<real>) returns (pNew: array2<real>)
    requires ikhp.Length0 == N_STATES && ikhp.Length1 == N_STATES
    requires ikh.Length0 == N_STATES && ikh.Length1 == N_STATES
    requires k.Length0 == N_STATES && k.Length1 == N_MEAS && |r| == N_MEAS
    ensures fresh(pNew) && pNew.Length0 == N_STATES && pNew.Length1 == N_STATES
    ensures Snapshot(pNew) == Joseph(Snapshot(ikhp), Snapshot(ikh), Snapshot(k), r)
  {
    pNew := new real[N_STATES, N_STATES];
    for i := 0 to N_STATES
      modifies pNew
      invariant forall a, b :: 0 <= a < i && 0 <= b < N_STATES ==> pNew[a, b] == JosephAt(ikhp, ikh, k, r, a, b)
    {
      FillJosephRow(ikhp, ikh, k, r, pNew, i);
    }
    ghost var target := Joseph(Snapshot(ikhp), Snapshot(ikh), Snapshot(k), r);
    MatEq(Snapshot(pNew), target, N_STATES, N_STATES);
  }

  /** EKF6.cpp lines 369-377: the innovation y = z - z_pred, entry by entry, with z = [ax, ay, az, theta - gamma]. */
  method ComputeInnovation(x: seq<real>, ax: real, ay: real, az: real, gamma: real, zPred: seq<real>) returns (y: seq<real>)
    requires |x| == N_STATES && |zPred| == N_MEAS
    ensures y == Innovation(x, ax, ay, az, gamma, zPred)
  {
    var z := [ax, ay, az, x[1] - gamma];
    var buf := new real[N_MEAS];
    for i := 0 to N_MEAS
      invariant forall r :: 0 <= r < i ==> buf[r] == z[r] - zPred[r]
    {
      buf[i] := z[i] - zPred[i];
    }
    y := buf[..];
  }

  /** EKF6.cpp lines 379-426: form S = H P H' + R and invert it; false when the elimination finds S singular. */
  method InvertInnovationCov(P: array2<real>, H: MeasJacobian, r: seq<real>) returns (ok: bool, sInv: array2<real>)
    requires P.Length0 == N_STATES && P.Length1 == N_STATES && |r| == N_MEAS
    ensures fresh(sInv) && sInv.Length0 == N_MEAS && sInv.Length1 == N_MEAS
    ensures ok <==> GaussJordan(InnovationCov(Snapshot(P), H, r)).Some?
    ensures ok ==> Snapshot(sInv) == RightHalf(GaussJordan(InnovationCov(Snapshot(P), H, r)).value)
    ensures ok ==> Mul(InnovationCov(Snapshot(P), H, r), Snapshot(sInv)) == Identity(N_MEAS)
    ensures (forall i :: 0 <= i < N_MEAS ==> Abs(InnovationCov(Snapshot(P), H, r)[i][0]) < PIVOT_EPSILON) ==> !ok
  {
    var hp := ComputeHP(P, H);
    var s := ComputeS(hp, H, r);
    sInv := new real[N_MEAS, N_MEAS];
    ok := Invert4x4(s, sInv);
  }

  /** EKF6.cpp lines 428-518: K = P H' S^-1, x += K y, and the Joseph-form covariance. */
  method ApplyGain(x: array<real>, P: array2<real>, sInv: array2<real>, H: MeasJacobian, y: seq<real>, r: seq<real>)
    requires x.Length == N_STATES && P.Length0 == N_STATES && P.Length1 == N_STATES
    requires sInv.Length0 == N_MEAS && sInv.Length1 == N_MEAS && sInv != P
    requires |y| == N_MEAS && |r| == N_MEAS
    modifies x, P
    ensures x[..] == CorrectedState(old(x[..]), Gain(old(Snapshot(P)), H, old(Snapshot(sInv))), y)
    ensures Snapshot(P) == CorrectedCov(old(Snapshot(P)), Gain(old(Snapshot(P)), H, old(Snapshot(sInv))), H, r)
  {
    var pht := ComputePHt(P, H);
    var k := Multiply(pht, sInv);
    AddGainTimesInnovation(x, k, y);
    var ikh := ComputeIKH(k, H);
    var ikhp := Multiply(ikh, P);
    var pNew := ComputeJoseph(ikhp, ikh, k, r);
    CopyMatrix(pNew, P);
  }

  class Filter {
    const config: Config
    /** Q_: the process-noise diagonal. */
    const processNoise: seq<real>
    /** R_: the measurement-noise diagonal. */
    const measurementNoise: seq<real>
    /** x_ = [phi, theta, alpha, bp, bq, br]. */
    const x: array<real>
    /** P_: the 6x6 state covariance. */
    const P: array2<real>
    var initialized: bool

    ghost predicate Valid()
      reads this
    {
      x.Length == N_STATES && P.Length0 == N_STATES && P.Length1 == N_STATES
      && processNoise == ProcessNoise(config) && measurementNoise == MeasurementNoise(config)
    }

    /** EKF6.cpp lines 77-96: the noise diagonals from the configuration, then init(). */
    constructor(cfg: Config)
      ensures Valid() && config == cfg && fresh(x) && fresh(P)
      ensures processNoise == [cfg.qAttitude, cfg.qAttitude, cfg.qAlpha, cfg.qBias, cfg.qBias, cfg.qBias]
      ensures measurementNoise == [cfg.rAccel, cfg.rAccel, cfg.rAccel, cfg.rAlpha]
      ensures initialized && x[..] == [0.0, 0.0, 0.0, 0.0, 0.0, 0.0]
      ensures Snapshot(P) == Diag(InitialVariances(cfg))
    {
      config := cfg;
      processNoise := ProcessNoise(cfg);
      measurementNoise := MeasurementNoise(cfg);
      x := new real[N_STATES];
      P := new real[N_STATES, N_STATES];
      new;
      Init(0.0, 0.0);
    }

    /** EKF6.cpp lines 102-121: the given attitude, zero alpha and biases, diagonal covariance. */
    method Init(phi0: real, theta0: real)
      requires Valid()
      modifies this, x, P
      ensures Valid() && initialized
      ensures x[..] == [phi0, theta0, 0.0, 0.0, 0.0, 0.0]
      ensures Snapshot(P) == Diag(InitialVariances(config))
    {
      x[0] := phi0;
      x[1] := theta0;
      x[2] := 0.0;
      x[3] := 0.0;
      x[4] := 0.0;
      x[5] := 0.0;
      ZeroMatrix(P);
      SetDiagonal(P, config.pAttitude, config.pAlpha, config.pBias);
      initialized := true;
    }

    /** EKF6.cpp lines 139-141. */
    method GetState() returns (s: State)
      requires Valid()
      ensures [s.phi, s.theta, s.alpha, s.bp, s.bq, s.br] == x[..]
    {
      s := State(x[0], x[1], x[2], x[3], x[4], x[5]);
    }

    /** EKF6.cpp lines 143-150: forget what is known about alpha. */
    method ResetAlphaCovariance()
      requires Valid()
      modifies P
      ensures !initialized ==> unchanged(P)
      ensures initialized ==> forall i, j :: 0 <= i < N_STATES && 0 <= j < N_STATES ==>
        P[i, j] == if i == 2 && j == 2 then config.pAlpha else if i == 2 || j == 2 then 0.0 else old(P[i, j])
      ensures initialized ==> Snapshot(P) == ResetAlpha(old(Snapshot(P)), config.pAlpha)
    {
      if !initialized {
        return;
      }
      for i := 0 to N_STATES
        invariant forall r, k :: 0 <= r < N_STATES && 0 <= k < N_STATES ==>
          P[r, k] == if (r == 2 && k < i) || (k == 2 && r < i) then 0.0 else old(P[r, k])
      {
        P[2, i] := 0.0;
        P[i, 2] := 0.0;
      }
      P[2, 2] := config.pAlpha;
      MatEq(Snapshot(P), ResetAlpha(old(Snapshot(P)), config.pAlpha), N_STATES, N_STATES);
    }

    /**
     * EKF6.cpp lines 156-301: one Euler step of phi and theta, and P <- F P F' + Q
     * computed with the sparsity of F.
     */
    method Predict(p: real, q: real, r: real, dt: real, sin: real -> real, cos: real -> real)
      requires Valid()
      modifies x, P
      ensures x[..] == PredictState(old(x[..]), p, q, r, dt, sin, cos)
      ensures Snapshot(P) == PredictCov(old(Snapshot(P)), PredictKinematics(old(x[..]), p, q, r, dt, sin, cos).jac, processNoise)
    {
      ghost var x0 := x[..];
      var k := PredictKinematics(x[..], p, q, r, dt, sin, cos);
      var phi := x[0];
      var theta := x[1];
      x[0] := EulerStep(phi, dt, k.phiDot);
      x[1] := EulerStep(theta, dt, k.thetaDot);
      assert x[..] == [EulerStep(x0[0], dt, k.phiDot), EulerStep(x0[1], dt, k.thetaDot)] + x0[2..];
      var fp := ComputeFP(P, k.jac);
      var pNew := ComputePredictCov(fp, k.jac, processNoise);
      CopyMatrix(pNew, P);
    }

    /**
     * EKF6.cpp lines 307-519: the accelerometer / alpha measurement update. When S
     * cannot be inverted nothing changes; otherwise, with S^-1 the inverse
     * the elimination produced, x <- x + K y and P <- the Joseph form, where
     * K = P H' S^-1.
     */
    method Correct(ax: real, ay: real, az: real, gamma: real, g: real, sin: real -> real, cos: real -> real)
      returns (ghost applied: bool, ghost sInv: Mat)
      requires Valid()
      modifies x, P
      ensures !applied ==> unchanged(x) && unchanged(P)
      ensures applied <==> GaussJordan(InnovationCov(old(Snapshot(P)), Linearise(old(x[..]), g, sin, cos).H, measurementNoise)).Some?
      ensures applied ==>
        sInv == RightHalf(GaussJordan(InnovationCov(old(Snapshot(P)), Linearise(old(x[..]), g, sin, cos).H, measurementNoise)).value)
      ensures applied ==> IsMat(sInv, N_MEAS, N_MEAS)
      ensures applied ==>
        Mul(InnovationCov(old(Snapshot(P)), Linearise(old(x[..]), g, sin, cos).H, measurementNoise), sInv) == Identity(N_MEAS)
      ensures applied ==>
        x[..] == CorrectedState(old(x[..]), Gain(old(Snapshot(P)), Linearise(old(x[..]), g, sin, cos).H, sInv),
                                Innovation(old(x[..]), ax, ay, az, gamma, Linearise(old(x[..]), g, sin, cos).zPred))
      ensures applied ==>
        Snapshot(P) == CorrectedCov(old(Snapshot(P)), Gain(old(Snapshot(P)), Linearise(old(x[..]), g, sin, cos).H, sInv),
                                    Linearise(old(x[..]), g, sin, cos).H, measurementNoise)
      ensures (forall i :: 0 <= i < N_MEAS ==>
                 Abs(InnovationCov(old(Snapshot(P)), Linearise(old(x[..]), g, sin, cos).H, measurementNoise)[i][0]) < PIVOT_EPSILON)
              ==> !applied
    {
      var lin := Linearise(x[..], g, sin, cos);
      var y := ComputeInnovation(x[..], ax, ay, az, gamma, lin.zPred);
      var ok, sInvArr := InvertInnovationCov(P, lin.H, measurementNoise);
      applied := ok;
      sInv := Snapshot(sInvArr);
      if !ok {
        return;
      }
      ApplyGain(x, P, sInvArr, lin.H, y, measurementNoise);
    }

    /**
     * EKF6.cpp lines 127-137: initialise on first use, predict with the gyro rates,
     * then correct with the accelerometer and the flight-path angle at
     * standard gravity. xPred and mPred are the state and covariance after
     * the prediction step.
     */
    method Update(meas: Measurements, dt: real, sin: real -> real, cos: real -> real)
      returns (ghost xPred: seq<real>, ghost mPred: Mat, ghost applied: bool, ghost sInv: Mat)
      requires Valid()
      modifies this, x, P
      ensures Valid() && initialized
      ensures var x0 := if old(initialized) then old(x[..]) else [0.0, 0.0, 0.0, 0.0, 0.0, 0.0];
        var m0 := if old(initialized) then old(Snapshot(P)) else Diag(InitialVariances(config));
        xPred == PredictState(x0, meas.p, meas.q, meas.r, dt, sin, cos)
        && mPred == PredictCov(m0, PredictKinematics(x0, meas.p, meas.q, meas.r, dt, sin, cos).jac, processNoise)
      ensures !applied ==> x[..] == xPred && Snapshot(P) == mPred
      ensures applied <==> GaussJordan(InnovationCov(mPred, Linearise(xPred, GRAVITY, sin, cos).H, measurementNoise)).Some?
      ensures applied ==>
        sInv == RightHalf(GaussJordan(InnovationCov(mPred, Linearise(xPred, GRAVITY, sin, cos).H, measurementNoise)).value)
      ensures applied ==> IsMat(sInv, N_MEAS, N_MEAS)
      ensures applied ==>
        Mul(InnovationCov(mPred, Linearise(xPred, GRAVITY, sin, cos).H, measurementNoise), sInv) == Identity(N_MEAS)
      ensures applied ==>
        x[..] == CorrectedState(xPred, Gain(mPred, Linearise(xPred, GRAVITY, sin, cos).H, sInv),
                                Innovation(xPred, meas.ax, meas.ay, meas.az, meas.gamma, Linearise(xPred, GRAVITY, sin, cos).zPred))
      ensures applied ==>
        Snapshot(P) == CorrectedCov(mPred, Gain(mPred, Linearise(xPred, GRAVITY, sin, cos).H, sInv),
                                    Linearise(xPred, GRAVITY, sin, cos).H, measurementNoise)
    {
      if !initialized {
        Init(0.0, 0.0);
      }
      Predict(meas.p, meas.q, meas.r, dt, sin, cos);
      xPred := x[..];
      mPred := Snapshot(P);
      applied, sInv := Correct(meas.ax, meas.ay, meas.az, meas.gamma, GRAVITY, sin, cos);
    }
  }
}
