/**
 * The Savitzky-Golay first-derivative estimate shared by both copies of the
 * filter: with the window centred on index h, the weighted difference
 * sum_{i=1..h} i * (buf[h+i] - buf[h-i]), divided by a normalisation that is
 * twice the sum of the squares 1..h.
 */
module SavGolSpec {

  const MAX_WINDOW: int := 25

  /** The window sizes the filter supports: odd, 5 to 25. */
  predicate ValidWindow(w: int) {
    5 <= w <= MAX_WINDOW && w % 2 == 1
  }

  /** sum_{i=1..k} i * (buf[h+i] - buf[h-i]) */
  function DerivSum(buf: seq<real>, h: nat, k: nat): real
    requires k <= h && 2 * h < |buf|
  {
    if k == 0 then 0.0
    else DerivSum(buf, h, k - 1) + (k as real) * (buf[h + k] - buf[h - k])
  }

  /** sum_{i=1..k} i^2 */
  function SumSquares(k: nat): real {
    if k == 0 then 0.0 else SumSquares(k - 1) + (k as real) * (k as real)
  }

  /** Shift the first w slots left by one and put v in slot w-1; slots from w on are untouched. */
  function ShiftIn(buf: seq<real>, w: nat, v: real): (r: seq<real>)
    requires 1 <= w <= |buf|
  {
    buf[1..w] + [v] + buf[w..]
  }

  lemma ShiftInContents(buf: seq<real>, w: nat, v: real)
    requires 1 <= w <= |buf|
    ensures |ShiftIn(buf, w, v)| == |buf|
    ensures forall i :: 0 <= i < w - 1 ==> ShiftIn(buf, w, v)[i] == buf[i + 1]
    ensures ShiftIn(buf, w, v)[w - 1] == v
    ensures ShiftIn(buf, w, v)[w..] == buf[w..]
  {
  }

  /** xs is a straight line a + s*k sampled at k = 0, 1, ... */
  predicate IsRamp(xs: seq<real>, a: real, s: real) {
    forall k :: 0 <= k < |xs| ==> xs[k] == a + s * (k as real)
  }

  lemma {:induction false} SumSquaresClosedForm(k: nat)
    ensures 6.0 * SumSquares(k) == (k * (k + 1) * (2 * k + 1)) as real
  {
    if k > 0 {
      SumSquaresClosedForm(k - 1);
      CubicStep(k);
    }
  }

  lemma CubicStep(k: int)
    ensures k * (k + 1) * (2 * k + 1) == (k - 1) * k * (2 * k - 1) + 6 * k * k
  {
    assert k * (k + 1) * (2 * k + 1) == 2 * k * k * k + 3 * k * k + k;
    assert (k - 1) * k * (2 * k - 1) == 2 * k * k * k - 3 * k * k + k;
  }

  /** On a ramp of slope s the weighted difference is 2 s sum_{i<=k} i^2. */
  lemma RampDerivSum(buf: seq<real>, h: nat, k: nat, a: real, s: real)
    requires k <= h && 2 * h < |buf|
    requires IsRamp(buf[..2 * h + 1], a, s)
    ensures DerivSum(buf, h, k) == 2.0 * s * SumSquares(k)
  {
    forall j | 0 < j <= k
      ensures Tap(buf, h, j) == 2.0 * s * (j as real)
    {
      RampTerm(buf, h, j, a, s);
    }
    LinearTapsDerivSum(buf, h, k, s);
  }

  /** buf[h+j] - buf[h-j], the difference tap j weighs. */
  function Tap(buf: seq<real>, h: nat, j: nat): real
    requires j <= h && 2 * h < |buf|
  {
    buf[h + j] - buf[h - j]
  }

  /** Every tap up to k grows linearly with its index, as it does on a ramp of slope s. */
  predicate LinearTaps(buf: seq<real>, h: nat, k: nat, s: real)
    requires k <= h && 2 * h < |buf|
  {
    forall j :: 0 < j <= k ==> Tap(buf, h, j) == 2.0 * s * (j as real)
  }

  lemma {:induction false} LinearTapsDerivSum(buf: seq<real>, h: nat, k: nat, s: real)
    requires k <= h && 2 * h < |buf| && LinearTaps(buf, h, k, s)
    ensures DerivSum(buf, h, k) == 2.0 * s * SumSquares(k)
  {
    if k > 0 {
      LinearTapsDerivSum(buf, h, k - 1, s);
      assert Tap(buf, h, k) == 2.0 * s * (k as real);
      SumStep(DerivSum(buf, h, k), DerivSum(buf, h, k - 1), buf[h + k] - buf[h - k], k as real,
              SumSquares(k), SumSquares(k - 1), s);
    }
  }

  /**
   * The induction step of RampDerivSum over plain reals: tap k adds
   * k * (2 s k) to the sum and k^2 to the sum of squares.
   */
  lemma SumStep(sum: real, prev: real, diff: real, kr: real, total: real, before: real, s: real)
    requires sum == prev + kr * diff && total == before + kr * kr
    requires prev == 2.0 * s * before && diff == 2.0 * s * kr
    ensures sum == 2.0 * s * total
  {
    assert kr * diff == 2.0 * s * (kr * kr);
    Distrib(2.0 * s, before, kr * kr);
  }

  /** Tap k of the weighted difference on a ramp: x(h+k) - x(h-k) = 2 s k. */
  lemma RampTerm(buf: seq<real>, h: nat, k: nat, a: real, s: real)
    requires 0 < k <= h && 2 * h < |buf|
    requires IsRamp(buf[..2 * h + 1], a, s)
    ensures buf[h + k] - buf[h - k] == 2.0 * s * (k as real)
  {
    var top := buf[..2 * h + 1];
    assert buf[h + k] == top[h + k] && buf[h - k] == top[h - k];
    RampTermAlgebra(buf[h + k], buf[h - k], a, s, h, k);
  }

  lemma RampTermAlgebra(x: real, y: real, a: real, s: real, h: nat, k: nat)
    requires k <= h && x == a + s * ((h + k) as real) && y == a + s * ((h - k) as real)
    ensures x - y == 2.0 * s * (k as real)
  {
    var kr, hr := k as real, h as real;
    assert x - y == s * (hr + kr) - s * (hr - kr);
    Distrib(s, hr, kr);
    Distrib(s, hr - kr, kr);
  }

  /** Adding tap k, weighted by a coefficient equal to k, extends the weighted sum by one tap. */
  lemma DerivSumStep(buf: seq<real>, h: nat, k: nat, c: int, acc: real)
    requires 0 < k <= h && 2 * h < |buf| && c == k
    requires acc == DerivSum(buf, h, k - 1)
    ensures acc + (c as real) * (buf[h + k] - buf[h - k]) == DerivSum(buf, h, k)
  {
  }

  lemma Distrib(c: real, x: real, y: real)
    ensures c * x + c * y == c * (x + y)
  {
  }

  /** A constant window has zero weighted difference. */
  lemma ConstantDerivSum(buf: seq<real>, h: nat, c: real)
    requires 2 * h < |buf|
    requires forall k :: 0 <= k <= 2 * h ==> buf[k] == c
    ensures DerivSum(buf, h, h) == 0.0
  {
    assert IsRamp(buf[..2 * h + 1], c, 0.0);
    RampDerivSum(buf, h, h, c, 0.0);
  }

  /**
   * The estimate is exact on straight lines: dividing the weighted
   * difference of a ramp by 2 sum i^2 gives its slope (window 2h+1).
   */
  lemma RampSlope(buf: seq<real>, h: nat, norm: real, a: real, s: real)
    requires 1 <= h && 2 * h < |buf|
    requires norm == 2.0 * SumSquares(h)
    requires IsRamp(buf[..2 * h + 1], a, s)
    ensures norm > 0.0
    ensures DerivSum(buf, h, h) / norm == s
  {
    RampDerivSum(buf, h, h, a, s);
    SlopeAlgebra(DerivSum(buf, h, h), s, h, norm);
  }

  /** The window size is 2h+1 with h = w/2. */
  lemma HalfWindow(w: int)
    requires ValidWindow(w)
    ensures w == 2 * (w / 2) + 1 && 2 <= w / 2 <= 12
  {
  }

  lemma SumSquaresPositive(k: nat)
    requires k >= 1
    ensures SumSquares(k) >= 1.0
  {
    assert k * k >= 1 * 1;
  }

  lemma SlopeAlgebra(d: real, s: real, h: nat, norm: real)
    requires h >= 1
    requires norm == 2.0 * SumSquares(h) && d == 2.0 * s * SumSquares(h)
    ensures norm > 0.0 && d / norm == s
  {
    SumSquaresPositive(h);
    var ss := SumSquares(h);
    assert d == s * norm;
    DivCancel(s, norm);
  }

  /** A window of a ramp is a ramp with the same slope. */
  lemma RampSlice(xs: seq<real>, a: real, s: real, lo: nat, hi: nat)
    requires IsRamp(xs, a, s) && lo <= hi <= |xs|
    ensures IsRamp(xs[lo..hi], a + s * (lo as real), s)
  {
    forall k | 0 <= k < hi - lo
      ensures xs[lo..hi][k] == a + s * (lo as real) + s * (k as real)
    {
      assert xs[lo..hi][k] == xs[lo + k];
      assert s * ((lo + k) as real) == s * (lo as real) + s * (k as real);
    }
  }

  lemma RampWindow(xs: seq<real>, win: seq<real>, a: real, s: real, lo: nat)
    requires IsRamp(xs, a, s) && lo + |win| <= |xs| && win == xs[lo..lo + |win|]
    ensures IsRamp(win, a + s * (lo as real), s)
  {
    RampSlice(xs, a, s, lo, lo + |win|);
  }

  lemma DivCancel(s: real, n: real)
    requires n != 0.0
    ensures (s * n) / n == s
  {
  }

  // ---------------------------------------------------------------------
  // The filter as a state machine. Both copies keep the same state and do
  // the same work per sample; they differ only in how many samples they
  // collect before the first estimate (fillLen) and in how the
  // normalisation is written down.

  datatype FilterState = FilterState(buf: seq<real>, fill: int)

  /** State right after construction or reset: nothing collected, all slots zero. */
  function ResetState(): FilterState {
    FilterState(seq(MAX_WINDOW, _ => 0.0), 0)
  }

  predicate StepReady(st: FilterState, w: int, fillLen: int, norm: real) {
    ValidWindow(w) && 0 <= fillLen <= w && norm != 0.0
    && |st.buf| == MAX_WINDOW && 0 <= st.fill
  }

  /**
   * One call of Compute with input v: while fewer than fillLen samples have
   * been collected the sample is stored and the output is 0; afterwards the
   * estimate is taken from the window and the window slides by one.
   */
  function Step(st: FilterState, w: int, fillLen: int, norm: real, v: real): (r: (FilterState, real))
    requires StepReady(st, w, fillLen, norm)
    ensures StepReady(r.0, w, fillLen, norm)
  {
    HalfWindow(w);
    if st.fill < fillLen then (FilterState(st.buf[st.fill := v], st.fill + 1), 0.0)
    else (FilterState(ShiftIn(st.buf, w, v), st.fill), DerivSum(st.buf, w / 2, w / 2) / norm)
  }

  /** The outputs of successive calls fed with xs. */
  function Run(st: FilterState, w: int, fillLen: int, norm: real, xs: seq<real>): (out: seq<real>)
    requires StepReady(st, w, fillLen, norm)
    ensures |out| == |xs|
    decreases |xs|
  {
    if xs == [] then []
    else
      var r := Step(st, w, fillLen, norm, xs[0]);
      [r.1] + Run(r.0, w, fillLen, norm, xs[1..])
  }

  /**
   * What a filter that fills its whole window holds after seeing hist:
   * the samples so far while filling, then the last w samples.
   */
  predicate HoldsHistory(st: FilterState, w: int, hist: seq<real>)
    requires ValidWindow(w) && |st.buf| == MAX_WINDOW
  {
    if |hist| < w then st.fill == |hist| && st.buf[..|hist|] == hist
    else st.fill == w && st.buf[..w] == hist[|hist| - w..]
  }

  /** One step of a full-window filter fed the next point of a ramp. */
  lemma StepTracksRamp(st: FilterState, w: int, norm: real, hist: seq<real>, v: real, a: real, s: real)
    requires StepReady(st, w, w, norm) && norm == 2.0 * SumSquares(w / 2)
    requires HoldsHistory(st, w, hist)
    requires IsRamp(hist + [v], a, s)
    ensures HoldsHistory(Step(st, w, w, norm, v).0, w, hist + [v])
    ensures Step(st, w, w, norm, v).1 == (if |hist| < w then 0.0 else s)
  {
    if |hist| < w {
      FillStep(st, w, norm, hist, v);
    } else {
      SlideStep(st, w, norm, hist, v, a, s);
    }
  }

  lemma FillStep(st: FilterState, w: int, norm: real, hist: seq<real>, v: real)
    requires StepReady(st, w, w, norm) && HoldsHistory(st, w, hist) && |hist| < w
    ensures HoldsHistory(Step(st, w, w, norm, v).0, w, hist + [v])
    ensures Step(st, w, w, norm, v).1 == 0.0
  {
    var r := Step(st, w, w, norm, v);
    var hist' := hist + [v];
    assert r.0.buf == st.buf[|hist| := v];
    assert r.0.buf[..|hist'|] == hist';
    assert |hist'| == w ==> hist'[|hist'| - w..] == hist';
  }

  lemma SlideStep(st: FilterState, w: int, norm: real, hist: seq<real>, v: real, a: real, s: real)
    requires StepReady(st, w, w, norm) && norm == 2.0 * SumSquares(w / 2)
    requires HoldsHistory(st, w, hist) && |hist| >= w
    requires IsRamp(hist + [v], a, s)
    ensures HoldsHistory(Step(st, w, w, norm, v).0, w, hist + [v])
    ensures Step(st, w, w, norm, v).1 == s
  {
    SlideWindow(st, w, norm, hist, v);
    SlideOutput(st, w, norm, hist, v, a, s);
  }

  /** Once full, the window slides to the last w samples. */
  lemma SlideWindow(st: FilterState, w: int, norm: real, hist: seq<real>, v: real)
    requires StepReady(st, w, w, norm)
    requires HoldsHistory(st, w, hist) && |hist| >= w
    ensures HoldsHistory(Step(st, w, w, norm, v).0, w, hist + [v])
  {
    HalfWindow(w);
    var hist' := hist + [v];
    var r := Step(st, w, w, norm, v);
    assert r.0.buf == ShiftIn(st.buf, w, v);
    assert r.0.buf[..w] == st.buf[1..w] + [v];
    assert hist'[|hist'| - w..] == hist[|hist| - w..][1..] + [v];
  }

  /** Once full, the estimate over a window of a ramp is its slope. */
  lemma SlideOutput(st: FilterState, w: int, norm: real, hist: seq<real>, v: real, a: real, s: real)
    requires StepReady(st, w, w, norm) && norm == 2.0 * SumSquares(w / 2)
    requires HoldsHistory(st, w, hist) && |hist| >= w
    requires IsRamp(hist + [v], a, s)
    ensures Step(st, w, w, norm, v).1 == s
  {
    HalfWindow(w);
    var h := w / 2;
    var hist' := hist + [v];
    assert Step(st, w, w, norm, v).1 == DerivSum(st.buf, h, h) / norm;
    var lo := |hist| - w;
    assert st.buf[..2 * h + 1] == hist'[lo..lo + w];
    RampWindow(hist', st.buf[..2 * h + 1], a, s, lo);
    RampSlope(st.buf, h, norm, a + s * (lo as real), s);
  }

  lemma {:induction false} FullWindowTracksRamp(st: FilterState, w: int, norm: real, hist: seq<real>,
                                                 xs: seq<real>, a: real, s: real)
    requires StepReady(st, w, w, norm) && norm == 2.0 * SumSquares(w / 2)
    requires HoldsHistory(st, w, hist)
    requires IsRamp(hist + xs, a, s)
    ensures forall n :: 0 <= n < |xs| ==> Run(st, w, w, norm, xs)[n] == (if |hist| + n < w then 0.0 else s)
    decreases |xs|
  {
    if xs != [] {
      var v := xs[0];
      var hist' := hist + [v];
      RampSlice(hist + xs, a, s, 0, |hist'|);
      assert (hist + xs)[0..|hist'|] == hist';
      assert a + s * (0 as real) == a;
      StepTracksRamp(st, w, norm, hist, v, a, s);
      var r := Step(st, w, w, norm, v);
      assert hist' + xs[1..] == hist + xs;
      FullWindowTracksRamp(r.0, w, norm, hist', xs[1..], a, s);
      forall n | 0 <= n < |xs|
        ensures Run(st, w, w, norm, xs)[n] == (if |hist| + n < w then 0.0 else s)
      {
        if n > 0 {
          assert Run(st, w, w, norm, xs)[n] == Run(r.0, w, w, norm, xs[1..])[n - 1];
        }
      }
    }
  }

  /**
   * A filter that collects a whole window before its first estimate, fed a
   * straight line from reset, outputs 0 for the first w samples and the
   * line's slope for every sample after.
   */
  lemma FullFillExactOnRamps(w: int, norm: real, xs: seq<real>, a: real, s: real)
    requires ValidWindow(w) && norm == 2.0 * SumSquares(w / 2)
    requires IsRamp(xs, a, s)
    ensures norm != 0.0
    ensures forall n :: 0 <= n < |xs| ==>
      Run(ResetState(), w, w, norm, xs)[n] == (if n < w then 0.0 else s)
  {
    HalfWindow(w);
    SumSquaresPositive(w / 2);
    assert [] + xs == xs;
    FullWindowTracksRamp(ResetState(), w, norm, [], xs, a, s);
  }

  // ---------------------------------------------------------------------
  // Runs split into a prefix and the rest, and windows that still hold
  // samples from before the ramp started.

  /** The state after successive calls fed with xs. */
  function Feed(st: FilterState, w: int, fillLen: int, norm: real, xs: seq<real>): (r: FilterState)
    requires StepReady(st, w, fillLen, norm)
    ensures StepReady(r, w, fillLen, norm)
    decreases |xs|
  {
    if xs == [] then st
    else Feed(Step(st, w, fillLen, norm, xs[0]).0, w, fillLen, norm, xs[1..])
  }

  /** Feeding xs then ys outputs what xs gives, then what ys gives from the state xs left. */
  lemma {:induction false} RunAppend(st: FilterState, w: int, fillLen: int, norm: real, xs: seq<real>, ys: seq<real>)
    requires StepReady(st, w, fillLen, norm)
    ensures Run(st, w, fillLen, norm, xs + ys)
      == Run(st, w, fillLen, norm, xs) + Run(Feed(st, w, fillLen, norm, xs), w, fillLen, norm, ys)
    decreases |xs|
  {
    if xs != [] {
      var r := Step(st, w, fillLen, norm, xs[0]);
      assert (xs + ys)[0] == xs[0] && (xs + ys)[1..] == xs[1..] + ys;
      RunAppend(r.0, w, fillLen, norm, xs[1..], ys);
    } else {
      assert xs + ys == ys;
    }
  }

  /** While filling, each call stores one sample and outputs 0. */
  lemma {:induction false} FillPhase(st: FilterState, w: int, fillLen: int, norm: real, xs: seq<real>)
    requires StepReady(st, w, fillLen, norm) && st.fill + |xs| <= fillLen
    ensures Feed(st, w, fillLen, norm, xs).fill == st.fill + |xs|
    ensures forall n :: 0 <= n < |xs| ==> Run(st, w, fillLen, norm, xs)[n] == 0.0
    decreases |xs|
  {
    if xs != [] {
      var r := Step(st, w, fillLen, norm, xs[0]);
      FillPhase(r.0, w, fillLen, norm, xs[1..]);
      forall n | 0 < n < |xs|
        ensures Run(st, w, fillLen, norm, xs)[n] == 0.0
      {
        assert Run(st, w, fillLen, norm, xs)[n] == Run(r.0, w, fillLen, norm, xs[1..])[n - 1];
      }
    }
  }

  /** Once past its fill phase a filter slides on every call, whatever fill length it was built with. */
  lemma {:induction false} SlidingIgnoresFillLength(st: FilterState, w: int, fillLen: int, norm: real, xs: seq<real>)
    requires StepReady(st, w, fillLen, norm) && fillLen <= st.fill
    ensures StepReady(st.(fill := w), w, w, norm)
    ensures Run(st, w, fillLen, norm, xs) == Run(st.(fill := w), w, w, norm, xs)
    decreases |xs|
  {
    if xs != [] {
      var r := Step(st, w, fillLen, norm, xs[0]);
      var r' := Step(st.(fill := w), w, w, norm, xs[0]);
      assert r'.0 == r.0.(fill := w) && r'.1 == r.1;
      SlidingIgnoresFillLength(r.0, w, fillLen, norm, xs[1..]);
    }
  }

  /**
   * A sliding filter whose window holds earlier samples followed by the start r
   * of a ramp outputs the ramp's slope from the call at which the window
   * has only ramp samples in it.
   */
  lemma {:induction false} SlidingTracksRamp(st: FilterState, w: int, norm: real, earlier: seq<real>, r: seq<real>,
                                             xs: seq<real>, a: real, s: real)
    requires StepReady(st, w, w, norm) && norm == 2.0 * SumSquares(w / 2)
    requires |earlier + r| >= w && HoldsHistory(st, w, earlier + r)
    requires IsRamp(r + xs, a, s)
    ensures forall n :: 0 <= n < |xs| && w <= |r| + n ==> Run(st, w, w, norm, xs)[n] == s
    decreases |xs|
  {
    if |r| >= w {
      assert (earlier + r)[|earlier + r| - w..] == r[|r| - w..];
      FullWindowTracksRamp(st, w, norm, r, xs, a, s);
    } else if xs != [] {
      var v := xs[0];
      SlideWindow(st, w, norm, earlier + r, v);
      var next := Step(st, w, w, norm, v);
      assert (earlier + r) + [v] == earlier + (r + [v]);
      assert (r + [v]) + xs[1..] == r + xs;
      SlidingTracksRamp(next.0, w, norm, earlier, r + [v], xs[1..], a, s);
      forall n | 0 < n < |xs| && w <= |r| + n
        ensures Run(st, w, w, norm, xs)[n] == s
      {
        assert Run(st, w, w, norm, xs)[n] == Run(next.0, w, w, norm, xs[1..])[n - 1];
      }
    }
  }
}
