/**
 * The shared-library copy of the Savitzky-Golay derivative filter (the one
 * the Gen3 sensor task uses for the IAS deceleration rate): coefficient and
 * normalisation tables per window size, and a fill phase of (w+1)/2 samples.
 */
module SavGolLib {
  import opened SavGolSpec

  /** The constructor's switch: a supported size is kept, anything else becomes 15. */
  function SelectWindow(requested: int): (w: int)
    ensures ValidWindow(w)
    ensures ValidWindow(requested) <==> w == requested
    ensures !ValidWindow(requested) ==> w == 15
  {
    match requested
    case 5 => 5
    case 7 => 7
    case 9 => 9
    case 11 => 11
    case 13 => 13
    case 15 => 15
    case 17 => 17
    case 19 => 19
    case 21 => 21
    case 23 => 23
    case 25 => 25
    case _ => 15
  }

  /** The normalisation table of the constructor's switch. */
  function NormTable(w: int): real
    requires ValidWindow(w)
  {
    match w
    case 5 => 10.0
    case 7 => 28.0
    case 9 => 60.0
    case 11 => 110.0
    case 13 => 182.0
    case 15 => 280.0
    case 17 => 408.0
    case 19 => 570.0
    case 21 => 770.0
    case 23 => 1012.0
    case _ => 1300.0
  }

  /** Every table entry is twice the sum of the squares of 1..w/2, the value that makes ramps exact. */
  lemma NormTableIsTwiceSumSquares(w: int)
    requires ValidWindow(w)
    ensures NormTable(w) == 2.0 * SumSquares(w / 2)
  {
    SumSquaresClosedForm(w / 2);
  }

  /** Coefficients 0, 1, ..., w/2 of the per-window tables. */
  function CoeffTable(w: int): (c: seq<int>)
    requires ValidWindow(w)
  {
    seq(w / 2 + 1, i => i)
  }

  /** Samples collected before the first estimate. */
  function FillLength(w: int): int {
    (w + 1) / 2
  }

  class SavGolDerivative {
    var windowSize: int
    var fillCount: int
    var coeffs: seq<int>
    var norm: real
    const buffer: array<real>

    ghost predicate Valid()
      reads this, buffer
    {
      buffer.Length == MAX_WINDOW && ValidWindow(windowSize)
      && coeffs == CoeffTable(windowSize)
      && norm == NormTable(windowSize)
      && 0 <= fillCount <= FillLength(windowSize)
    }

    /** Filter state seen by the specification. */
    ghost function State(): FilterState
      reads this, buffer
    {
      FilterState(buffer[..], fillCount)
    }

    constructor (requestedWindow: int)
      ensures Valid() && fresh(buffer)
      ensures windowSize == SelectWindow(requestedWindow)
      ensures State() == ResetState()
    {
      buffer := new real[MAX_WINDOW](_ => 0.0);
      fillCount := 0;
      var w := SelectWindow(requestedWindow);
      windowSize := w;
      coeffs := CoeffTable(w);
      norm := NormTable(w);
      new;
      assert buffer[..] == ResetState().buf;
    }

    /** One new sample in, one derivative estimate (per sample) out. */
    method Compute(newValue: real) returns (result: real)
      requires Valid()
      modifies this, buffer
      ensures Valid()
      ensures windowSize == old(windowSize) && coeffs == old(coeffs) && norm == old(norm)
      ensures (State(), result) == Step(old(State()), windowSize, FillLength(windowSize), norm, newValue)
    {
      HalfWindow(windowSize);
      var halfWindow := (windowSize + 1) / 2;
      if fillCount < halfWindow {
        buffer[fillCount] := newValue;
        fillCount := fillCount + 1;
        return 0.0;
      }

      var sum := WeightedSum();
      result := sum / norm;
      ShiftLeft(newValue);
    }

    /** sum_{i=1..half} coeffs[i] * (buffer[half+i] - buffer[half-i]) */
    method WeightedSum() returns (sum: real)
      requires buffer.Length == MAX_WINDOW && ValidWindow(windowSize)
      requires coeffs == CoeffTable(windowSize)
      ensures sum == DerivSum(buffer[..], windowSize / 2, windowSize / 2)
    {
      HalfWindow(windowSize);
      ghost var samples := buffer[..];
      sum := 0.0;
      var half := windowSize / 2;
      for i := 1 to half + 1
        invariant sum == DerivSum(samples, half, i - 1)
      {
        var c := coeffs[i];
        assert c == i;
        var d := buffer[half + i] - buffer[half - i];
        assert d == samples[half + i] - samples[half - i];
        DerivSumStep(samples, half, i, c, sum);
        sum := sum + (c as real) * d;
      }
    }

    /** Slide the window left by one slot and put the new sample in its last slot. */
    method ShiftLeft(newValue: real)
      requires buffer.Length == MAX_WINDOW && ValidWindow(windowSize)
      modifies buffer
      ensures buffer[..] == ShiftIn(old(buffer[..]), windowSize, newValue)
    {
      for i := 0 to windowSize - 1
        invariant buffer[..i] == old(buffer[1..i + 1])
        invariant buffer[i..] == old(buffer[i..])
      {
        buffer[i] := buffer[i + 1];
      }
      buffer[windowSize - 1] := newValue;
      assert buffer[..windowSize - 1] == old(buffer[1..windowSize]);
      assert buffer[windowSize..] == old(buffer[windowSize..]);
      assert buffer[..] == buffer[..windowSize - 1] + [newValue] + buffer[windowSize..];
    }

    /** Back to the freshly constructed state, window size kept. */
    method Reset()
      requires Valid()
      modifies this, buffer
      ensures Valid()
      ensures windowSize == old(windowSize) && coeffs == old(coeffs) && norm == old(norm)
      ensures State() == ResetState()
    {
      fillCount := 0;
      for i := 0 to MAX_WINDOW
        modifies buffer
        invariant forall k :: 0 <= k < i ==> buffer[k] == 0.0
      {
        buffer[i] := 0.0;
      }
      assert buffer[..] == ResetState().buf;
    }
  }

  /**
   * After its short fill phase the library copy estimates over a window that
   * still holds zero padding: a constant input of 50 with window 5 reads as a
   * slope of -15 on the fourth call, where the exact derivative is 0.
   */
  lemma ConstantInputStartupTransient()
    ensures Run(ResetState(), 5, FillLength(5), NormTable(5), [50.0, 50.0, 50.0, 50.0])
      == [0.0, 0.0, 0.0, -15.0]
  {
    var s0 := ResetState();
    var r1 := Step(s0, 5, 3, 10.0, 50.0);
    var r2 := Step(r1.0, 5, 3, 10.0, 50.0);
    var r3 := Step(r2.0, 5, 3, 10.0, 50.0);
    var r4 := Step(r3.0, 5, 3, 10.0, 50.0);
    assert r3.0.fill == 3;
    assert r3.0.buf[..5] == [50.0, 50.0, 50.0, 0.0, 0.0];
    assert DerivSum(r3.0.buf, 2, 1) == -50.0;
    assert DerivSum(r3.0.buf, 2, 2) == -150.0;
    assert r4.1 == -15.0;
    assert Run(ResetState(), 5, 3, 10.0, [50.0, 50.0, 50.0, 50.0])
      == [r1.1, r2.1, r3.1, r4.1];
  }

  /**
   * Fed a straight line from reset, the library copy outputs 0 for its
   * (w+1)/2 fill calls and the exact slope from call (w+1)/2 + w + 1 on,
   * once the zero padding has left the window.
   */
  lemma ExactOnRampsAfterTransient(w: int, xs: seq<real>, a: real, s: real)
    requires ValidWindow(w) && IsRamp(xs, a, s)
    ensures forall n :: 0 <= n < |xs| && n < FillLength(w) ==>
      Run(ResetState(), w, FillLength(w), NormTable(w), xs)[n] == 0.0
    ensures forall n :: FillLength(w) + w <= n < |xs| ==>
      Run(ResetState(), w, FillLength(w), NormTable(w), xs)[n] == s
  {
    NormTableIsTwiceSumSquares(w);
    SumSquaresPositive(w / 2);
    TransientFromEmpty(ResetState(), w, NormTable(w), xs, a, s);
  }

  lemma TransientFromEmpty(st: FilterState, w: int, norm: real, xs: seq<real>, a: real, s: real)
    requires ValidWindow(w) && norm == 2.0 * SumSquares(w / 2) && norm != 0.0
    requires StepReady(st, w, FillLength(w), norm) && st.fill == 0 && IsRamp(xs, a, s)
    ensures forall n :: 0 <= n < |xs| && n < FillLength(w) ==> Run(st, w, FillLength(w), norm, xs)[n] == 0.0
    ensures forall n :: FillLength(w) + w <= n < |xs| ==> Run(st, w, FillLength(w), norm, xs)[n] == s
  {
    var fillLen := FillLength(w);
    if |xs| <= fillLen {
      FillPhase(st, w, fillLen, norm, xs);
    } else {
      var pre, post := xs[..fillLen], xs[fillLen..];
      assert xs == pre + post;
      RunAppend(st, w, fillLen, norm, pre, post);
      FillPhase(st, w, fillLen, norm, pre);
      RampSlice(xs, a, s, fillLen, |xs|);
      assert post == xs[fillLen..|xs|];
      var filled := Feed(st, w, fillLen, norm, pre);
      assert fillLen <= filled.fill && StepReady(filled, w, fillLen, norm);
      SlopeAfterFill(filled, w, fillLen, norm, post, a + s * (fillLen as real), s);
      var head, tail := Run(st, w, fillLen, norm, pre), Run(filled, w, fillLen, norm, post);
      assert Run(st, w, fillLen, norm, xs) == head + tail;
      forall n | 0 <= n < |xs|
        ensures n < fillLen ==> (head + tail)[n] == 0.0
        ensures fillLen + w <= n ==> (head + tail)[n] == s
      {
        if n < fillLen {
          assert (head + tail)[n] == head[n];
        } else {
          assert (head + tail)[n] == tail[n - fillLen];
        }
      }
    }
  }

  /** From the end of the fill phase, w calls flush the window; the slope comes out after that. */
  lemma SlopeAfterFill(filled: FilterState, w: int, fillLen: int, norm: real, post: seq<real>, a: real, s: real)
    requires StepReady(filled, w, fillLen, norm) && norm == 2.0 * SumSquares(w / 2)
    requires fillLen <= filled.fill && IsRamp(post, a, s)
    ensures forall m :: w <= m < |post| ==> Run(filled, w, fillLen, norm, post)[m] == s
  {
    SlidingIgnoresFillLength(filled, w, fillLen, norm, post);
    var sliding := filled.(fill := w);
    var window := sliding.buf[..w];
    assert window + [] == window && window[|window| - w..] == window;
    assert [] + post == post;
    SlidingTracksRamp(sliding, w, norm, window, [], post, a, s);
  }

  /** A constant 50 reads 0 on the 11th call, and a ramp of step 10 reads +10 on the 20th (window 5). */
  lemma SettledOutputsWindowFive()
    ensures Run(ResetState(), 5, FillLength(5), NormTable(5), seq(11, _ => 50.0))[10] == 0.0
    ensures Run(ResetState(), 5, FillLength(5), NormTable(5), seq(20, i => 10.0 * (i as real)))[19] == 10.0
  {
    var flat := seq(11, _ => 50.0);
    assert IsRamp(flat, 50.0, 0.0);
    ExactOnRampsAfterTransient(5, flat, 50.0, 0.0);
    var ramp := seq(20, i => 10.0 * (i as real));
    assert IsRamp(ramp, 0.0, 10.0);
    ExactOnRampsAfterTransient(5, ramp, 0.0, 10.0);
  }
}
