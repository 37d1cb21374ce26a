/**
 * The M5 display's copy of the Savitzky-Golay derivative filter: window
 * validated by range and parity, normalisation computed in closed form, and
 * a fill phase that collects a whole window before the first estimate.
 */
module SavGolM5 {
  import opened SavGolSpec
  import SavGolLib

  /** Sizes below 5, above 25 or even fall back to 15. */
  function SelectWindow(requested: int): (w: int)
    ensures ValidWindow(w)
  {
    if requested < 5 || requested > 25 || requested % 2 == 0 then 15 else requested
  }

  /** h(h+1)(2h+1)/3 with h = w/2. */
  function Norm(w: int): real
    requires ValidWindow(w)
  {
    var half := w / 2;
    (half * (half + 1) * (2 * half + 1)) as real / 3.0
  }

  lemma NormIsTwiceSumSquares(w: int)
    requires ValidWindow(w)
    ensures Norm(w) == 2.0 * SumSquares(w / 2)
  {
    var h := w / 2;
    SumSquaresClosedForm(h);
  }

  /** Both copies pick the same window for every requested size and normalise it by the same value. */
  lemma AgreesWithLibraryTables(requested: int)
    ensures SelectWindow(requested) == SavGolLib.SelectWindow(requested)
    ensures Norm(SelectWindow(requested)) == SavGolLib.NormTable(SelectWindow(requested))
  {
    var w := SelectWindow(requested);
    NormIsTwiceSumSquares(w);
    SavGolLib.NormTableIsTwiceSumSquares(w);
  }

  /** Samples collected before the first estimate: a whole window. */
  function FillLength(w: int): int {
    w
  }

  class SavGolDerivative {
    var windowSize: int
    var fillCount: int
    var norm: real
    const buffer: array<real>

    ghost predicate Valid()
      reads this, buffer
    {
      buffer.Length == MAX_WINDOW && ValidWindow(windowSize)
      && norm == Norm(windowSize)
      && 0 <= fillCount <= windowSize
    }

    ghost function State(): FilterState
      reads this, buffer
    {
      FilterState(buffer[..], fillCount)
    }

    constructor (requestedWindow: int)
      ensures Valid() && fresh(buffer)
      ensures windowSize == SelectWindow(requestedWindow)
      ensures State() == ResetState()
    {
      buffer := new real[MAX_WINDOW](_ => 0.0);
      fillCount := 0;
      var w := requestedWindow;
      if w < 5 || w > 25 || w % 2 == 0 {
        w := 15;
      }
      windowSize := w;
      var half := w / 2;
      norm := (half * (half + 1) * (2 * half + 1)) as real / 3.0;
      new;
      assert buffer[..] == ResetState().buf;
    }

    /** One new sample in, one derivative estimate (per sample) out. */
    method Compute(newValue: real) returns (result: real)
      requires Valid()
      modifies this, buffer
      ensures Valid()
      ensures windowSize == old(windowSize) && norm == old(norm)
      ensures (State(), result) == Step(old(State()), windowSize, FillLength(windowSize), norm, newValue)
    {
      HalfWindow(windowSize);
      NormIsTwiceSumSquares(windowSize);
      SumSquaresPositive(windowSize / 2);
      if fillCount < windowSize {
        buffer[fillCount] := newValue;
        fillCount := fillCount + 1;
        return 0.0;
      }
      var sum := WeightedSum();
      result := sum / norm;
      ShiftLeft(newValue);
    }

    /** sum_{i=1..half} i * (buffer[half+i] - buffer[half-i]) */
    method WeightedSum() returns (sum: real)
      requires buffer.Length == MAX_WINDOW && ValidWindow(windowSize)
      ensures sum == DerivSum(buffer[..], windowSize / 2, windowSize / 2)
    {
      HalfWindow(windowSize);
      ghost var samples := buffer[..];
      sum := 0.0;
      var half := windowSize / 2;
      for i := 1 to half + 1
        invariant sum == DerivSum(samples, half, i - 1)
      {
        var d := buffer[half + i] - buffer[half - i];
        assert d == samples[half + i] - samples[half - i];
        DerivSumStep(samples, half, i, i, sum);
        sum := sum + (i as real) * d;
      }
    }

    method ShiftLeft(newValue: real)
      requires buffer.Length == MAX_WINDOW && ValidWindow(windowSize)
      modifies buffer
      ensures buffer[..] == ShiftIn(old(buffer[..]), windowSize, newValue)
    {
      for i := 0 to windowSize - 1
        invariant buffer[..i] == old(buffer[1..i + 1])
        invariant buffer[i..] == old(buffer[i..])
      {
        buffer[i] := buffer[i + 1];
      }
      buffer[windowSize - 1] := newValue;
      assert buffer[..windowSize - 1] == old(buffer[1..windowSize]);
      assert buffer[windowSize..] == old(buffer[windowSize..]);
      assert buffer[..] == buffer[..windowSize - 1] + [newValue] + buffer[windowSize..];
    }

    method Reset()
      requires Valid()
      modifies this, buffer
      ensures Valid()
      ensures windowSize == old(windowSize) && norm == old(norm)
      ensures State() == ResetState()
    {
      fillCount := 0;
      for i := 0 to MAX_WINDOW
        modifies buffer
        invariant forall k :: 0 <= k < i ==> buffer[k] == 0.0
      {
        buffer[i] := 0.0;
      }
      assert buffer[..] == ResetState().buf;
    }
  }

  /**
   * Slope 1 in, 1 out: fed a straight line from reset, this copy outputs 0
   * while it fills its window and the exact slope on every call after.
   */
  lemma ExactOnRampsFromReset(w: int, xs: seq<real>, a: real, s: real)
    requires ValidWindow(w) && IsRamp(xs, a, s)
    ensures forall n :: 0 <= n < |xs| ==>
      Run(ResetState(), w, FillLength(w), Norm(w), xs)[n] == (if n < w then 0.0 else s)
  {
    NormIsTwiceSumSquares(w);
    FullFillExactOnRamps(w, Norm(w), xs, a, s);
  }

  /** The input that shows the library copy's transient gives 0 on every call here. */
  lemma ConstantInputHasNoTransient()
    ensures Run(ResetState(), 5, FillLength(5), Norm(5), [50.0, 50.0, 50.0, 50.0, 50.0, 50.0])
      == [0.0, 0.0, 0.0, 0.0, 0.0, 0.0]
  {
    var xs := [50.0, 50.0, 50.0, 50.0, 50.0, 50.0];
    assert IsRamp(xs, 50.0, 0.0);
    ExactOnRampsFromReset(5, xs, 50.0, 0.0);
  }
}
