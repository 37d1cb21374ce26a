/**
 * Arithmetic shared by the firmware model: the C conversions and integer
 * widths the firmware relies on, written out explicitly because Dafny's
 * integers are unbounded and its reals are exact.
 */
module Wrappers {
  datatype Option<T> = None | Some(value: T)
}

module Numeric {

  const U16_MOD: int := 0x1_0000
  const U32_MOD: int := 0x1_0000_0000

  type u8 = x: int | 0 <= x < 0x100
  type u16 = x: int | 0 <= x < 0x1_0000
  type i16 = x: int | -0x8000 <= x < 0x8000
  type u32 = x: int | 0 <= x < 0x1_0000_0000
  type i32 = x: int | -0x8000_0000 <= x < 0x8000_0000

  /** Unsigned 32-bit wrap-around of an integer result (uint32_t arithmetic). */
  function U32(x: int): (r: u32)
    ensures (r - x) % U32_MOD == 0
    ensures 0 <= x < U32_MOD ==> r == x
  {
    x % U32_MOD
  }

  /** A value congruent to a 32-bit word wraps to that word. */
  lemma U32Congruent(x: int, y: u32)
    requires (x - y) % U32_MOD == 0
    ensures U32(x) == y
  {
    var k := (x - y) / U32_MOD;
    assert x == y + U32_MOD * k;
  }

  /** Wrapping an intermediate sum does not change the wrapped total. */
  lemma U32Add(a: int, b: int)
    ensures U32(U32(a) + b) == U32(a + b)
  {
    var k := a / U32_MOD;
    assert a == U32(a) + U32_MOD * k;
    U32Congruent(a + b, U32(U32(a) + b));
  }

  lemma MulAtLeast(d: int, k: int)
    requires 0 < d && 1 <= k
    ensures d * k >= d
  {
  }

  /** Quotient and remainder are the only ones: n = d*q + r with 0 <= r < d fixes both. */
  lemma DivModUnique(n: int, d: int, q: int, r: int)
    requires 0 < d && n == d * q + r && 0 <= r < d
    ensures n / d == q && n % d == r
  {
    var q', r' := n / d, n % d;
    assert n == d * q' + r';
    assert d * (q' - q) == r - r' by {
      assert d * q' - d * q == d * (q' - q);
    }
    if q' > q {
      MulAtLeast(d, q' - q);
    } else if q' < q {
      MulAtLeast(d, q - q');
    }
  }

  /** Two's-complement reinterpretation of the low 32 bits ((int32_t) cast). */
  function I32(x: int): (r: i32)
    ensures (r - x) % U32_MOD == 0
    ensures -0x8000_0000 <= x < 0x8000_0000 ==> r == x
  {
    var u := x % U32_MOD;
    if u >= 0x8000_0000 then u - U32_MOD else u
  }

  /** Two's-complement reinterpretation of the low 16 bits ((int16_t) cast). */
  function I16(x: int): (r: i16)
    ensures (r - x) % U16_MOD == 0
    ensures -0x8000 <= x < 0x8000 ==> r == x
  {
    var u := x % U16_MOD;
    if u >= 0x8000 then u - U16_MOD else u
  }

  /** C's float-to-integer conversion: truncation toward zero. */
  function Trunc(r: real): int
  {
    if r >= 0.0 then r.Floor else -((-r).Floor)
  }

  /** Truncation moves a value toward zero by less than one. */
  lemma TruncBounds(r: real)
    ensures r >= 0.0 ==> 0.0 <= Trunc(r) as real <= r < Trunc(r) as real + 1.0
    ensures r < 0.0 ==> Trunc(r) as real - 1.0 < r <= Trunc(r) as real <= 0.0
  {
  }

  /** Truncation keeps a value between integer bounds on either side of zero. */
  lemma TruncWithin(r: real, lo: int, hi: int)
    requires lo <= 0 <= hi && lo as real <= r <= hi as real
    ensures lo <= Trunc(r) <= hi
  {
    TruncBounds(r);
    if r < 0.0 {
      assert r <= Trunc(r) as real;
    } else {
      assert Trunc(r) as real <= r;
    }
  }

  function Abs(r: real): (a: real)
    ensures a >= 0.0 && (a == r || a == -r)
  {
    if r < 0.0 then -r else r
  }

  function Min(a: int, b: int): (m: int)
    ensures m <= a && m <= b && (m == a || m == b)
  {
    if a < b then a else b
  }

  /** constrain(x, lo, hi) from the Arduino core. */
  function Clamp(x: real, lo: real, hi: real): (c: real)
    requires lo <= hi
    ensures lo <= c <= hi
    ensures lo <= x <= hi ==> c == x
  {
    if x < lo then lo else if x > hi then hi else x
  }

  /** The same constrain on integers. */
  function ClampInt(x: int, lo: int, hi: int): (c: int)
    requires lo <= hi
    ensures lo <= c <= hi
    ensures lo <= x <= hi ==> c == x
    ensures x < lo ==> c == lo
    ensures x > hi ==> c == hi
  {
    if x < lo then lo else if x > hi then hi else x
  }

  /**
   * mapfloat: the linear map taking inMin to outMin and inMax to outMax.
   * The firmware's helper divides by (inMax - inMin). An empty input range
   * gives an infinite or NaN float, and the callers that cast it to int then
   * have undefined behaviour; the model requires a non-empty range and so do
   * the callers that cannot rule the empty range out (the volume mapping).
   */
  function MapFloat(x: real, inMin: real, inMax: real, outMin: real, outMax: real): (y: real)
    requires inMin != inMax
  {
    (x - inMin) * (outMax - outMin) / (inMax - inMin) + outMin
  }

  lemma MapFloatEndpoints(inMin: real, inMax: real, outMin: real, outMax: real)
    requires inMin != inMax
    ensures MapFloat(inMin, inMin, inMax, outMin, outMax) == outMin
    ensures MapFloat(inMax, inMin, inMax, outMin, outMax) == outMax
    ensures MapFloat((inMin + inMax) / 2.0, inMin, inMax, outMin, outMax) == (outMin + outMax) / 2.0
  {
    var d, o := inMax - inMin, outMax - outMin;
    var mid := (inMin + inMax) / 2.0;
    assert MapFloat(inMin, inMin, inMax, outMin, outMax) == 0.0 * o / d + outMin;
    assert MapFloat(inMax, inMin, inMax, outMin, outMax) == d * o / d + outMin;
    assert MapFloat(mid, inMin, inMax, outMin, outMax) == (d / 2.0) * o / d + outMin;
    MulDivCancel(o, d);
    MulDivCancel(o / 2.0, d);
    assert (d / 2.0) * o == (o / 2.0) * d;
  }

  lemma MulDivCancel(a: real, d: real)
    requires d != 0.0
    ensures d * a / d == a && a * d / d == a
  {
  }

  /** On a rising input range the map stays inside the output range, strictly below outMax before inMax. */
  lemma MapFloatRange(x: real, inMin: real, inMax: real, outMin: real, outMax: real)
    requires inMin < inMax && outMin < outMax
    requires inMin <= x <= inMax
    ensures outMin <= MapFloat(x, inMin, inMax, outMin, outMax) <= outMax
    ensures x < inMax ==> MapFloat(x, inMin, inMax, outMin, outMax) < outMax
    ensures inMin < x ==> outMin < MapFloat(x, inMin, inMax, outMin, outMax)
  {
    var t := (x - inMin) / (inMax - inMin);
    DivUnit(x - inMin, inMax - inMin);
    assert MapFloat(x, inMin, inMax, outMin, outMax) == t * (outMax - outMin) + outMin;
    ScaleUnit(t, outMax - outMin);
  }

  lemma DivUnit(a: real, d: real)
    requires d > 0.0 && 0.0 <= a <= d
    ensures 0.0 <= a / d <= 1.0
    ensures a < d ==> a / d < 1.0
    ensures 0.0 < a ==> 0.0 < a / d
  {
    var q := a / d;
    assert q * d == a;
    MulSign(q, d);
    MulSign(1.0 - q, d);
    assert (1.0 - q) * d == d - a;
  }

  lemma ScaleUnit(t: real, w: real)
    requires 0.0 <= t <= 1.0 && w > 0.0
    ensures 0.0 <= t * w <= w
    ensures t < 1.0 ==> t * w < w
    ensures 0.0 < t ==> 0.0 < t * w
  {
    MulSign(t, w);
    MulSign(1.0 - t, w);
    assert w - t * w == (1.0 - t) * w;
  }

  /** The sign of a product with a positive factor. */
  lemma MulSign(q: real, d: real)
    requires d > 0.0
    ensures q < 0.0 ==> q * d < 0.0
    ensures q > 0.0 ==> q * d > 0.0
    ensures q == 0.0 ==> q * d == 0.0
  {
  }
}
