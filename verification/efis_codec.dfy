/**
 * The byte-level codecs the EFIS reader relies on: the C library's `strtol`
 * over a fixed-width text field, the sentinel-aware field parsers, the
 * additive line checksum of the Dynon and Garmin text records, the CRC-16 of
 * the VN-300 binary packets and the little-endian fields and length byte of
 * the MGL binary messages.
 *
 * Characters and bytes are `u8`, the byte values 0..255. Whether the target's `char` is signed does
 * not matter to the checksum: it is reduced modulo 256, and a byte read as
 * c - 256 instead of c leaves the sum unchanged modulo 256.
 */
module EfisCodec {
  import opened Wrappers
  import opened Numeric

  const LF: u8 := 0x0A
  const NUL: u8 := 0x00
  const PLUS: u8 := 0x2B   // '+'
  const MINUS: u8 := 0x2D  // '-'
  const ZERO: u8 := 0x30   // '0'

  const LONG_MIN: int := -0x8000_0000
  const LONG_MAX: int := 0x7FFF_FFFF

  // ---------------------------------------------------------------------
  // strtol

  /** isspace in the C locale: space, \t, \n, \v, \f, \r. */
  predicate IsSpace(c: u8) {
    c == 0x20 || (0x09 <= c <= 0x0D)
  }

  /** The digit value of a character in any base up to 36; 36 for a non-digit. */
  function DigitValue(c: u8): (d: int)
    ensures 0 <= d <= 36
  {
    if 0x30 <= c <= 0x39 then c - 0x30
    else if 0x41 <= c <= 0x5A then c - 0x41 + 10
    else if 0x61 <= c <= 0x7A then c - 0x61 + 10
    else 36
  }

  predicate IsDigitIn(c: u8, base: int) {
    DigitValue(c) < base
  }

  function SkipSpace(s: seq<u8>): (t: seq<u8>)
    ensures |t| <= |s| && t == s[|s| - |t|..]
    ensures |t| > 0 ==> !IsSpace(t[0])
  {
    if |s| > 0 && IsSpace(s[0]) then SkipSpace(s[1..]) else s
  }

  /** The length of the longest prefix of digits of the base. */
  function DigitRun(s: seq<u8>, base: int): (n: nat)
    ensures n <= |s|
    ensures forall i :: 0 <= i < n ==> IsDigitIn(s[i], base)
    ensures n < |s| ==> !IsDigitIn(s[n], base)
  {
    if |s| > 0 && IsDigitIn(s[0], base) then 1 + DigitRun(s[1..], base) else 0
  }

  /** The value of a digit string, most significant digit first. */
  function DigitsValue(ds: seq<u8>, base: nat): nat
  {
    if ds == [] then 0
    else DigitsValue(ds[..|ds| - 1], base) * base + DigitValue(ds[|ds| - 1])
  }

  function Pow(b: nat, n: nat): (p: nat)
    ensures b > 0 ==> p > 0
  {
    if n == 0 then 1 else b * Pow(b, n - 1)
  }

  /** Out-of-range results saturate at LONG_MIN / LONG_MAX (32-bit long). */
  function Saturate(v: int): (r: int)
    ensures LONG_MIN <= r <= LONG_MAX
    ensures LONG_MIN <= v <= LONG_MAX ==> r == v
  {
    if v < LONG_MIN then LONG_MIN else if v > LONG_MAX then LONG_MAX else v
  }

  /**
   * What strtol reads of a field: leading white space skipped, an optional
   * sign, for base 16 an optional 0x/0X prefix, then the longest run of
   * digits of the base. The sign is negative only for a '-'.
   */
  function SignAndDigits(s: seq<u8>, base: nat): (r: (bool, seq<u8>))
    ensures |r.1| <= |s|
    ensures forall i :: 0 <= i < |r.1| ==> IsDigitIn(r.1[i], base)
  {
    var t := SkipSpace(s);
    var neg := |t| > 0 && t[0] == MINUS;
    var u := if |t| > 0 && (t[0] == MINUS || t[0] == PLUS) then t[1..] else t;
    var w := if base == 16 && |u| >= 2 && u[0] == ZERO && (u[1] == 0x78 || u[1] == 0x58) then u[2..] else u;
    var n := DigitRun(w, base);
    assert forall i :: 0 <= i < n ==> w[..n][i] == w[i];
    (neg, w[..n])
  }

  /**
   * strtol(s, nullptr, base) for base 10 or 16 over a field whose copy is
   * NUL-terminated; no digits gives 0, and a NUL inside the field stops the
   * parse like any other non-digit.
   */
  function Strtol(s: seq<u8>, base: nat): (r: int)
    requires base == 10 || base == 16
    ensures LONG_MIN <= r <= LONG_MAX
  {
    var (neg, ds) := SignAndDigits(s, base);
    var v: int := DigitsValue(ds, base);
    Saturate(if neg then -v else v)
  }

  /** One more digit: a value below p, shifted by one digit and a digit added, stays below p * base. */
  lemma DigitStep(a: nat, p: nat, base: nat, d: nat)
    requires a < p && d < base
    ensures a * base + d < base * p
  {
    MulMono(a + 1, p, base);
  }

  /** A run of digits of the base is worth less than base^length. */
  lemma {:induction false} DigitsValueBound(ds: seq<u8>, base: nat)
    requires base > 0
    requires forall i :: 0 <= i < |ds| ==> IsDigitIn(ds[i], base)
    ensures DigitsValue(ds, base) < Pow(base, |ds|)
    decreases |ds|
  {
    if ds != [] {
      var init, last := ds[..|ds| - 1], ds[|ds| - 1];
      DigitsValueBound(init, base);
      assert IsDigitIn(last, base);
      DigitStep(DigitsValue(init, base), Pow(base, |init|), base, DigitValue(last));
    }
  }

  lemma MulMono(a: nat, b: nat, c: nat)
    requires a <= b
    ensures a * c <= b * c
  {
  }

  /** The value of a field is bounded by the number of characters it has. */
  lemma StrtolBound(s: seq<u8>, base: nat)
    requires base == 10 || base == 16
    ensures -(Pow(base, |s|) as int) < Strtol(s, base) < Pow(base, |s|)
  {
    var ds := SignAndDigits(s, base).1;
    DigitsValueBound(ds, base);
    PowMono(base, |ds|, |s|);
  }

  lemma {:induction false} PowMono(b: nat, m: nat, n: nat)
    requires b > 0 && m <= n
    ensures Pow(b, m) <= Pow(b, n)
    decreases n
  {
    if m < n {
      PowMono(b, m, n - 1);
      MulMono(1, b, Pow(b, n - 1));
    }
  }

  // ---------------------------------------------------------------------
  // Hex checksum fields

  /** The character a sender writes for a hex digit (upper or lower case). */
  function HexChar(d: int, upper: bool): (c: u8)
    requires 0 <= d < 16
    ensures DigitValue(c) == d
  {
    if d < 10 then d + 0x30
    else if upper then d - 10 + 0x41
    else d - 10 + 0x61
  }

  /** The two-character hex form of a byte, as printed with %02X or %02x. */
  function HexByte(v: u8, upper: bool): (s: seq<u8>)
    ensures |s| == 2
  {
    [HexChar(v / 16, upper), HexChar(v % 16, upper)]
  }

  /** parseHexCRC: strtol over the two characters at pos, base 16. */
  function ParseHexCRC(buf: seq<u8>, pos: nat): (r: int)
    requires pos + 2 <= |buf|
    ensures -256 < r < 256
  {
    var field := [buf[pos], buf[pos + 1]];
    StrtolBound(field, 16);
    Strtol(field, 16)
  }

  /** Every checksum a sender writes in two hex digits is read back as itself. */
  lemma ParseHexCrcRoundTrip(buf: seq<u8>, pos: nat, v: u8, upper: bool)
    requires pos + 2 <= |buf| && buf[pos..pos + 2] == HexByte(v, upper)
    ensures ParseHexCRC(buf, pos) == v
  {
    var field := [buf[pos], buf[pos + 1]];
    assert field == HexByte(v, upper);
    var hi, lo := HexChar(v / 16, upper), HexChar(v % 16, upper);
    assert !IsSpace(hi) && hi != MINUS && hi != PLUS;
    assert SkipSpace(field) == field;
    assert lo != 0x78 && lo != 0x58;
    assert DigitRun(field[1..], 16) == 1;
    assert DigitRun(field, 16) == 2;
    assert field[..2][..1] == [hi];
    assert DigitsValue([hi], 16) == v / 16;
  }

  // ---------------------------------------------------------------------
  // Sentinel fields

  function Field(buf: seq<u8>, pos: nat, len: nat): (f: seq<u8>)
    requires pos + len <= |buf|
    ensures |f| == len && forall i :: 0 <= i < len ==> f[i] == buf[pos + i]
  {
    buf[pos..pos + len]
  }

  /** The field matches the record's "no data" marker, if it has one. */
  predicate IsSentinel(field: seq<u8>, sentinel: Option<seq<u8>>) {
    sentinel.Some? && field == sentinel.value
  }

  /** The shape every call site gives a field: it fits the buffer and the 16-byte copy, and a sentinel is as wide as it. */
  predicate FieldFits(buf: seq<u8>, pos: nat, len: nat, sentinel: Option<seq<u8>>) {
    pos + len <= |buf| && len <= 15 && (sentinel.Some? ==> |sentinel.value| == len)
  }

  /**
   * parseFieldFloat: the fallback when the field is the sentinel, otherwise
   * the field's decimal value (strtof, given as a parameter) divided by the scale.
   */
  function ParseFieldFloat(buf: seq<u8>, pos: nat, len: nat, sentinel: Option<seq<u8>>,
                           fallback: real, scale: real, strtof: seq<u8> -> real): (r: real)
    requires FieldFits(buf, pos, len, sentinel) && scale != 0.0
    ensures IsSentinel(Field(buf, pos, len), sentinel) ==> r == fallback
    ensures !IsSentinel(Field(buf, pos, len), sentinel) ==> r * scale == strtof(Field(buf, pos, len))
  {
    var field := Field(buf, pos, len);
    if IsSentinel(field, sentinel) then fallback else strtof(field) / scale
  }

  /** parseFieldInt: the fallback for the sentinel, otherwise strtol(field, 10) times the scale. */
  function ParseFieldInt(buf: seq<u8>, pos: nat, len: nat, sentinel: Option<seq<u8>>,
                         fallback: int, scale: int): (r: int)
    requires FieldFits(buf, pos, len, sentinel)
    ensures IsSentinel(Field(buf, pos, len), sentinel) ==> r == fallback
    ensures !IsSentinel(Field(buf, pos, len), sentinel) ==> r == Strtol(Field(buf, pos, len), 10) * scale
  {
    var field := Field(buf, pos, len);
    if IsSentinel(field, sentinel) then fallback else Strtol(field, 10) * scale
  }

  /**
   * The integer fields are at most six characters wide and scaled by at most
   * 10, so `(int)strtol(...) * scale` never leaves the 32-bit range.
   */
  lemma ParseFieldIntInRange(buf: seq<u8>, pos: nat, len: nat, sentinel: Option<seq<u8>>,
                             fallback: i32, scale: int)
    requires FieldFits(buf, pos, len, sentinel) && len <= 6 && -10 <= scale <= 10
    ensures -0x8000_0000 <= ParseFieldInt(buf, pos, len, sentinel, fallback, scale) < 0x8000_0000
  {
    var field := Field(buf, pos, len);
    StrtolBound(field, 10);
    PowMono(10, len, 6);
    ScaledBound(Strtol(field, 10), scale, 1000000);
  }

  /** |v| <= m and |k| <= 10 give |v * k| <= 10 * m. */
  lemma ScaledBound(v: int, k: int, m: nat)
    requires -(m as int) <= v <= m && -10 <= k <= 10
    ensures -10 * m <= v * k <= 10 * m
  {
    var av: nat := if v < 0 then -v else v;
    var ak: nat := if k < 0 then -k else k;
    MulMono(av, m, ak);
    MulMono(ak, 10, m);
    assert v * k == av * ak || v * k == -(av * ak);
  }

  /** parseFieldFloatKeep: the destination keeps its value on the sentinel, otherwise takes the parsed one. */
  function ParseFieldFloatKeep(dest: real, buf: seq<u8>, pos: nat, len: nat, sentinel: Option<seq<u8>>,
                               scale: real, strtof: seq<u8> -> real): (r: real)
    requires FieldFits(buf, pos, len, sentinel) && scale != 0.0
    ensures IsSentinel(Field(buf, pos, len), sentinel) ==> r == dest
    ensures !IsSentinel(Field(buf, pos, len), sentinel) ==> r * scale == strtof(Field(buf, pos, len))
  {
    var field := Field(buf, pos, len);
    if IsSentinel(field, sentinel) then dest else strtof(field) / scale
  }

  /** parseFieldIntKeep: the destination keeps its value on the sentinel, otherwise takes the parsed one. */
  function ParseFieldIntKeep(dest: int, buf: seq<u8>, pos: nat, len: nat, sentinel: Option<seq<u8>>,
                             scale: int): (r: int)
    requires FieldFits(buf, pos, len, sentinel)
    ensures IsSentinel(Field(buf, pos, len), sentinel) ==> r == dest
    ensures !IsSentinel(Field(buf, pos, len), sentinel) ==> r == Strtol(Field(buf, pos, len), 10) * scale
  {
    var field := Field(buf, pos, len);
    if IsSentinel(field, sentinel) then dest else Strtol(field, 10) * scale
  }

  /** A Keep parser is the plain parser with the destination's old value as the fallback. */
  lemma KeepIsOldValueFallback(dest: real, idest: int, buf: seq<u8>, pos: nat, len: nat, sentinel: Option<seq<u8>>,
                               scale: real, iscale: int, strtof: seq<u8> -> real)
    requires FieldFits(buf, pos, len, sentinel) && scale != 0.0
    ensures ParseFieldFloatKeep(dest, buf, pos, len, sentinel, scale, strtof) == ParseFieldFloat(buf, pos, len, sentinel, dest, scale, strtof)
    ensures ParseFieldIntKeep(idest, buf, pos, len, sentinel, iscale) == ParseFieldInt(buf, pos, len, sentinel, idest, iscale)
  {
  }

  // ---------------------------------------------------------------------
  // Additive line checksum

  /** The sum of the byte values, each taken as unsigned. */
  function Sum(s: seq<u8>): (n: int)
    ensures 0 <= n <= 255 * |s|
  {
    if s == [] then 0 else Sum(s[..|s| - 1]) + s[|s| - 1] as int
  }

  /** (Σ line[0..n]) & 0xFF: the checksum over the first n + 1 characters. */
  function LineChecksum(line: seq<u8>, n: nat): (c: u8)
    requires n < |line|
  {
    Sum(line[..n + 1]) % 256
  }

  /** The record is intact when the checksum of characters 0..n equals the hex byte after them. */
  predicate ChecksumOk(line: seq<u8>, n: nat)
    requires n + 3 <= |line|
  {
    LineChecksum(line, n) == ParseHexCRC(line, n + 1)
  }

  /** A sender that appends the checksum in hex produces a line that passes. */
  lemma ChecksumAcceptsSender(line: seq<u8>, n: nat, upper: bool)
    requires n + 3 <= |line| && line[n + 1..n + 3] == HexByte(LineChecksum(line, n), upper)
    ensures ChecksumOk(line, n)
  {
    ParseHexCrcRoundTrip(line, n + 1, LineChecksum(line, n), upper);
  }

  lemma {:induction false} SumUpdate(s: seq<u8>, i: nat, c: u8)
    requires i < |s|
    ensures Sum(s[i := c]) == Sum(s) - s[i] as int + c as int
    decreases |s|
  {
    var t := s[i := c];
    if i < |s| - 1 {
      assert t[..|t| - 1] == s[..|s| - 1][i := c];
      SumUpdate(s[..|s| - 1], i, c);
    } else {
      assert t[..|t| - 1] == s[..|s| - 1];
    }
  }

  /** Any single corrupted character among the checksummed ones changes the checksum. */
  lemma SingleByteErrorDetected(line: seq<u8>, n: nat, i: nat, c: u8)
    requires n < |line| && i <= n && c != line[i]
    ensures LineChecksum(line[i := c], n) != LineChecksum(line, n)
  {
    assert line[i := c][..n + 1] == line[..n + 1][i := c];
    SumUpdate(line[..n + 1], i, c);
    var a, b := Sum(line[..n + 1]), Sum(line[i := c][..n + 1]);
    assert b - a == c as int - line[i] as int;
    SmallChangeChangesByte(a, b);
  }

  /** Two sums that differ by a nonzero amount below 256 differ modulo 256. */
  lemma SmallChangeChangesByte(a: int, b: int)
    requires a != b && -256 < b - a < 256
    ensures a % 256 != b % 256
  {
    assert a == 256 * (a / 256) + a % 256;
    assert b == 256 * (b / 256) + b % 256;
  }

  // ---------------------------------------------------------------------
  // MGL binary messages

  const MGL_DLE: u8 := 0x05
  const MGL_STX: u8 := 0x02
  /** DLE, STX, length, length xor, type, rate, count, version. */
  const MGL_HEADER_SIZE: int := 8
  /** Message 1 (primary flight): 2 × int32, 7 × 16-bit, 10 bytes, int32 checksum. */
  const MGL_MSG1_SIZE: int := 2 * 4 + 7 * 2 + 10 + 4
  /** Message 3 (attitude): 12 × 16-bit, flags, 3 padding bytes, int32 checksum. */
  const MGL_MSG3_SIZE: int := 12 * 2 + 4 + 4

  /** The xor of the low `bits` bits of a and b, taken one bit at a time from the least significant. */
  function BitXor(a: nat, b: nat, bits: nat): (x: nat)
    decreases bits
  {
    if bits == 0 then 0 else (a % 2 + b % 2) % 2 + 2 * BitXor(a / 2, b / 2, bits - 1)
  }

  /** The length byte is trusted only when it xored with the check byte gives 0xFF. */
  predicate MglLengthOk(len: u8, check: u8) {
    BitXor(len, check, 8) == 0xFF
  }

  /** Two values of `bits` bits xor to all ones exactly when they add up to all ones. */
  lemma {:induction false} BitXorAllOnes(a: nat, b: nat, bits: nat)
    requires a < Pow(2, bits) && b < Pow(2, bits)
    ensures BitXor(a, b, bits) == Pow(2, bits) - 1 <==> a + b == Pow(2, bits) - 1
    decreases bits
  {
    if bits > 0 {
      BitXorAllOnes(a / 2, b / 2, bits - 1);
    }
  }

  /** The check byte is the one's complement of the length byte. */
  lemma MglLengthOkIsComplement(len: u8, check: u8)
    ensures MglLengthOk(len, check) <==> len as int + check as int == 0xFF
  {
    assert Pow(2, 8) == 256;
    BitXorAllOnes(len, check, 8);
  }

  /** The bytes the reader expects: the length byte (0 meaning 256) plus 20. */
  function MglExpectedLength(len: u8): (n: int)
    ensures 21 <= n <= 276
    ensures n - 20 == (if len == 0 then 256 else len)
  {
    (if len == 0 then 256 else len) + 20
  }

  /** The length bytes the two decoded message types carry give exactly header plus body. */
  lemma MglDecodedLengths()
    ensures MglExpectedLength(0x18) == MGL_HEADER_SIZE + MGL_MSG1_SIZE == 44
    ensures MglExpectedLength(0x14) == MGL_HEADER_SIZE + MGL_MSG3_SIZE == 40
  {
  }

  /** Little-endian unsigned 16-bit field. */
  function U16Le(buf: seq<u8>, i: nat): (v: u16)
    requires i + 2 <= |buf|
  {
    buf[i] as int + 256 * (buf[i + 1] as int)
  }

  /** Little-endian signed 16-bit field. */
  function I16Le(buf: seq<u8>, i: nat): (v: i16)
    requires i + 2 <= |buf|
    ensures v == (if U16Le(buf, i) < 0x8000 then U16Le(buf, i) else U16Le(buf, i) - 0x1_0000)
  {
    I16(U16Le(buf, i))
  }

  /** Little-endian signed 32-bit field. */
  function I32Le(buf: seq<u8>, i: nat): (v: i32)
    requires i + 4 <= |buf|
  {
    I32(U16Le(buf, i) + 0x1_0000 * U16Le(buf, i + 2))
  }

  /** The little-endian encoding of a 16-bit value. */
  function U16Bytes(v: u16): (s: seq<u8>)
    ensures |s| == 2
  {
    [v % 256, v / 256]
  }

  /** Reading back a little-endian 16-bit value gives the value, and its two's-complement reading for signed fields. */
  lemma U16LeRoundTrip(buf: seq<u8>, i: nat, v: u16)
    requires i + 2 <= |buf| && buf[i..i + 2] == U16Bytes(v)
    ensures U16Le(buf, i) == v
    ensures I16Le(buf, i) == I16(v)
  {
    assert buf[i] == v % 256 && buf[i + 1] == v / 256;
  }
}
