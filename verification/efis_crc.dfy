/**
 * The CRC-16 that guards the VN-300 binary packets. The reader runs a
 * shift-and-xor form of the byte update; here it is shown equal to the
 * table-driven CRC-16/XMODEM update (polynomial 0x1021, most significant bit
 * first, initial value 0), whose table entry for a byte is proved to be eight
 * bit-serial polynomial steps. The property the reader relies on follows: a
 * message followed by its own CRC, high byte first, leaves a zero register.
 *
 * The C code computes in `int` and stores back into a `uint16_t`; every
 * intermediate that matters is truncated to 16 bits, which `bv16` does.
 */
module VnCrc16 {
  import opened Numeric

  // ---------------------------------------------------------------------
  // The per-byte update as the reader writes it

  /** First line of the update: swap the two bytes of the register. */
  function Swap(crc: bv16): bv16 { (crc >> 8) | (crc << 8) }
  /** Xor in the low byte's high nibble. */
  function MixA(c: bv16): bv16 { c ^ ((c & 0xFF) >> 4) }
  /** Xor in the register shifted left by twelve. */
  function MixB(c: bv16): bv16 { c ^ ((c << 8) << 4) }
  /** Xor in the low byte shifted left by five. */
  function MixC(c: bv16): bv16 { c ^ (((c & 0xFF) << 4) << 1) }

  /** One pass of the VN-300 CRC loop: swap, xor the byte in, then three folding steps. */
  function CrcByte(crc: bv16, b: bv8): bv16 {
    MixC(MixB(MixA(Swap(crc) ^ (b as bv16))))
  }

  /** The CRC register after a run of bytes, starting from 0. */
  function VnCrc(s: seq<u8>): bv16 {
    if s == [] then 0 else CrcByte(VnCrc(s[..|s| - 1]), s[|s| - 1] as bv8)
  }

  // ---------------------------------------------------------------------
  // The table-driven form

  /** The table index of the usual table-driven CRC-16: the high byte of the register xor the input byte. */
  function LowIndex(crc: bv16, b: bv8): bv16 { ((crc >> 8) ^ (b as bv16)) & 0xFF }
  function Mixed(t: bv16): bv16 { (t ^ (t >> 4)) & 0xFF }
  /** The table entry for index t, in closed form. */
  function Fold(t: bv16): bv16 { var u := Mixed(t); u ^ (u << 12) ^ (u << 5) }

  lemma SwapXor(crc: bv16, b: bv8)
    ensures Swap(crc) ^ (b as bv16) == (crc << 8) ^ (((crc >> 8) ^ (b as bv16)) & 0xFF)
  {}

  lemma MixALow(h: bv16, t: bv16)
    ensures MixA((h << 8) ^ (t & 0xFF)) == (h << 8) ^ Mixed(t & 0xFF)
  {}

  lemma MixBLow(h: bv16, t: bv16)
    ensures MixB((h << 8) ^ Mixed(t)) == (h << 8) ^ Mixed(t) ^ (Mixed(t) << 12)
  {}

  lemma MixCLow(h: bv16, t: bv16)
    ensures MixC((h << 8) ^ Mixed(t) ^ (Mixed(t) << 12)) == (h << 8) ^ Fold(t)
  {}

  lemma FrontHalf(crc: bv16, b: bv8)
    ensures MixA(Swap(crc) ^ (b as bv16)) == (crc << 8) ^ Mixed(LowIndex(crc, b))
  {
    var t := (crc >> 8) ^ (b as bv16);
    calc {
      MixA(Swap(crc) ^ (b as bv16));
    == { SwapXor(crc, b); }
      MixA((crc << 8) ^ (t & 0xFF));
    == { MixALow(crc, t); }
      (crc << 8) ^ Mixed(t & 0xFF);
    }
  }

  lemma BackHalf(crc: bv16, b: bv8)
    ensures MixC(MixB((crc << 8) ^ Mixed(LowIndex(crc, b)))) == (crc << 8) ^ Fold(LowIndex(crc, b))
  {
    MixBLow(crc, LowIndex(crc, b));
    MixCLow(crc, LowIndex(crc, b));
  }

  /** The shift-and-xor update is the table-driven update: crc' = (crc << 8) ^ T[(crc >> 8) ^ b]. */
  lemma CrcByteTableForm(crc: bv16, b: bv8)
    ensures CrcByte(crc, b) == (crc << 8) ^ Fold(LowIndex(crc, b))
  {
    FrontHalf(crc, b);
    BackHalf(crc, b);
  }

  // ---------------------------------------------------------------------
  // The table is the polynomial 0x1021

  /** The feedback of one bit-serial step, without a branch: 0x1021 when the top bit is set. */
  function Feedback(x: bv16): bv16 { (0 - (x >> 15)) & 0x1021 }

  lemma FeedbackIsPoly(x: bv16)
    ensures Feedback(x) == if x & 0x8000 != 0 then 0x1021 else 0
  {}

  /** One step of the bit-serial CRC-16 with polynomial 0x1021, most significant bit first. */
  function ShiftStep(x: bv16): bv16 { (x << 1) ^ Feedback(x) }
  function Shift4(x: bv16): bv16 { ShiftStep(ShiftStep(ShiftStep(ShiftStep(x)))) }
  function Shift8(x: bv16): bv16 { Shift4(Shift4(x)) }

  /** Every table entry is the bit-serial division of its index: eight polynomial steps on index << 8. */
  lemma FoldIsPolynomialTable(u: bv16)
    ensures Fold(u & 0xFF) == Shift8((u & 0xFF) << 8)
  {}

  // ---------------------------------------------------------------------
  // The zero residue

  /** Feeding a register its own two bytes, high byte first, clears it. */
  lemma CrcOwnValueClears(c: bv16)
    ensures CrcByte(CrcByte(c, (c >> 8) as bv8), (c & 0xFF) as bv8) == 0
  {
    CrcByteTableForm(c, (c >> 8) as bv8);
    CrcByteTableForm(c << 8, (c & 0xFF) as bv8);
  }

  /** The CRC field as the VN-300 appends it: high byte first. */
  function CrcBytes(c: bv16): (s: seq<u8>)
    ensures |s| == 2 && s[0] as bv8 == (c >> 8) as bv8 && s[1] as bv8 == (c & 0xFF) as bv8
  {
    [(c >> 8) as int, (c & 0xFF) as int]
  }

  /** One more byte after a message: one more pass of the loop. */
  lemma VnCrcSnoc(msg: seq<u8>, x: u8)
    ensures VnCrc(msg + [x]) == CrcByte(VnCrc(msg), x as bv8)
  {
    assert (msg + [x])[..|msg|] == msg;
  }

  /** Two more bytes after a message: two more passes of the loop. */
  lemma VnCrcTwoMore(msg: seq<u8>, x: u8, y: u8)
    ensures VnCrc(msg + [x, y]) == CrcByte(CrcByte(VnCrc(msg), x as bv8), y as bv8)
  {
    assert msg + [x, y] == (msg + [x]) + [y];
    VnCrcSnoc(msg, x);
    VnCrcSnoc(msg + [x], y);
  }

  /** A message followed by its CRC has residue 0, which is what the reader's `vnCrc != 0` test accepts. */
  lemma CrcAppendResidue(msg: seq<u8>)
    ensures VnCrc(msg + CrcBytes(VnCrc(msg))) == 0
  {
    var c := VnCrc(msg);
    var field := CrcBytes(c);
    assert msg + field == msg + [field[0], field[1]];
    VnCrcTwoMore(msg, field[0], field[1]);
    CrcOwnValueClears(c);
  }
}
