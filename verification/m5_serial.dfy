/**
 * The M5 display's reader of the OnSpeed "#1" serial stream. Characters
 * arrive one per call. A '#' starts a new frame, and characters are
 * appended only after one. An 80-character frame that starts "#1" and
 * ends in LF is checked with the additive checksum of its first 76
 * characters against the two hex digits that follow. A frame that passes
 * is sliced into twenty fields, and the display values are then
 * preprocessed (AOA sentinel, smoothing, slip, IAS derivative).
 *
 * Characters are `u8`; String's toFloat/toInt are parameters, as in the
 * EFIS reader. The display globals, declared outside this file, start at
 * zero as C++ globals do.
 */
module M5Serial {
  import opened Wrappers
  import opened Numeric
  import opened EfisCodec
  import EfisRecords
  import opened SavGolSpec
  import SavGolM5

  type ToFloat = EfisRecords.Strtof
  type ToInt = seq<u8> -> int

  const HASH: u8 := 0x23   // '#'
  /** The length of an OnSpeed frame, LF included. */
  const FRAME_LENGTH: int := 80
  /** The last character the checksum covers; the hex digits are at 76 and 77. */
  const CHECKSUM_END: nat := 75

  // ---------------------------------------------------------------------
  // Frame assembly

  /**
   * What the buffer may hold between calls: nothing, or a '#' followed by
   * characters that are not '#', at most 81 in all.
   */
  predicate WellFormed(buf: seq<u8>) {
    |buf| <= FRAME_LENGTH + 1
    && (buf != [] ==> buf[0] == HASH)
    && forall i :: 1 <= i < |buf| ==> buf[i] != HASH
  }

  /** An 80-character "#1" line ending in LF with no second '#': the frames the reader looks at. */
  predicate FrameShape(f: seq<u8>) {
    |f| == FRAME_LENGTH && f[0] == HASH && f[1] == EfisRecords.ONE && f[FRAME_LENGTH - 1] == LF
    && forall i :: 1 <= i < |f| ==> f[i] != HASH
  }

  /** A frame the reader accepts: the right shape, and the checksum holds. */
  predicate ValidFrame(f: seq<u8>) {
    FrameShape(f) && ChecksumOk(f, CHECKSUM_END)
  }

  /** The buffer after one character, and the frame it completed if that frame passed its checksum. */
  datatype Received = Received(buffer: seq<u8>, frame: Option<seq<u8>>)

  function Receive(buf: seq<u8>, c: u8): (r: Received)
    ensures WellFormed(buf) ==> WellFormed(r.buffer)
    ensures c == HASH ==> r == Received([HASH], None)
    ensures c != HASH && buf == [] ==> r == Received([], None)
    ensures r.frame.Some? ==> r.buffer == [] && r.frame.value == buf + [c]
  {
    if c == HASH then Received([HASH], None)
    else if |buf| > FRAME_LENGTH then Received([], None)
    else if |buf| == 0 then Received(buf, None)
    else
      var b := buf + [c];
      if |b| == FRAME_LENGTH && b[0] == HASH && b[1] == EfisRecords.ONE && c == LF && ChecksumOk(b, CHECKSUM_END)
      then Received([], Some(b))
      else Received(b, None)
  }

  /** A character other than '#' after a started, not over-long buffer is appended, and the result delivered when it is a checked frame. */
  lemma ReceiveAppended(buf: seq<u8>, c: u8)
    requires c != HASH && 0 < |buf| <= FRAME_LENGTH
    ensures var b := buf + [c];
      Receive(buf, c) == if |b| == FRAME_LENGTH && b[0] == HASH && b[1] == EfisRecords.ONE && c == LF && ChecksumOk(b, CHECKSUM_END)
                         then Received([], Some(b)) else Received(b, None)
  {
  }

  /** From a well-formed buffer, only valid frames are delivered. */
  lemma ReceiveDeliversValid(buf: seq<u8>, c: u8)
    requires WellFormed(buf) && Receive(buf, c).frame.Some?
    ensures ValidFrame(Receive(buf, c).frame.value)
  {
  }

  /** The last character of a frame of the right shape delivers it or leaves it in the buffer, by its checksum. */
  lemma ReceiveCompletes(buf: seq<u8>, c: u8)
    requires WellFormed(buf) && c != HASH && FrameShape(buf + [c])
    ensures Receive(buf, c) == if ChecksumOk(buf + [c], CHECKSUM_END) then Received([], Some(buf + [c])) else Received(buf + [c], None)
  {
  }

  /** The buffer after a run of characters, and the frames accepted on the way, in order. */
  function ReceiveAll(buf: seq<u8>, cs: seq<u8>): (r: (seq<u8>, seq<seq<u8>>))
    decreases |cs|
  {
    if cs == [] then (buf, [])
    else
      var step := Receive(buf, cs[0]);
      var rest := ReceiveAll(step.buffer, cs[1..]);
      (rest.0, (if step.frame.Some? then [step.frame.value] else []) + rest.1)
  }

  /** Receiving two runs one after the other is receiving their concatenation. */
  lemma {:induction false} ReceiveAllAppend(buf: seq<u8>, a: seq<u8>, b: seq<u8>)
    ensures ReceiveAll(buf, a + b).0 == ReceiveAll(ReceiveAll(buf, a).0, b).0
    ensures ReceiveAll(buf, a + b).1 == ReceiveAll(buf, a).1 + ReceiveAll(ReceiveAll(buf, a).0, b).1
    decreases |a|
  {
    if a == [] {
      assert a + b == b;
    } else {
      assert (a + b)[0] == a[0] && (a + b)[1..] == a[1..] + b;
      ReceiveAllAppend(Receive(buf, a[0]).buffer, a[1..], b);
    }
  }

  /** A character that completes no frame adds nothing to the frames received. */
  lemma ReceiveAllQuiet(buf: seq<u8>, cs: seq<u8>)
    requires cs != [] && Receive(buf, cs[0]).frame.None?
    ensures ReceiveAll(buf, cs) == ReceiveAll(Receive(buf, cs[0]).buffer, cs[1..])
  {
    var rest := ReceiveAll(Receive(buf, cs[0]).buffer, cs[1..]);
    assert [] + rest.1 == rest.1;
  }

  /** Inside a frame, each character is appended and nothing is delivered. */
  lemma GatherStep(f: seq<u8>, k: nat)
    requires FrameShape(f) && 1 <= k < |f| - 1
    ensures Receive(f[..k], f[k]) == Received(f[..k + 1], None)
  {
    ReceiveAppended(f[..k], f[k]);
    assert f[..k] + [f[k]] == f[..k + 1];
  }

  /** The frame's last character decides, by the checksum, whether the frame is delivered. */
  lemma GatherLast(f: seq<u8>)
    requires FrameShape(f)
    ensures ReceiveAll(f[..|f| - 1], f[|f| - 1..]) == if ChecksumOk(f, CHECKSUM_END) then ([], [f]) else (f, [])
  {
    var k := |f| - 1;
    var step := Receive(f[..k], f[k]);
    assert f[..k] + [f[k]] == f;
    assert f[k..][0] == f[k] && f[k..][1..] == [];
    assert WellFormed(f[..k]);
    ReceiveCompletes(f[..k], f[k]);
    if ChecksumOk(f, CHECKSUM_END) {
      assert step == Received([], Some(f));
      assert [f] + [] == [f];
    } else {
      assert step == Received(f, None);
      ReceiveAllQuiet(f[..k], f[k..]);
    }
  }

  /** The rest of a frame, from any prefix of it that starts with the '#'. */
  lemma {:induction false} GatherFrame(f: seq<u8>, k: nat)
    requires FrameShape(f) && 1 <= k < |f|
    ensures ReceiveAll(f[..k], f[k..]) == if ChecksumOk(f, CHECKSUM_END) then ([], [f]) else (f, [])
    decreases |f| - k
  {
    if k + 1 == |f| {
      GatherLast(f);
    } else {
      GatherStep(f, k);
      assert f[k..][0] == f[k] && f[k..][1..] == f[k + 1..];
      ReceiveAllQuiet(f[..k], f[k..]);
      GatherFrame(f, k + 1);
    }
  }

  /**
   * A frame of the right shape, sent from any buffer state, is delivered
   * whole when its checksum holds; otherwise it is kept in the buffer and
   * nothing is delivered.
   */
  lemma FrameOutcome(buf: seq<u8>, f: seq<u8>)
    requires FrameShape(f)
    ensures ReceiveAll(buf, f) == if ChecksumOk(f, CHECKSUM_END) then ([], [f]) else (f, [])
  {
    assert Receive(buf, f[0]) == Received(f[..1], None);
    ReceiveAllQuiet(buf, f);
    assert f[1..] == f[1..];
    GatherFrame(f, 1);
  }

  /** Every valid frame is received, whatever the buffer held before it. */
  lemma FrameReceived(buf: seq<u8>, f: seq<u8>)
    requires ValidFrame(f)
    ensures ReceiveAll(buf, f) == ([], [f])
  {
    FrameOutcome(buf, f);
  }

  /** Two valid frames back to back are both received, in order. */
  lemma BackToBackFrames(buf: seq<u8>, f: seq<u8>, g: seq<u8>)
    requires ValidFrame(f) && ValidFrame(g)
    ensures ReceiveAll(buf, f + g) == ([], [f, g])
  {
    ReceiveAllAppend(buf, f, g);
    FrameReceived(buf, f);
    FrameReceived([], g);
    assert [f] + [g] == [f, g];
  }

  /** Changing a character the checksum covers leaves the two hex digits after it alone. */
  lemma UpdateKeepsCrcField(f: seq<u8>, i: nat, x: u8)
    requires |f| == FRAME_LENGTH && i <= CHECKSUM_END
    ensures ParseHexCRC(f[i := x], CHECKSUM_END + 1) == ParseHexCRC(f, CHECKSUM_END + 1)
  {
    var g := f[i := x];
    assert [g[CHECKSUM_END + 1], g[CHECKSUM_END + 2]] == [f[CHECKSUM_END + 1], f[CHECKSUM_END + 2]];
  }

  /** Changing a character after the "#1" and before the LF (to anything but '#') keeps the frame's shape. */
  lemma UpdateKeepsShape(f: seq<u8>, i: nat, x: u8)
    requires FrameShape(f) && 2 <= i < FRAME_LENGTH - 1 && x != HASH
    ensures FrameShape(f[i := x])
  {
  }

  /** Changing any one checksummed character after the "#1" (to anything but '#') loses the frame. */
  lemma CorruptedFrameDropped(buf: seq<u8>, f: seq<u8>, i: nat, x: u8)
    requires ValidFrame(f) && 2 <= i <= CHECKSUM_END && x != f[i] && x != HASH
    ensures ReceiveAll(buf, f[i := x]).1 == []
  {
    var g := f[i := x];
    SingleByteErrorDetected(f, CHECKSUM_END, i, x);
    UpdateKeepsCrcField(f, i, x);
    UpdateKeepsShape(f, i, x);
    FrameOutcome(buf, g);
  }

  /**
   * A frame that fails its checksum stays in the buffer; the next character
   * makes the buffer 81 long, and the one after clears it.
   */
  lemma FailedFrameCleared(buf: seq<u8>, f: seq<u8>, x: u8, y: u8)
    requires FrameShape(f) && !ChecksumOk(f, CHECKSUM_END) && x != HASH && y != HASH
    ensures ReceiveAll(buf, f + [x, y]) == ([], [])
  {
    ReceiveAllAppend(buf, f, [x, y]);
    FrameOutcome(buf, f);
    assert Receive(f, x) == Received(f + [x], None);
    assert Receive(f + [x], y) == Received([], None);
    assert [x, y][1..] == [y];
    ReceiveAllQuiet(f, [x, y]);
    ReceiveAllQuiet(f + [x], [y]);
  }

  /** A buffer that starts well formed stays so, and every frame delivered from it is valid. */
  lemma {:induction false} ReceiveAllSound(buf: seq<u8>, cs: seq<u8>)
    requires WellFormed(buf)
    ensures WellFormed(ReceiveAll(buf, cs).0)
    ensures forall k :: 0 <= k < |ReceiveAll(buf, cs).1| ==> ValidFrame(ReceiveAll(buf, cs).1[k])
    decreases |cs|
  {
    if cs != [] {
      if Receive(buf, cs[0]).frame.Some? {
        ReceiveDeliversValid(buf, cs[0]);
      }
      ReceiveAllSound(Receive(buf, cs[0]).buffer, cs[1..]);
    }
  }

  /** The checksum loop: the sum of characters 0..75, reduced to a byte. */
  method FrameChecksum(frame: seq<u8>) returns (crc: int)
    requires |frame| > CHECKSUM_END
    ensures crc == LineChecksum(frame, CHECKSUM_END)
  {
    crc := 0;
    for i := 0 to CHECKSUM_END + 1
      invariant crc == Sum(frame[..i])
    {
      assert frame[..i + 1][..i] == frame[..i];
      crc := crc + frame[i] as int;
    }
    // `& 0xFF` on a sum that is never negative
    crc := crc % 256;
  }

  // ---------------------------------------------------------------------
  // Field slicing

  /** Where each of the twenty fields starts; the last entry is where the last field ends. */
  const FIELD_BOUNDS: seq<int> := [2, 6, 11, 15, 21, 26, 29, 32, 34, 38, 42, 45, 49, 52, 56, 60, 64, 68, 72, 74, 76]
  const FIELD_COUNT: int := 20
  /** The first column after the fields: the checksum digits start here. */
  const PAYLOAD_END: int := 76

  /** Every field is non-empty and lies between the "#1" and the checksum digits. */
  lemma FieldBounds(k: int)
    requires 0 <= k < FIELD_COUNT
    ensures 2 <= FIELD_BOUNDS[k] < FIELD_BOUNDS[k + 1] <= PAYLOAD_END
  {
  }

  /** The text of field k. */
  function FieldText(frame: seq<u8>, k: int): (t: seq<u8>)
    requires |frame| >= PAYLOAD_END && 0 <= k < FIELD_COUNT
    ensures |t| == FIELD_BOUNDS[k + 1] - FIELD_BOUNDS[k] > 0
  {
    FieldBounds(k);
    frame[FIELD_BOUNDS[k]..FIELD_BOUNDS[k + 1]]
  }

  /** Fields 0..k-1, one after the other. */
  function Fields(frame: seq<u8>, k: nat): seq<u8>
    requires |frame| >= PAYLOAD_END && k <= FIELD_COUNT
  {
    if k == 0 then [] else Fields(frame, k - 1) + FieldText(frame, k - 1)
  }

  /** The fields follow one another with no gap or overlap from column 2. */
  lemma {:induction false} FieldsContiguous(frame: seq<u8>, k: nat)
    requires |frame| >= PAYLOAD_END && k <= FIELD_COUNT
    ensures Fields(frame, k) == frame[2..FIELD_BOUNDS[k]]
  {
    if k > 0 {
      FieldsContiguous(frame, k - 1);
      FieldBounds(k - 1);
      var lo, hi := FIELD_BOUNDS[k - 1], FIELD_BOUNDS[k];
      assert FieldText(frame, k - 1) == frame[lo..hi];
      SliceJoin(frame, 2, lo, hi);
    }
  }

  lemma SliceJoin(s: seq<u8>, a: int, b: int, c: int)
    requires 0 <= a <= b <= c <= |s|
    ensures s[a..c] == s[a..b] + s[b..c]
  {
  }

  /** The twenty fields exactly cover columns 2..75, between the "#1" and the checksum. */
  lemma FieldsCoverPayload(frame: seq<u8>)
    requires |frame| >= PAYLOAD_END
    ensures Fields(frame, FIELD_COUNT) == frame[2..PAYLOAD_END]
  {
    FieldsContiguous(frame, FIELD_COUNT);
  }

  /** The display values one frame carries. */
  datatype Readout = Readout(
    pitch: real, roll: real, ias: real, palt: real, turnRate: real,
    lateralG: real, verticalG: real, percentLift: int, aoa: real, vsi: real,
    oat: int, flightPath: real, flapPos: int, stallWarnAoa: real, slowAoa: real,
    fastAoa: real, tonesOnAoa: real, gOnsetRate: real, spinRecoveryCue: int, dataMark: int)

  function ZeroReadout(): Readout {
    Readout(0.0, 0.0, 0.0, 0.0, 0.0, 0.0, 0.0, 0, 0.0, 0.0, 0, 0.0, 0, 0.0, 0.0, 0.0, 0.0, 0.0, 0, 0)
  }

  /** Field by field: the float fields are scaled down by 10 or 100 (VSI up by 10), the integer fields are taken as read. */
  function Decode(frame: seq<u8>, toFloat: ToFloat, toInt: ToInt): Readout
    requires |frame| >= PAYLOAD_END
  {
    Readout(
      toFloat(FieldText(frame, 0)) / 10.0, toFloat(FieldText(frame, 1)) / 10.0,
      toFloat(FieldText(frame, 2)) / 10.0, toFloat(FieldText(frame, 3)),
      toFloat(FieldText(frame, 4)) / 10.0, toFloat(FieldText(frame, 5)) / 100.0,
      toFloat(FieldText(frame, 6)) / 10.0, toInt(FieldText(frame, 7)),
      toFloat(FieldText(frame, 8)) / 10.0, toFloat(FieldText(frame, 9)) * 10.0,
      toInt(FieldText(frame, 10)), toFloat(FieldText(frame, 11)) / 10.0,
      toInt(FieldText(frame, 12)), toFloat(FieldText(frame, 13)) / 10.0,
      toFloat(FieldText(frame, 14)) / 10.0, toFloat(FieldText(frame, 15)) / 10.0,
      toFloat(FieldText(frame, 16)) / 10.0, toFloat(FieldText(frame, 17)) / 100.0,
      toInt(FieldText(frame, 18)), toInt(FieldText(frame, 19)))
  }

  lemma FieldInPayload(f: seq<u8>, g: seq<u8>, k: int)
    requires |f| >= PAYLOAD_END && |g| >= PAYLOAD_END && f[2..PAYLOAD_END] == g[2..PAYLOAD_END]
    requires 0 <= k < FIELD_COUNT
    ensures FieldText(f, k) == FieldText(g, k)
  {
    FieldBounds(k);
    var lo, hi := FIELD_BOUNDS[k], FIELD_BOUNDS[k + 1];
    forall j | lo <= j < hi
      ensures f[j] == g[j]
    {
      assert f[j] == f[2..PAYLOAD_END][j - 2] && g[j] == g[2..PAYLOAD_END][j - 2];
    }
    assert f[lo..hi] == g[lo..hi];
  }

  /** The decoded values depend on columns 2..75 only: not on the header, the checksum digits or the line end. */
  lemma DecodeReadsOnlyPayload(f: seq<u8>, g: seq<u8>, toFloat: ToFloat, toInt: ToInt)
    requires |f| >= PAYLOAD_END && |g| >= PAYLOAD_END && f[2..PAYLOAD_END] == g[2..PAYLOAD_END]
    ensures Decode(f, toFloat, toInt) == Decode(g, toFloat, toInt)
  {
    forall k | 0 <= k < FIELD_COUNT
      ensures FieldText(f, k) == FieldText(g, k)
    {
      FieldInPayload(f, g, k);
    }
  }

  // ---------------------------------------------------------------------
  // Preprocessing for the display

  /** Weight of the previous smoothed value, per input. */
  const AOA_ALPHA: real := 0.7
  const SLIP_ALPHA: real := 0.5
  /** The deceleration is smoothed the other way round: this is the weight of the new value. */
  const DECEL_ALPHA: real := 0.04
  /** Seconds between frames (10 Hz). */
  const SERIAL_RATE: real := 0.1
  /** The AOA the sender uses for "no data". */
  const AOA_INVALID: real := -100.0
  const SLIP_LIMIT: int := 99
  /** The window of the IAS derivative filter. */
  const IAS_WINDOW: int := 15

  /** Exponential smoothing: alpha of the previous value and the rest of the new one; it lies between the two. */
  function Smooth(prev: real, input: real, alpha: real): (r: real)
    requires 0.0 <= alpha <= 1.0
    ensures prev <= input ==> prev <= r <= input
    ensures input <= prev ==> input <= r <= prev
  {
    SmoothBetween(prev, input, alpha, prev * alpha + (1.0 - alpha) * input);
    prev * alpha + (1.0 - alpha) * input
  }

  lemma SmoothBetween(prev: real, input: real, alpha: real, r: real)
    requires 0.0 <= alpha <= 1.0 && r == prev * alpha + (1.0 - alpha) * input
    ensures prev <= input ==> prev <= r <= input
    ensures input <= prev ==> input <= r <= prev
  {
    var d := input - prev;
    var moved := alpha * d;
    assert r == input - moved;
    if d > 0.0 {
      ScaleUnit(alpha, d);
    } else if d < 0.0 {
      ScaleUnit(alpha, -d);
      assert alpha * (-d) == -moved;
    }
  }

  /** The slip ball position: smoothed lateral G times 850, truncated and held to -99..99. */
  function Slip(lateralG: real): (s: int)
    ensures -SLIP_LIMIT <= s <= SLIP_LIMIT
    ensures -SLIP_LIMIT <= Trunc(lateralG * 34.0 / 0.04) <= SLIP_LIMIT ==> s == Trunc(lateralG * 34.0 / 0.04)
    ensures lateralG >= 0.0 ==> s >= 0
    ensures lateralG <= 0.0 ==> s <= 0
  {
    TruncBounds(lateralG * 34.0 / 0.04);
    ClampInt(Trunc(lateralG * 34.0 / 0.04), -SLIP_LIMIT, SLIP_LIMIT)
  }

  /** The AOA as displayed: the "no data" value shows as 0. */
  function DisplayAoa(aoa: real): (a: real)
    ensures a != AOA_INVALID
    ensures aoa != AOA_INVALID ==> a == aoa
  {
    if aoa == AOA_INVALID then 0.0 else aoa
  }

  /** The values the display derives from the frames. */
  datatype Smoothed = Smoothed(lateralG: real, slip: int, aoa: real, decelRate: real, decel: real)

  /** The IAS derivative filter as the display builds it. */
  predicate FilterReady(st: FilterState) {
    StepReady(st, IAS_WINDOW, SavGolM5.FillLength(IAS_WINDOW), SavGolM5.Norm(IAS_WINDOW))
  }

  /**
   * SerialProcess: the AOA sentinel, the smoothed lateral G and the slip
   * derived from it, the smoothed AOA, and one step of the IAS derivative,
   * scaled to knots per second and smoothed.
   */
  function Preprocess(r: Readout, sm: Smoothed, filter: FilterState): (out: (Readout, Smoothed, FilterState))
    requires FilterReady(filter)
    ensures out.0 == r.(aoa := DisplayAoa(r.aoa))
    ensures -SLIP_LIMIT <= out.1.slip <= SLIP_LIMIT
    ensures out.1.slip == Slip(out.1.lateralG)
    ensures out.1.lateralG == Smooth(sm.lateralG, r.lateralG, SLIP_ALPHA)
    ensures out.1.aoa == Smooth(sm.aoa, DisplayAoa(r.aoa), AOA_ALPHA)
    ensures (out.2, out.1.decelRate * SERIAL_RATE) == Step(filter, IAS_WINDOW, SavGolM5.FillLength(IAS_WINDOW), SavGolM5.Norm(IAS_WINDOW), r.ias)
    ensures out.1.decel == Smooth(sm.decel, out.1.decelRate, 1.0 - DECEL_ALPHA)
    ensures FilterReady(out.2)
  {
    var aoa := DisplayAoa(r.aoa);
    var lateralG := Smooth(sm.lateralG, r.lateralG, SLIP_ALPHA);
    var step := Step(filter, IAS_WINDOW, SavGolM5.FillLength(IAS_WINDOW), SavGolM5.Norm(IAS_WINDOW), r.ias);
    var decelRate := step.1 / SERIAL_RATE;
    (r.(aoa := aoa),
     Smoothed(lateralG, Slip(lateralG), Smooth(sm.aoa, aoa, AOA_ALPHA), decelRate, Smooth(sm.decel, decelRate, 1.0 - DECEL_ALPHA)),
     step.0)
  }

  /** Everything the reader keeps between calls. */
  datatype DisplayState = DisplayState(buffer: seq<u8>, readout: Readout, smoothed: Smoothed, filter: FilterState, serialMillis: int)

  /**
   * One call of SerialRead: with no character waiting nothing happens; a
   * character goes to the frame buffer, and a frame that passes its checksum
   * is decoded, preprocessed and time-stamped.
   */
  function SerialReadSpec(st: DisplayState, input: Option<u8>, now: int, toFloat: ToFloat, toInt: ToInt): (r: DisplayState)
    requires FilterReady(st.filter)
    ensures FilterReady(r.filter)
    ensures r.buffer == if input.Some? then Receive(st.buffer, input.value).buffer else st.buffer
    ensures input.None? || Receive(st.buffer, input.value).frame.None? ==> r == st.(buffer := r.buffer)
    ensures input.Some? && Receive(st.buffer, input.value).frame.Some? ==>
      r.serialMillis == now && r.readout.aoa != AOA_INVALID
      && r.readout == Decode(Receive(st.buffer, input.value).frame.value, toFloat, toInt).(aoa := r.readout.aoa)
  {
    if input.None? then st
    else
      var rx := Receive(st.buffer, input.value);
      if rx.frame.None? then st.(buffer := rx.buffer)
      else
        var out := Preprocess(Decode(rx.frame.value, toFloat, toInt), st.smoothed, st.filter);
        DisplayState(rx.buffer, out.0, out.1, out.2, now)
  }

  /** A character that completes no frame changes the buffer and nothing else. */
  lemma SerialReadQuiet(st: DisplayState, c: u8, now: int, toFloat: ToFloat, toInt: ToInt)
    requires FilterReady(st.filter) && Receive(st.buffer, c).frame.None?
    ensures SerialReadSpec(st, Some(c), now, toFloat, toInt) == st.(buffer := Receive(st.buffer, c).buffer)
  {
  }

  /** A character that completes a frame: the decoded and preprocessed values, stamped with the time. */
  lemma SerialReadFrame(st: DisplayState, c: u8, now: int, toFloat: ToFloat, toInt: ToInt,
                        frame: seq<u8>, out: (Readout, Smoothed, FilterState))
    requires FilterReady(st.filter) && Receive(st.buffer, c) == Received([], Some(frame))
    requires out == Preprocess(Decode(frame, toFloat, toInt), st.smoothed, st.filter)
    ensures SerialReadSpec(st, Some(c), now, toFloat, toInt) == DisplayState([], out.0, out.1, out.2, now)
  {
  }

  // ---------------------------------------------------------------------
  // The reader

  class Display {
    /** serialBufferString */
    var serialBuffer: seq<u8>
    var readout: Readout
    var smoothedLateralG: real
    var slip: int
    var smoothedAoa: real
    var decelRate: real
    var smoothedDecelRate: real
    var serialMillis: int
    const iasDerivative: SavGolM5.SavGolDerivative

    ghost predicate Valid()
      reads this, iasDerivative, iasDerivative.buffer
    {
      iasDerivative.Valid() && iasDerivative.windowSize == IAS_WINDOW && WellFormed(serialBuffer)
      && FilterReady(iasDerivative.State())
    }

    ghost function Smoothing(): Smoothed
      reads this
    {
      Smoothed(smoothedLateralG, slip, smoothedAoa, decelRate, smoothedDecelRate)
    }

    ghost function State(): DisplayState
      reads this, iasDerivative, iasDerivative.buffer
    {
      DisplayState(serialBuffer, readout, Smoothing(), iasDerivative.State(), serialMillis)
    }

    constructor ()
      ensures Valid() && fresh(iasDerivative) && fresh(iasDerivative.buffer)
      ensures State() == DisplayState([], ZeroReadout(), Smoothed(0.0, 0, 0.0, 0.0, 0.0), ResetState(), 0)
    {
      serialBuffer := [];
      readout := ZeroReadout();
      smoothedLateralG, slip, smoothedAoa, decelRate, smoothedDecelRate := 0.0, 0, 0.0, 0.0, 0.0;
      serialMillis := 0;
      iasDerivative := new SavGolM5.SavGolDerivative(IAS_WINDOW);
    }

    /** One call: at most one character from the port (None when nothing is waiting). */
    method SerialRead(input: Option<u8>, now: int, toFloat: ToFloat, toInt: ToInt)
      requires Valid()
      modifies this, iasDerivative, iasDerivative.buffer
      ensures Valid() && State() == SerialReadSpec(old(State()), input, now, toFloat, toInt)
    {
      if input.None? {
        return;
      }
      ReadChar(input.value, now, toFloat, toInt);
    }

    /** The body of SerialRead once a character is available. */
    method ReadChar(inChar: u8, now: int, toFloat: ToFloat, toInt: ToInt)
      requires Valid()
      modifies this, iasDerivative, iasDerivative.buffer
      ensures Valid() && State() == SerialReadSpec(old(State()), Some(inChar), now, toFloat, toInt)
    {
      ghost var st := State();
      if inChar == HASH {
        serialBuffer := [inChar];
        assert Receive(st.buffer, inChar) == Received(serialBuffer, None);
        assert State() == st.(buffer := serialBuffer);
        SerialReadQuiet(st, inChar, now, toFloat, toInt);
        return;
      }
      if |serialBuffer| > FRAME_LENGTH {
        serialBuffer := [];
        assert Receive(st.buffer, inChar) == Received(serialBuffer, None);
        assert State() == st.(buffer := serialBuffer);
        SerialReadQuiet(st, inChar, now, toFloat, toInt);
        return;
      }
      if |serialBuffer| == 0 {
        assert Receive(st.buffer, inChar) == Received(serialBuffer, None);
        assert State() == st.(buffer := serialBuffer);
        SerialReadQuiet(st, inChar, now, toFloat, toInt);
        return;
      }
      AppendChar(st, inChar, now, toFloat, toInt);
    }

    /** A character other than '#' joins a started frame of at most FRAME_LENGTH bytes. */
    method AppendChar(ghost st: DisplayState, inChar: u8, now: int, toFloat: ToFloat, toInt: ToInt)
      requires Valid() && State() == st && inChar != HASH && 0 < |serialBuffer| <= FRAME_LENGTH
      modifies this, iasDerivative, iasDerivative.buffer
      ensures Valid() && State() == SerialReadSpec(st, Some(inChar), now, toFloat, toInt)
    {
      serialBuffer := serialBuffer + [inChar];
      if |serialBuffer| == FRAME_LENGTH && serialBuffer[0] == HASH && serialBuffer[1] == EfisRecords.ONE && inChar == LF {
        var calcCrc := FrameChecksum(serialBuffer);
        var intact := calcCrc == ParseHexCRC(serialBuffer, CHECKSUM_END + 1);
        assert intact == ChecksumOk(serialBuffer, CHECKSUM_END);
        if intact {
          ReceiveAppended(st.buffer, inChar);
          FrameCompleted(st, inChar, now, toFloat, toInt);
          return;
        }
      }
      ReceiveAppended(st.buffer, inChar);
      assert State() == st.(buffer := serialBuffer);
      SerialReadQuiet(st, inChar, now, toFloat, toInt);
    }

    /** The character inChar completed the frame now in the buffer. */
    method FrameCompleted(ghost st: DisplayState, inChar: u8, now: int, toFloat: ToFloat, toInt: ToInt)
      requires Valid() && FilterReady(st.filter) && State() == st.(buffer := serialBuffer)
      requires Receive(st.buffer, inChar) == Received([], Some(serialBuffer))
      modifies this, iasDerivative, iasDerivative.buffer
      ensures Valid() && State() == SerialReadSpec(st, Some(inChar), now, toFloat, toInt)
    {
      ghost var frame := serialBuffer;
      AcceptFrame(now, toFloat, toInt);
      assert State() == DisplayState([], readout, Smoothing(), iasDerivative.State(), now);
      SerialReadFrame(st, inChar, now, toFloat, toInt, frame, (readout, Smoothing(), iasDerivative.State()));
    }

    /** A frame that passed its checksum: the fields are decoded, the buffer cleared, the values preprocessed. */
    method AcceptFrame(now: int, toFloat: ToFloat, toInt: ToInt)
      requires Valid() && |serialBuffer| >= PAYLOAD_END
      modifies this, iasDerivative, iasDerivative.buffer
      ensures Valid() && serialBuffer == [] && serialMillis == now
      ensures (readout, Smoothing(), iasDerivative.State())
        == Preprocess(Decode(old(serialBuffer), toFloat, toInt), old(Smoothing()), old(iasDerivative.State()))
    {
      readout := Decode(serialBuffer, toFloat, toInt);
      serialBuffer := [];
      SerialProcess();
      serialMillis := now;
    }

    /** SerialProcess on the fields of the class. */
    method SerialProcess()
      requires Valid()
      modifies this`readout, this`smoothedLateralG, this`slip, this`smoothedAoa, this`decelRate, this`smoothedDecelRate
      modifies iasDerivative, iasDerivative.buffer
      ensures Valid()
      ensures (readout, Smoothing(), iasDerivative.State()) == Preprocess(old(readout), old(Smoothing()), old(iasDerivative.State()))
    {
      if readout.aoa == AOA_INVALID {
        readout := readout.(aoa := 0.0);
      }
      smoothedLateralG := smoothedLateralG * SLIP_ALPHA + (1.0 - SLIP_ALPHA) * readout.lateralG;
      slip := Trunc(smoothedLateralG * 34.0 / 0.04);
      slip := ClampInt(slip, -SLIP_LIMIT, SLIP_LIMIT);
      smoothedAoa := smoothedAoa * AOA_ALPHA + (1.0 - AOA_ALPHA) * readout.aoa;
      decelRate := iasDerivative.Compute(readout.ias);
      decelRate := decelRate / SERIAL_RATE;
      smoothedDecelRate := decelRate * DECEL_ALPHA + smoothedDecelRate * (1.0 - DECEL_ALPHA);
    }
  }
}
