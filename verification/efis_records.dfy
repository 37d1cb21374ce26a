/**
 * What the EFIS reader takes out of one complete record: the text lines of
 * the Dynon SkyView and D10 and the Garmin G5 and G3X, the MGL binary
 * messages, and the VN-300 binary packet. Each decoder maps the record and
 * the previous flight data to the new flight data; the reader's state
 * machine (a separate module) decides when a record is complete.
 *
 * Decimal text fields go through `strtof`, which is a parameter here; the
 * C `float` arithmetic is modelled over `real`.
 */
module EfisRecords {
  import opened Wrappers
  import opened Numeric
  import opened EfisCodec
  import opened VnCrc16

  datatype EfisType = EfisNone | Vn300 | DynonSkyview | DynonD10 | GarminG5 | GarminG3X | MglBinary

  /** The flight data the reader publishes (suEfis), without its time-of-day text. */
  datatype EfisData = EfisData(
    decelRate: real, ias: real, pitch: real, roll: real, lateralG: real, verticalG: real,
    percentLift: int, palt: int, vsi: int, tas: real, oat: real,
    fuelRemaining: real, fuelFlow: real, manifoldPressure: real, rpm: int, percentPower: int,
    heading: int)

  /** The constructor's values: everything zero except the heading, which is -1 (unknown). */
  function InitialEfisData(): (d: EfisData)
    ensures d.heading == -1 && d.ias == 0.0 && d.palt == 0 && d.rpm == 0
  {
    EfisData(0.0, 0.0, 0.0, 0.0, 0.0, 0.0, 0, 0, 0, 0.0, 0.0, 0.0, 0.0, 0.0, 0, 0, -1)
  }

  /** The C library's decimal float conversion of a field, as an oracle. */
  type Strtof = seq<u8> -> real

  const BANG: u8 := 0x21    // '!'
  const EQUALS: u8 := 0x3D  // '='
  const ONE: u8 := 0x31     // '1'
  const THREE: u8 := 0x33   // '3'

  /** A field of n copies of the marker character. */
  function Marks(c: u8, n: nat): (s: seq<u8>)
    ensures |s| == n && forall i :: 0 <= i < n ==> s[i] == c
  {
    if n == 0 then [] else [c] + Marks(c, n - 1)
  }

  /** SkyView marks a missing value with X's. */
  function X(n: nat): Option<seq<u8>> { Some(Marks(0x58, n)) }
  /** Garmin marks a missing value with underscores. */
  function Blank(n: nat): Option<seq<u8>> { Some(Marks(0x5F, n)) }

  // ---------------------------------------------------------------------
  // Recognising a line

  /** The text records a type knows. */
  datatype RecordKind = SkyviewAdahrs | SkyviewEms | D10Line | GarminAttitude | G3xEngine

  /**
   * Which record a complete line (terminator included) is, for the
   * configured type: the length and the leading characters must both match.
   */
  function Recognise(t: EfisType, line: seq<u8>): (k: Option<RecordKind>)
    ensures k.Some? ==> |line| == RecordLength(k.value)
  {
    if t == DynonSkyview && |line| == 74 && line[0] == BANG && line[1] == ONE then Some(SkyviewAdahrs)
    else if t == DynonSkyview && |line| == 225 && line[0] == BANG && line[1] == THREE then Some(SkyviewEms)
    else if t == DynonD10 && |line| == 53 then Some(D10Line)
    else if (t == GarminG5 || t == GarminG3X) && |line| == 59 && line[0] == EQUALS && line[1] == ONE && line[2] == ONE then Some(GarminAttitude)
    else if t == GarminG3X && |line| == 221 && line[0] == EQUALS && line[1] == THREE && line[2] == ONE then Some(G3xEngine)
    else None
  }

  function RecordLength(k: RecordKind): int {
    match k
    case SkyviewAdahrs => 74
    case SkyviewEms => 225
    case D10Line => 53
    case GarminAttitude => 59
    case G3xEngine => 221
  }

  /** The last checksummed character; the two hex digits follow it. */
  function ChecksumEnd(k: RecordKind): (n: nat)
    ensures n + 3 <= RecordLength(k)
  {
    match k
    case SkyviewAdahrs => 69
    case SkyviewEms => 220
    case D10Line => 48
    case GarminAttitude => 54
    case G3xEngine => 216
  }

  // ---------------------------------------------------------------------
  // The record decoders

  /** SkyView ADAHRS ("!1"): every field has an X sentinel and a fallback. */
  function DecodeSkyviewAdahrs(d: EfisData, line: seq<u8>, strtof: Strtof): (r: EfisData)
    requires |line| == 74
    ensures r.fuelRemaining == d.fuelRemaining && r.fuelFlow == d.fuelFlow && r.rpm == d.rpm
    ensures r.decelRate == d.decelRate && r.manifoldPressure == d.manifoldPressure && r.percentPower == d.percentPower
    ensures r.ias == ParseFieldFloat(line, 23, 4, X(4), -1.0, 10.0, strtof)
    ensures r.palt == ParseFieldInt(line, 27, 6, X(6), -10000, 1)
  {
    d.(ias := ParseFieldFloat(line, 23, 4, X(4), -1.0, 10.0, strtof),
       pitch := ParseFieldFloat(line, 11, 4, X(4), -100.0, 10.0, strtof),
       roll := ParseFieldFloat(line, 15, 5, X(5), -180.0, 10.0, strtof),
       heading := ParseFieldInt(line, 20, 3, X(3), -1, 1),
       lateralG := ParseFieldFloat(line, 37, 3, X(3), -100.0, 100.0, strtof),
       verticalG := ParseFieldFloat(line, 40, 3, X(3), -100.0, 10.0, strtof),
       percentLift := ParseFieldInt(line, 43, 2, X(2), -1, 1),
       palt := ParseFieldInt(line, 27, 6, X(6), -10000, 1),
       vsi := ParseFieldInt(line, 45, 4, X(4), -10000, 10),
       tas := ParseFieldFloat(line, 52, 4, X(4), -1.0, 10.0, strtof),
       oat := ParseFieldFloat(line, 49, 3, X(3), -100.0, 1.0, strtof))
  }

  /** SkyView engine data ("!3"). */
  function DecodeSkyviewEms(d: EfisData, line: seq<u8>, strtof: Strtof): (r: EfisData)
    requires |line| == 225
    ensures r.ias == d.ias && r.pitch == d.pitch && r.roll == d.roll && r.heading == d.heading && r.palt == d.palt
  {
    d.(fuelRemaining := ParseFieldFloat(line, 44, 3, X(3), -1.0, 10.0, strtof),
       fuelFlow := ParseFieldFloat(line, 29, 3, X(3), -1.0, 10.0, strtof),
       manifoldPressure := ParseFieldFloat(line, 26, 3, X(3), -1.0, 10.0, strtof),
       rpm := ParseFieldInt(line, 18, 4, X(4), -1, 1),
       percentPower := ParseFieldInt(line, 217, 3, X(3), -1, 1))
  }

  /** The D10 status: the hex digit at column 46; bit 0 says pressure altitude and VSI are present. */
  function D10Status(line: seq<u8>): (s: int)
    requires |line| == 53
    ensures -16 < s < 16
  {
    StrtolBound([line[46]], 16);
    assert Pow(16, 1) == 16;
    Strtol([line[46]], 16)
  }

  /**
   * Dynon D10: no sentinels. IAS comes in m/s and is converted to knots;
   * altitude (m to ft) and VSI (ft/s to ft/min) are truncated to int and
   * taken only when status bit 0 is set.
   */
  function DecodeD10(d: EfisData, line: seq<u8>, strtof: Strtof): (r: EfisData)
    requires |line| == 53
    ensures D10Status(line) % 2 == 0 ==> r.palt == d.palt && r.vsi == d.vsi
    ensures D10Status(line) % 2 == 1 ==> r.palt == Trunc(ParseFieldFloat(line, 24, 5, None, 0.0, 1.0, strtof) * 3.28084)
    ensures r.ias == ParseFieldFloat(line, 20, 4, None, 0.0, 10.0, strtof) * 1.94384
  {
    var base := d.(ias := ParseFieldFloat(line, 20, 4, None, 0.0, 10.0, strtof) * 1.94384,
                   pitch := ParseFieldFloat(line, 8, 4, None, 0.0, 10.0, strtof),
                   roll := ParseFieldFloat(line, 12, 5, None, 0.0, 10.0, strtof),
                   lateralG := ParseFieldFloat(line, 33, 3, None, 0.0, 100.0, strtof),
                   verticalG := ParseFieldFloat(line, 36, 3, None, 0.0, 10.0, strtof),
                   percentLift := ParseFieldInt(line, 39, 2, None, 0, 1));
    if D10Status(line) % 2 == 1 then
      base.(palt := Trunc(ParseFieldFloat(line, 24, 5, None, 0.0, 1.0, strtof) * 3.28084),
            vsi := Trunc(ParseFieldFloat(line, 29, 4, None, 0.0, 10.0, strtof) * 60.0))
    else base
  }

  /** Garmin attitude ("=11"), for a G5 or (with percent lift and OAT) a G3X: blank fields keep the old value. */
  function DecodeGarminAttitude(d: EfisData, line: seq<u8>, g3x: bool, strtof: Strtof): (r: EfisData)
    requires |line| == 59
    ensures !g3x ==> r.percentLift == d.percentLift && r.oat == d.oat
    ensures r.tas == d.tas && r.rpm == d.rpm && r.fuelFlow == d.fuelFlow
  {
    var common := d.(ias := ParseFieldFloatKeep(d.ias, line, 23, 4, Blank(4), 10.0, strtof),
                     pitch := ParseFieldFloatKeep(d.pitch, line, 11, 4, Blank(4), 10.0, strtof),
                     roll := ParseFieldFloatKeep(d.roll, line, 15, 5, Blank(5), 10.0, strtof),
                     heading := ParseFieldIntKeep(d.heading, line, 20, 3, Blank(3), 1),
                     lateralG := ParseFieldFloatKeep(d.lateralG, line, 37, 3, Blank(3), 100.0, strtof),
                     verticalG := ParseFieldFloatKeep(d.verticalG, line, 40, 3, Blank(3), 10.0, strtof),
                     palt := ParseFieldIntKeep(d.palt, line, 27, 6, Blank(6), 1),
                     vsi := ParseFieldIntKeep(d.vsi, line, 45, 4, Blank(4), 10));
    if g3x then
      common.(percentLift := ParseFieldIntKeep(d.percentLift, line, 43, 2, Blank(2), 1),
              oat := ParseFieldFloatKeep(d.oat, line, 49, 3, Blank(3), 1.0, strtof))
    else common
  }

  /** G3X engine data ("=31"): blank fields keep the old value. */
  function DecodeG3xEngine(d: EfisData, line: seq<u8>, strtof: Strtof): (r: EfisData)
    requires |line| == 221
    ensures r.ias == d.ias && r.pitch == d.pitch && r.percentPower == d.percentPower
  {
    d.(fuelRemaining := ParseFieldFloatKeep(d.fuelRemaining, line, 44, 3, Blank(3), 10.0, strtof),
       fuelFlow := ParseFieldFloatKeep(d.fuelFlow, line, 29, 3, Blank(3), 10.0, strtof),
       manifoldPressure := ParseFieldFloatKeep(d.manifoldPressure, line, 26, 3, Blank(3), 10.0, strtof),
       rpm := ParseFieldIntKeep(d.rpm, line, 18, 4, Blank(4), 1))
  }

  /** The record decoder of a recognised line. */
  function DecodeRecord(k: RecordKind, d: EfisData, line: seq<u8>, t: EfisType, strtof: Strtof): EfisData
    requires |line| == RecordLength(k)
  {
    match k
    case SkyviewAdahrs => DecodeSkyviewAdahrs(d, line, strtof)
    case SkyviewEms => DecodeSkyviewEms(d, line, strtof)
    case D10Line => DecodeD10(d, line, strtof)
    case GarminAttitude => DecodeGarminAttitude(d, line, t == GarminG3X, strtof)
    case G3xEngine => DecodeG3xEngine(d, line, strtof)
  }

  /** The engine records do not touch the reception timestamp; the others do. */
  predicate Timestamped(k: RecordKind) {
    k != SkyviewEms && k != G3xEngine
  }

  /**
   * What a complete line does: a recognised record whose checksum holds is
   * decoded (and, except for the engine records, stamps the time); anything
   * else leaves the flight data as it was.
   */
  function DispatchLine(t: EfisType, line: seq<u8>, d: EfisData, strtof: Strtof): (r: (EfisData, bool))
    ensures r.1 ==> Recognise(t, line).Some? && Timestamped(Recognise(t, line).value)
  {
    var k := Recognise(t, line);
    if k.None? then (d, false)
    else if !ChecksumOk(line, ChecksumEnd(k.value)) then (d, false)
    else (DecodeRecord(k.value, d, line, t, strtof), Timestamped(k.value))
  }

  /** A recognised line whose checksum holds is decoded. */
  lemma DispatchLineAccepted(t: EfisType, line: seq<u8>, d: EfisData, strtof: Strtof, k: RecordKind)
    requires Recognise(t, line) == Some(k) && ChecksumOk(line, ChecksumEnd(k))
    ensures DispatchLine(t, line, d, strtof) == (DecodeRecord(k, d, line, t, strtof), Timestamped(k))
  {
  }

  /** Any other line leaves the flight data as it was. */
  lemma DispatchLineRejected(t: EfisType, line: seq<u8>, d: EfisData, strtof: Strtof)
    requires Recognise(t, line).None? || !ChecksumOk(line, ChecksumEnd(Recognise(t, line).value))
    ensures DispatchLine(t, line, d, strtof) == (d, false)
  {
  }

  /** Flight data changes only through a recognised line whose checksum holds. */
  lemma DispatchNeedsValidChecksum(t: EfisType, line: seq<u8>, d: EfisData, strtof: Strtof)
    requires DispatchLine(t, line, d, strtof) != (d, false)
    ensures Recognise(t, line).Some?
    ensures ChecksumOk(line, ChecksumEnd(Recognise(t, line).value))
  {
  }

  /**
   * A line that was sent with a correct checksum and then had one checksummed
   * character corrupted (leaving its kind unchanged) is dropped whole.
   */
  lemma CorruptedLineDropped(t: EfisType, line: seq<u8>, i: nat, c: u8, d: EfisData, strtof: Strtof)
    requires Recognise(t, line).Some?
    requires ChecksumOk(line, ChecksumEnd(Recognise(t, line).value))
    requires i <= ChecksumEnd(Recognise(t, line).value) && c != line[i]
    requires Recognise(t, line[i := c]) == Recognise(t, line)
    ensures DispatchLine(t, line[i := c], d, strtof) == (d, false)
  {
    var n := ChecksumEnd(Recognise(t, line).value);
    SingleByteErrorDetected(line, n, i, c);
    assert line[i := c][n + 1] == line[n + 1] && line[i := c][n + 2] == line[n + 2];
  }

  /** A D10 line whose status bit 0 is clear leaves pressure altitude and VSI as they were. */
  lemma D10KeepsAltitudeWithoutStatus(d: EfisData, line: seq<u8>, strtof: Strtof)
    requires |line| == 53 && D10Status(line) % 2 == 0
    ensures DecodeD10(d, line, strtof).palt == d.palt && DecodeD10(d, line, strtof).vsi == d.vsi
  {
  }

  /** A Garmin attitude line whose fields are all blank changes nothing. */
  lemma GarminBlankLineKeepsAll(d: EfisData, line: seq<u8>, g3x: bool, strtof: Strtof)
    requires |line| == 59
    requires line[11..15] == Marks(0x5F, 4) && line[15..20] == Marks(0x5F, 5) && line[20..23] == Marks(0x5F, 3)
    requires line[23..27] == Marks(0x5F, 4) && line[27..33] == Marks(0x5F, 6) && line[37..40] == Marks(0x5F, 3)
    requires line[40..43] == Marks(0x5F, 3) && line[43..45] == Marks(0x5F, 2) && line[45..49] == Marks(0x5F, 4)
    requires line[49..52] == Marks(0x5F, 3)
    ensures DecodeGarminAttitude(d, line, g3x, strtof) == d
  {
  }

  /** A SkyView ADAHRS line whose fields are all X's yields every fallback. */
  lemma SkyviewBlankLineFallbacks(d: EfisData, line: seq<u8>, strtof: Strtof)
    requires |line| == 74
    requires line[11..15] == Marks(0x58, 4) && line[15..20] == Marks(0x58, 5) && line[20..23] == Marks(0x58, 3)
    requires line[23..27] == Marks(0x58, 4) && line[27..33] == Marks(0x58, 6) && line[37..40] == Marks(0x58, 3)
    requires line[40..43] == Marks(0x58, 3) && line[43..45] == Marks(0x58, 2) && line[45..49] == Marks(0x58, 4)
    requires line[49..52] == Marks(0x58, 3) && line[52..56] == Marks(0x58, 4)
    ensures var r := DecodeSkyviewAdahrs(d, line, strtof);
      && r.ias == -1.0 && r.pitch == -100.0 && r.roll == -180.0 && r.heading == -1
      && r.lateralG == -100.0 && r.verticalG == -100.0 && r.percentLift == -1
      && r.palt == -10000 && r.vsi == -10000 && r.tas == -1.0 && r.oat == -100.0
  {
  }

  // ---------------------------------------------------------------------
  // MGL binary messages

  /** Knots per tenth of a km/h. */
  const KMH10_TO_KNOTS: real := 0.05399565

  /**
   * A complete MGL message of `count` bytes: a primary flight message (type 1)
   * is decoded only when exactly 44 bytes long, an attitude message (type 3)
   * only when exactly 40; anything else changes nothing. The CRC32 at the end
   * is never looked at. The flag says whether the timestamp is renewed.
   */
  function DecodeMgl(d: EfisData, buf: seq<u8>, count: int): (r: (EfisData, bool))
    requires |buf| >= 44
    ensures r.1 <==> (buf[4] == 1 && count == 44) || (buf[4] == 3 && count == 40)
    ensures !r.1 ==> r.0 == d
  {
    if buf[4] == 1 && count == 44 then
      (d.(palt := I32Le(buf, 8),
          ias := U16Le(buf, 16) as real * KMH10_TO_KNOTS,
          tas := U16Le(buf, 18) as real * KMH10_TO_KNOTS,
          percentLift := I16Le(buf, 20),
          vsi := I16Le(buf, 22),
          oat := I16Le(buf, 28) as real), true)
    else if buf[4] == 3 && count == 40 then
      (d.(heading := Trunc(U16Le(buf, 8) as real * 0.1),
          pitch := I16Le(buf, 10) as real * 0.1,
          roll := I16Le(buf, 12) as real * 0.1,
          verticalG := I16Le(buf, 20) as real * 0.01,
          lateralG := I16Le(buf, 22) as real * 0.01), true)
    else (d, false)
  }

  /** The decoded values depend only on bytes 4..29 of the message: the checksum and the rest are ignored. */
  lemma MglDecodeIgnoresChecksum(d: EfisData, buf: seq<u8>, other: seq<u8>, count: int)
    requires |buf| >= 44 && |other| >= 44 && buf[4..30] == other[4..30]
    ensures DecodeMgl(d, buf, count) == DecodeMgl(d, other, count)
  {
    assert buf[4] == other[4];
    forall i | 8 <= i < 30
      ensures buf[i] == other[i]
    {
      assert buf[i] == buf[4..30][i - 4];
    }
  }

  /** The attitude heading is tenths of a degree truncated to whole degrees. */
  lemma MglHeadingIsWholeDegrees(d: EfisData, buf: seq<u8>)
    requires |buf| >= 44 && buf[4] == 3
    ensures DecodeMgl(d, buf, 40).0.heading == U16Le(buf, 8) / 10
  {
    var h := U16Le(buf, 8);
    var q, m := h / 10, h % 10;
    var r := h as real * 0.1;
    assert r == q as real + m as real / 10.0;
    TruncBounds(r);
    var t := Trunc(r);
    assert q as real <= r < q as real + 1.0;
    assert t as real <= r < t as real + 1.0;
  }

  // ---------------------------------------------------------------------
  // VN-300 packets

  /** The 8 header bytes the reader accepts: sync, groups 1, 4 and 5, and their field masks. */
  const VN_HEADER: seq<u8> := [0xFA, 0x19, 0xE0, 0x01, 0x91, 0x00, 0x42, 0x01]
  const VN_PACKET_SIZE: int := 127

  /** A complete packet passes when its header is the expected one and the CRC over bytes 1..126 is 0. */
  predicate VnPacketValid(packet: seq<u8>)
    requires |packet| == VN_PACKET_SIZE
  {
    packet[..8] == VN_HEADER && VnCrc(packet[1..]) == 0
  }

  /** The packet a VN-300 sends for a 117-byte payload: header, payload, CRC of everything after the sync byte. */
  function VnPacket(payload: seq<u8>): (p: seq<u8>)
    requires |payload| == 117
    ensures |p| == VN_PACKET_SIZE && p[..8] == VN_HEADER && p[8..125] == payload
  {
    var body := VN_HEADER[1..] + payload;
    [VN_HEADER[0]] + body + CrcBytes(VnCrc(body))
  }

  /** Every packet the sender builds passes the reader's checks. */
  lemma VnPacketAccepted(payload: seq<u8>)
    requires |payload| == 117
    ensures VnPacketValid(VnPacket(payload))
  {
    var body := VN_HEADER[1..] + payload;
    var p := VnPacket(payload);
    assert p[1..] == body + CrcBytes(VnCrc(body));
    CrcAppendResidue(body);
  }

  /** What the reader keeps of an accepted packet (suVN300): the bytes, and the GPS fix byte. */
  datatype Vn300Data = Vn300Data(packet: seq<u8>, gpsFix: u8)

  function DecodeVn(packet: seq<u8>): (r: Vn300Data)
    requires |packet| == VN_PACKET_SIZE
    ensures r.gpsFix == packet[76] && r.packet == packet
  {
    Vn300Data(packet, packet[76])
  }
}
