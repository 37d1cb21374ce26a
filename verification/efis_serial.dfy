/**
 * The EFIS serial reader (EfisSerialIO): one receive state and three
 * byte-at-a-time framing machines, one per wire format. VN-300 binary packets
 * are synchronised on the byte pair FA 19 and checked by header and CRC; MGL
 * binary messages are synchronised on DLE STX and sized by a length byte
 * guarded by its complement; every other type reads lines ended by LF, which
 * are checked by an additive checksum and decoded by EfisRecords.
 *
 * Each machine is a function from the reader's state and one byte to the next
 * state. The class runs the same steps in place on its two arrays and its
 * fields, and its Read method consumes the waiting bytes under the per-call
 * budgets. The UART is a sequence of waiting bytes and `millis()` a parameter.
 */
module EfisSerial {
  import opened Numeric
  import opened EfisCodec
  import opened VnCrc16
  import opened EfisRecords

  /** Bytes one Read may take in the VN-300 and text branches. */
  const EFIS_PACKET_SIZE: int := 512
  /** Bytes one Read may take in the MGL branch. */
  const MGL_READ_BUDGET: int := 100
  /** A line already longer than this is discarded before the next character is stored. */
  const LINE_LIMIT: int := 230
  /** The smallest line buffer the reader's indexing needs: the store at 230 and the terminator at 231. */
  const MIN_LINE_BUFFER: int := 232

  /** The reader's state as a value: the binary buffer and its framing, the line buffer and its framing, the outputs. */
  datatype Rx = Rx(
    buffer: seq<u8>, bufferIndex: int, inProgress: bool, prevInByte: u8, mglMsgLen: int,
    line: seq<u8>, lineLen: int, prevInChar: u8,
    efis: EfisData, vn: Vn300Data, timestamp: int)

  /** What every step needs: buffers large enough for the reader's fixed indexing, indexes not negative. */
  predicate Ready(s: Rx) {
    |s.buffer| >= VN_PACKET_SIZE && |s.line| >= MIN_LINE_BUFFER && 0 <= s.bufferIndex && 0 <= s.lineLen
  }

  // ---------------------------------------------------------------------
  // VN-300 framing

  predicate VnSync(s: Rx, b: u8) { b == 0x19 && s.prevInByte == 0xFA }

  /**
   * One VN-300 byte. FA 19 restarts the packet. Otherwise the byte is
   * appended while a packet is in progress and short of 127 bytes; the 127th
   * byte ends the packet, which is decoded if its header and CRC hold and
   * dropped if not. The restart and the drops leave the previous byte as it
   * was; every other path records this byte as the previous one.
   */
  function VnStep(s: Rx, b: u8, now: int): (r: Rx)
    requires Ready(s)
    ensures Ready(r) && |r.buffer| == |s.buffer|
    ensures r.line == s.line && r.lineLen == s.lineLen && r.prevInChar == s.prevInChar
    ensures r.efis == s.efis && r.mglMsgLen == s.mglMsgLen
  {
    if VnSync(s, b) then VnRestart(s)
    else
      var t := VnAppend(s, b);
      if t.bufferIndex == VN_PACKET_SIZE && t.inProgress then VnFinish(t, b, now)
      else t.(prevInByte := b)
  }

  /** The sync pair: the buffer holds FA 19 and the next byte goes to index 2. */
  function VnRestart(s: Rx): (r: Rx)
    requires Ready(s)
    ensures Ready(r) && |r.buffer| == |s.buffer|
  {
    s.(buffer := s.buffer[0 := 0xFA][1 := 0x19], bufferIndex := 2, inProgress := true)
  }

  /** A byte is stored only inside a packet that is not yet full. */
  function VnAppend(s: Rx, b: u8): (r: Rx)
    requires Ready(s)
    ensures Ready(r) && |r.buffer| == |s.buffer|
  {
    if s.bufferIndex < VN_PACKET_SIZE && s.inProgress
    then s.(buffer := s.buffer[s.bufferIndex := b], bufferIndex := s.bufferIndex + 1)
    else s
  }

  /** A full packet is decoded and stamped when it passes, dropped (keeping the previous byte) when not. */
  function VnFinish(t: Rx, b: u8, now: int): (r: Rx)
    requires Ready(t)
    ensures Ready(r) && |r.buffer| == |t.buffer| && !r.inProgress
  {
    if VnPacketValid(t.buffer[..VN_PACKET_SIZE]) then
      t.(vn := DecodeVn(t.buffer[..VN_PACKET_SIZE]), timestamp := now, inProgress := false, prevInByte := b)
    else
      t.(inProgress := false)
  }

  function VnRun(s: Rx, bytes: seq<u8>, now: int): (r: Rx)
    requires Ready(s)
    ensures Ready(r) && |r.buffer| == |s.buffer| && r.line == s.line && r.lineLen == s.lineLen
    ensures r.efis == s.efis
    decreases |bytes|
  {
    if bytes == [] then s else VnRun(VnStep(s, bytes[0], now), bytes[1..], now)
  }

  /** FA 19 restarts the packet from any state, keeping only the two sync bytes. */
  lemma VnSyncRestarts(s: Rx, now: int)
    requires Ready(s) && s.prevInByte == 0xFA
    ensures var r := VnStep(s, 0x19, now);
      && r.inProgress && r.bufferIndex == 2 && r.buffer[..2] == [0xFA, 0x19]
      && r.prevInByte == 0xFA && r.vn == s.vn && r.timestamp == s.timestamp
  {
  }

  /** Outside a packet, any byte but the second sync byte only becomes the previous byte. */
  lemma VnIdleIgnoresBytes(s: Rx, b: u8, now: int)
    requires Ready(s) && !s.inProgress && !VnSync(s, b)
    ensures VnStep(s, b, now) == s.(prevInByte := b)
  {
  }

  /** The FA 19 pair never occurs inside a packet after its own sync pair. */
  predicate NoSyncPairInside(packet: seq<u8>)
    requires |packet| == VN_PACKET_SIZE
  {
    forall j :: 2 <= j < VN_PACKET_SIZE - 1 ==> !(packet[j] == 0xFA && packet[j + 1] == 0x19)
  }

  /** The reader after the first k bytes of a packet: all of them buffered, none checked yet. */
  predicate VnGathering(s: Rx, packet: seq<u8>, k: int)
    requires |packet| == VN_PACKET_SIZE
  {
    && 2 <= k < VN_PACKET_SIZE && Ready(s) && s.inProgress && s.bufferIndex == k
    && s.buffer[..k] == packet[..k] && s.prevInByte == (if k == 2 then 0xFA else packet[k - 1])
  }

  lemma {:induction false} VnGatherRest(s: Rx, packet: seq<u8>, k: int, now: int)
    requires |packet| == VN_PACKET_SIZE && packet[..8] == VN_HEADER && VnPacketValid(packet)
    requires NoSyncPairInside(packet) && VnGathering(s, packet, k)
    ensures var r := VnRun(s, packet[k..], now);
      && r.vn == DecodeVn(packet) && r.timestamp == now && !r.inProgress && r.prevInByte == packet[VN_PACKET_SIZE - 1]
    decreases VN_PACKET_SIZE - k
  {
    var b := packet[k];
    assert packet[k..][0] == b && packet[k..][1..] == packet[k + 1..];
    if k == 2 {
      assert packet[2] == VN_HEADER[2];
    } else {
      assert !(packet[k - 1] == 0xFA && packet[k] == 0x19);
    }
    assert !VnSync(s, b);
    var s1 := VnStep(s, b, now);
    assert s1.buffer == s.buffer[k := b];
    PrefixExtend(s.buffer, packet, k);
    if k + 1 < VN_PACKET_SIZE {
      assert VnGathering(s1, packet, k + 1);
      VnGatherRest(s1, packet, k + 1, now);
    } else {
      assert s1.buffer[..VN_PACKET_SIZE] == packet;
      assert packet[k + 1..] == [];
    }
  }

  /**
   * A packet whose header and CRC hold, fed whole to a reader between packets,
   * is decoded and stamped, provided FA 19 does not reappear inside it: the
   * reader has no escaping, so such a pair would restart the packet.
   */
  lemma VnPacketReceived(s: Rx, packet: seq<u8>, now: int)
    requires Ready(s) && !s.inProgress
    requires |packet| == VN_PACKET_SIZE && VnPacketValid(packet) && NoSyncPairInside(packet)
    ensures var r := VnRun(s, packet, now);
      && r.vn == DecodeVn(packet) && r.timestamp == now && !r.inProgress && r.efis == s.efis
  {
    assert packet[0] == 0xFA && packet[1] == 0x19 by { assert packet[..8] == VN_HEADER; }
    var s1 := VnStep(s, packet[0], now);
    assert s1 == s.(prevInByte := 0xFA);
    var s2 := VnStep(s1, packet[1], now);
    assert s2.buffer[..2] == packet[..2];
    assert VnGathering(s2, packet, 2);
    assert packet[1..][1..] == packet[2..];
    VnGatherRest(s2, packet, 2, now);
  }

  /** Every packet a VN-300 builds for a payload free of the sync pair is received. */
  lemma VnSentPacketReceived(s: Rx, payload: seq<u8>, now: int)
    requires Ready(s) && !s.inProgress && |payload| == 117 && NoSyncPairInside(VnPacket(payload))
    ensures VnRun(s, VnPacket(payload), now).vn == DecodeVn(VnPacket(payload))
  {
    VnPacketAccepted(payload);
    VnPacketReceived(s, VnPacket(payload), now);
  }

  /**
   * A dropped packet keeps the previous byte: when a packet one byte short
   * absorbs the FA that begins the next packet and fails its checks, the FA
   * is not remembered, so the 19 after it does not start the next packet.
   */
  lemma VnDropMissesNextSync(s: Rx, now: int)
    requires Ready(s) && s.inProgress && s.bufferIndex == VN_PACKET_SIZE - 1 && s.prevInByte != 0xFA
    requires !VnPacketValid(s.buffer[VN_PACKET_SIZE - 1 := 0xFA][..VN_PACKET_SIZE])
    ensures var r := VnRun(s, [0xFA, 0x19], now);
      && !r.inProgress && r.prevInByte == 0x19 && r.vn == s.vn && r.timestamp == s.timestamp
  {
    var s1 := VnStep(s, 0xFA, now);
    assert s1.prevInByte == s.prevInByte && !s1.inProgress;
    assert [0xFA, 0x19][1..] == [0x19];
  }

  // ---------------------------------------------------------------------
  // MGL framing

  /**
   * One MGL byte; the flag says a complete message was handed to the decoder.
   * DLE then STX start a message (a wrong STX starts over); the length byte
   * and its check byte follow, and a length that fails its check starts
   * over; the rest is stored while the buffer has room. Once the expected
   * length is reached the message is decoded and the index returns to 0.
   */
  function MglStep(s: Rx, b: u8, now: int): (r: (Rx, bool))
    requires Ready(s)
    ensures Ready(r.0) && |r.0.buffer| == |s.buffer| && r.0.line == s.line && r.0.lineLen == s.lineLen
    ensures r.0.vn == s.vn && r.0.prevInChar == s.prevInChar
    ensures r.1 ==> r.0.bufferIndex == 0
  {
    var t := MglFrame(s, b);
    if t.bufferIndex > 3 && t.bufferIndex >= t.mglMsgLen then (MglDecode(t, now), true) else (t, false)
  }

  /** The framing part of one MGL byte: sync, length check, and storing. */
  function MglFrame(s: Rx, b: u8): (r: Rx)
    requires Ready(s)
    ensures Ready(r) && |r.buffer| == |s.buffer| && r.line == s.line && r.lineLen == s.lineLen
    ensures r.efis == s.efis && r.timestamp == s.timestamp && r.vn == s.vn && r.prevInChar == s.prevInChar
  {
    var i := s.bufferIndex;
    if i == 0 then
      (if b == MGL_DLE then s.(buffer := s.buffer[0 := b], bufferIndex := 1) else s)
    else if i == 1 then
      (if b == MGL_STX then s.(buffer := s.buffer[1 := b], bufferIndex := 2) else s.(bufferIndex := 0))
    else if i == 2 || i == 3 then
      MglLengthByte(s.(buffer := s.buffer[i := b], bufferIndex := i + 1))
    else if i < s.mglMsgLen then
      s.(buffer := if i < |s.buffer| then s.buffer[i := b] else s.buffer, bufferIndex := i + 1)
    else
      s
  }

  /** After the check byte: a length that fails its check starts over, a good one sets the expected length. */
  function MglLengthByte(u: Rx): (r: Rx)
    requires Ready(u)
    ensures Ready(r) && r.buffer == u.buffer && r.efis == u.efis && r.timestamp == u.timestamp
  {
    if u.bufferIndex != 4 then u
    else if !MglLengthOk(u.buffer[2], u.buffer[3]) then u.(bufferIndex := 0)
    else u.(mglMsgLen := MglExpectedLength(u.buffer[2]))
  }

  /** A complete message goes to the decoder and the index returns to 0. */
  function MglDecode(t: Rx, now: int): (r: Rx)
    requires Ready(t)
    ensures Ready(r) && r.buffer == t.buffer && r.bufferIndex == 0 && r.line == t.line && r.lineLen == t.lineLen
    ensures r.vn == t.vn && r.prevInChar == t.prevInChar
  {
    var (e, stamped) := DecodeMgl(t.efis, t.buffer, t.bufferIndex);
    t.(efis := e, timestamp := if stamped then now else t.timestamp, bufferIndex := 0)
  }

  /** The MGL branch of one Read: the state, the index of the first byte not taken, and whether it ended on a decoded message. */
  datatype MglResult = MglResult(state: Rx, next: nat, decoded: bool)

  /**
   * The MGL branch of one Read over `bytes[from..limit]`: one byte at a time,
   * stopping right after the byte that completes a message. It stops short of
   * `limit` only when the input runs out or a message was decoded.
   */
  function MglRead(s: Rx, bytes: seq<u8>, from: nat, limit: nat, now: int): (r: MglResult)
    requires Ready(s) && from <= |bytes| && from <= limit
    ensures Ready(r.state) && |r.state.buffer| == |s.buffer| && r.state.line == s.line && r.state.lineLen == s.lineLen
    ensures from <= r.next <= |bytes| && r.next <= limit
    ensures r.decoded || r.next == Min(|bytes|, limit)
    ensures r.decoded ==> r.next > from && r.state.bufferIndex == 0
    decreases limit - from
  {
    if from == |bytes| || from == limit then MglResult(s, from, false)
    else
      var (s1, decoded) := MglStep(s, bytes[from], now);
      if decoded then MglResult(s1, from + 1, true)
      else MglRead(s1, bytes, from + 1, limit, now)
  }

  /** The loop form of the MGL branch: the outcome seen from one byte further on. */
  lemma MglReadAdvance(total: MglResult, s: Rx, bytes: seq<u8>, from: nat, limit: nat, now: int, s1: Rx, decoded: bool)
    requires Ready(s) && from < |bytes| && from < limit
    requires s1 == MglStep(s, bytes[from], now).0 && decoded == MglStep(s, bytes[from], now).1
    requires total == MglRead(s, bytes, from, limit, now)
    ensures decoded ==> total == MglResult(s1, from + 1, true)
    ensures !decoded ==> total == MglRead(s1, bytes, from + 1, limit, now)
  {}

  /** With the input or the limit reached, the MGL branch takes nothing more. */
  lemma MglReadExhausted(s: Rx, bytes: seq<u8>, from: nat, limit: nat, now: int)
    requires Ready(s) && from <= |bytes| && from <= limit && (from == |bytes| || from == limit)
    ensures MglRead(s, bytes, from, limit, now) == MglResult(s, from, false)
  {}

  /** A second byte other than STX drops the sync. */
  lemma MglWrongStxResyncs(s: Rx, b: u8, now: int)
    requires Ready(s) && s.bufferIndex == 1 && b != MGL_STX
    ensures MglStep(s, b, now) == (s.(bufferIndex := 0), false)
  {
  }

  /** A check byte that is not the complement of the length byte drops the message. */
  lemma MglBadLengthResyncs(s: Rx, b: u8, now: int)
    requires Ready(s) && s.bufferIndex == 3 && s.buffer[2] as int + b as int != 0xFF
    ensures MglStep(s, b, now).0.bufferIndex == 0 && !MglStep(s, b, now).1
    ensures MglStep(s, b, now).0.efis == s.efis && MglStep(s, b, now).0.mglMsgLen == s.mglMsgLen
  {
    MglLengthOkIsComplement(s.buffer[2], b);
  }

  /** The reader after the first k bytes of a well-formed message, none of them decoded. */
  predicate MglGathering(s: Rx, msg: seq<u8>, k: int)
    requires 4 <= |msg|
  {
    && 0 <= k < |msg| <= |s.buffer| && Ready(s) && s.bufferIndex == k && s.buffer[..k] == msg[..k]
    && (k >= 4 ==> s.mglMsgLen == |msg|)
  }

  predicate WellFormedMgl(msg: seq<u8>) {
    && 4 <= |msg| && msg[0] == MGL_DLE && msg[1] == MGL_STX
    && msg[2] as int + msg[3] as int == 0xFF && |msg| == MglExpectedLength(msg[2])
  }

  /** Storing the next byte of a message extends the buffered prefix by that byte. */
  lemma PrefixExtend(a: seq<u8>, m: seq<u8>, k: int)
    requires 0 <= k < |a| && k < |m| && a[..k] == m[..k]
    ensures a[k := m[k]][..k + 1] == m[..k + 1]
  {
    forall i | 0 <= i < k + 1
      ensures a[k := m[k]][i] == m[i]
    {
      if i < k {
        assert a[..k][i] == m[..k][i];
      }
    }
  }

  /** Each byte of a well-formed message is stored at the next index; the check byte sets the expected length. */
  lemma MglFrameGathers(s: Rx, msg: seq<u8>, k: int)
    requires WellFormedMgl(msg) && MglGathering(s, msg, k)
    ensures var t := MglFrame(s, msg[k]);
      && t.bufferIndex == k + 1 && t.buffer == s.buffer[k := msg[k]]
      && t.efis == s.efis && t.timestamp == s.timestamp
      && (k >= 3 ==> t.mglMsgLen == |msg|)
  {
    if k == 3 {
      MglLengthOkIsComplement(msg[2], msg[3]);
    }
  }

  lemma MglGatherStep(s: Rx, msg: seq<u8>, k: int, now: int, s1: Rx, decoded: bool)
    requires WellFormedMgl(msg) && MglGathering(s, msg, k) && MglStep(s, msg[k], now) == (s1, decoded)
    ensures decoded <==> k + 1 == |msg|
    ensures decoded ==> && s1.bufferIndex == 0 && s1.buffer[..|msg|] == msg
                        && s1.efis == DecodeMgl(s.efis, s1.buffer, |msg|).0
                        && s1.timestamp == (if DecodeMgl(s.efis, s1.buffer, |msg|).1 then now else s.timestamp)
    ensures !decoded ==> MglGathering(s1, msg, k + 1) && s1.efis == s.efis && s1.timestamp == s.timestamp
  {
    MglFrameGathers(s, msg, k);
    PrefixExtend(s.buffer, msg, k);
    if k + 1 == |msg| {
      assert msg[..k + 1] == msg;
    }
  }

  lemma {:induction false} MglGatherRest(s: Rx, msg: seq<u8>, rest: seq<u8>, k: int, limit: nat, now: int)
    returns (r: MglResult)
    requires WellFormedMgl(msg) && MglGathering(s, msg, k) && |msg| <= limit
    ensures r == MglRead(s, msg + rest, k, limit, now)
    ensures r.next == |msg| && r.decoded && r.state.buffer[..|msg|] == msg
    ensures r.state.efis == DecodeMgl(s.efis, r.state.buffer, |msg|).0
    ensures r.state.timestamp == (if DecodeMgl(s.efis, r.state.buffer, |msg|).1 then now else s.timestamp)
    decreases |msg| - k
  {
    assert (msg + rest)[k] == msg[k];
    var step := MglStep(s, msg[k], now);
    MglGatherStep(s, msg, k, now, step.0, step.1);
    r := MglRead(s, msg + rest, k, limit, now);
    if step.1 {
      assert r == MglResult(step.0, k + 1, true);
    } else {
      var r1 := MglGatherRest(step.0, msg, rest, k + 1, limit, now);
      assert r == r1;
    }
  }

  /**
   * A well-formed message that fits the buffer, arriving at a reader waiting
   * for DLE, is decoded when its last byte arrives, and the Read stops there:
   * whatever follows it stays for the next Read.
   */
  lemma MglMessageReceived(s: Rx, msg: seq<u8>, rest: seq<u8>, now: int)
    requires Ready(s) && s.bufferIndex == 0 && WellFormedMgl(msg) && |msg| <= |s.buffer|
    requires |msg| <= MGL_READ_BUDGET
    ensures MglRead(s, msg + rest, 0, MGL_READ_BUDGET, now).next == |msg|
    ensures MglRead(s, msg + rest, 0, MGL_READ_BUDGET, now).decoded
    ensures MglRead(s, msg + rest, 0, MGL_READ_BUDGET, now).state.bufferIndex == 0
    ensures MglRead(s, msg + rest, 0, MGL_READ_BUDGET, now).state.buffer[..|msg|] == msg
    ensures MglRead(s, msg + rest, 0, MGL_READ_BUDGET, now).state.efis
      == DecodeMgl(s.efis, MglRead(s, msg + rest, 0, MGL_READ_BUDGET, now).state.buffer, |msg|).0
  {
    assert MglGathering(s, msg, 0);
    var r := MglGatherRest(s, msg, rest, 0, MGL_READ_BUDGET, now);
  }

  // ---------------------------------------------------------------------
  // Text framing

  /** What the reader does with a complete line: the new flight data, and whether it stamps the time. */
  type LineHandler = (seq<u8>, EfisData) -> (EfisData, bool)

  /** The reader's line handler for a configured type: recognise, check, decode. */
  function Dispatcher(t: EfisType, strtof: Strtof): LineHandler {
    (line: seq<u8>, d: EfisData) => DispatchLine(t, line, d, strtof)
  }

  /**
   * One text character. A line already past the limit is discarded first.
   * Characters are stored only inside a line, that is once the previous
   * character was LF or the line is not empty; an LF ends the line, which is
   * terminated, dispatched, and cleared.
   */
  function TextStep(s: Rx, c: u8, dispatch: LineHandler, now: int): (r: Rx)
    requires Ready(s)
    ensures Ready(r) && |r.line| == |s.line| && r.buffer == s.buffer && r.bufferIndex == s.bufferIndex
    ensures r.lineLen <= LINE_LIMIT + 1 && r.prevInChar == c && r.vn == s.vn
  {
    var len := if s.lineLen > LINE_LIMIT then 0 else s.lineLen;
    if len > 0 || s.prevInChar == LF then
      var stored := s.(line := s.line[len := c], lineLen := len + 1);
      (if c == LF then LineEnd(stored, dispatch, now) else stored).(prevInChar := c)
    else
      s.(lineLen := len, prevInChar := c)
  }

  /** A character that is stored: the line grows by it, and a line feed ends the line. */
  lemma TextStepStores(s: Rx, c: u8, dispatch: LineHandler, now: int, len: int, stored: Rx, mid: Rx)
    requires Ready(s) && len == (if s.lineLen > LINE_LIMIT then 0 else s.lineLen) && (len > 0 || s.prevInChar == LF)
    requires stored == s.(line := s.line[len := c], lineLen := len + 1)
    requires mid == if c == LF then LineEnd(stored, dispatch, now) else stored
    ensures TextStep(s, c, dispatch, now) == mid.(prevInChar := c)
  {}

  /** A character that is not stored leaves the line as it was, emptied if it had overflowed. */
  lemma TextStepSkips(s: Rx, c: u8, dispatch: LineHandler, now: int, len: int)
    requires Ready(s) && len == (if s.lineLen > LINE_LIMIT then 0 else s.lineLen) && !(len > 0 || s.prevInChar == LF)
    ensures TextStep(s, c, dispatch, now) == s.(lineLen := len, prevInChar := c)
  {}

  /** The end of a line: terminate it, dispatch it, and empty the buffer. */
  function LineEnd(s: Rx, dispatch: LineHandler, now: int): (r: Rx)
    requires Ready(s) && 1 <= s.lineLen < |s.line|
    ensures Ready(r) && |r.line| == |s.line| && r.buffer == s.buffer && r.bufferIndex == s.bufferIndex
    ensures r.lineLen == 0 && r.vn == s.vn
  {
    var terminated := s.line[s.lineLen := NUL];
    var (e, stamped) := dispatch(terminated[..s.lineLen], s.efis);
    s.(line := terminated, lineLen := 0, efis := e, timestamp := if stamped then now else s.timestamp)
  }

  function TextRun(s: Rx, chars: seq<u8>, dispatch: LineHandler, now: int): (r: Rx)
    requires Ready(s)
    ensures Ready(r) && |r.line| == |s.line| && r.buffer == s.buffer && r.bufferIndex == s.bufferIndex
    ensures chars != [] ==> r.lineLen <= LINE_LIMIT + 1 && r.prevInChar == chars[|chars| - 1]
    decreases |chars|
  {
    if chars == [] then s else TextRun(TextStep(s, chars[0], dispatch, now), chars[1..], dispatch, now)
  }

  /** Before the first LF every character is thrown away. */
  lemma TextDiscardsUntilLf(s: Rx, c: u8, dispatch: LineHandler, now: int)
    requires Ready(s) && s.lineLen == 0 && s.prevInChar != LF
    ensures TextStep(s, c, dispatch, now) == s.(prevInChar := c)
  {
  }

  /** A line that has run past the limit is dropped, and the character goes nowhere unless it follows an LF. */
  lemma TextOverflowRestarts(s: Rx, c: u8, dispatch: LineHandler, now: int)
    requires Ready(s) && s.lineLen > LINE_LIMIT && s.prevInChar != LF
    ensures TextStep(s, c, dispatch, now) == s.(lineLen := 0, prevInChar := c)
  {
  }

  /** A complete line: at most 231 characters, an LF at the end and nowhere else. */
  predicate LineShape(line: seq<u8>) {
    && 1 <= |line| <= LINE_LIMIT + 1 && line[|line| - 1] == LF
    && forall j :: 0 <= j < |line| - 1 ==> line[j] != LF
  }

  /** The reader after the first k characters of a line, waiting for the rest. */
  predicate TextGathering(s: Rx, line: seq<u8>, k: int)
    requires LineShape(line)
  {
    && 0 <= k < |line| && Ready(s) && s.lineLen == k && s.line[..k] == line[..k]
    && (k == 0 ==> s.prevInChar == LF)
  }

  lemma {:induction false} TextGatherRest(s: Rx, line: seq<u8>, k: int, dispatch: LineHandler, now: int)
    requires LineShape(line) && TextGathering(s, line, k)
    ensures var r := TextRun(s, line[k..], dispatch, now);
      && r.lineLen == 0 && r.prevInChar == LF
      && r.efis == dispatch(line, s.efis).0
      && r.timestamp == (if dispatch(line, s.efis).1 then now else s.timestamp)
    decreases |line| - k
  {
    var c := line[k];
    assert line[k..][0] == c && line[k..][1..] == line[k + 1..];
    var s1 := TextStep(s, c, dispatch, now);
    assert TextRun(s, line[k..], dispatch, now) == TextRun(s1, line[k + 1..], dispatch, now);
    var stored := s.line[k := c];
    PrefixExtend(s.line, line, k);
    var st := s.(line := stored, lineLen := k + 1);
    if k + 1 == |line| {
      assert s1 == LineEnd(st, dispatch, now).(prevInChar := c);
      var terminated := stored[k + 1 := NUL];
      assert terminated[..k + 1] == line by {
        assert terminated[..k + 1] == stored[..k + 1];
      }
      assert line[k + 1..] == [];
    } else {
      assert s1 == st.(prevInChar := c);
      assert TextGathering(s1, line, k + 1);
      TextGatherRest(s1, line, k + 1, dispatch, now);
    }
  }

  /** A reader that has just seen an LF takes in a complete line and dispatches exactly that line. */
  lemma TextLineCaptured(s: Rx, line: seq<u8>, dispatch: LineHandler, now: int)
    requires Ready(s) && s.lineLen == 0 && s.prevInChar == LF && LineShape(line)
    ensures var r := TextRun(s, line, dispatch, now);
      && r.lineLen == 0 && r.prevInChar == LF
      && r.efis == dispatch(line, s.efis).0
      && r.timestamp == (if dispatch(line, s.efis).1 then now else s.timestamp)
  {
    assert TextGathering(s, line, 0);
    assert line[0..] == line;
    TextGatherRest(s, line, 0, dispatch, now);
  }

  lemma {:induction false} TextRunAppend(s: Rx, a: seq<u8>, b: seq<u8>, dispatch: LineHandler, now: int)
    requires Ready(s)
    ensures TextRun(s, a + b, dispatch, now) == TextRun(TextRun(s, a, dispatch, now), b, dispatch, now)
    decreases |a|
  {
    if a == [] {
      assert a + b == b;
    } else {
      assert (a + b)[0] == a[0] && (a + b)[1..] == a[1..] + b;
      TextRunAppend(TextStep(s, a[0], dispatch, now), a[1..], b, dispatch, now);
    }
  }

  function Concat(lines: seq<seq<u8>>): seq<u8> {
    if lines == [] then [] else lines[0] + Concat(lines[1..])
  }

  /** The flight data after dispatching each line in turn. */
  function DispatchAll(lines: seq<seq<u8>>, d: EfisData, dispatch: LineHandler): EfisData
    decreases |lines|
  {
    if lines == [] then d else DispatchAll(lines[1..], dispatch(lines[0], d).0, dispatch)
  }

  /** Back-to-back lines are all captured: after an LF, every line of the stream is dispatched, in order. */
  lemma {:induction false} TextLinesCaptured(s: Rx, lines: seq<seq<u8>>, dispatch: LineHandler, now: int)
    requires Ready(s) && s.lineLen == 0 && s.prevInChar == LF
    requires forall i :: 0 <= i < |lines| ==> LineShape(lines[i])
    ensures var r := TextRun(s, Concat(lines), dispatch, now);
      && r.lineLen == 0 && r.prevInChar == LF && r.efis == DispatchAll(lines, s.efis, dispatch)
    decreases |lines|
  {
    if lines != [] {
      TextRunAppend(s, lines[0], Concat(lines[1..]), dispatch, now);
      TextLineCaptured(s, lines[0], dispatch, now);
      TextLinesCaptured(TextRun(s, lines[0], dispatch, now), lines[1..], dispatch, now);
    }
  }

  // ---------------------------------------------------------------------
  // One Read

  /** What one Read does with the waiting bytes: the new state and how many bytes it takes. */
  function ReadSpec(t: EfisType, s: Rx, input: seq<u8>, now: int, strtof: Strtof): (r: (Rx, nat))
    requires Ready(s)
    ensures Ready(r.0) && r.1 <= |input|
    ensures t == MglBinary ==> r.1 <= MGL_READ_BUDGET
    ensures t != MglBinary ==> r.1 == Min(|input|, EFIS_PACKET_SIZE)
  {
    if t == Vn300 then
      var n := Min(|input|, EFIS_PACKET_SIZE);
      (VnRun(s, input[..n], now), n)
    else if t == MglBinary then
      var r := MglRead(s, input, 0, MGL_READ_BUDGET, now);
      (r.state, r.next)
    else
      var n := Min(|input|, EFIS_PACKET_SIZE);
      (TextRun(s, input[..n], Dispatcher(t, strtof), now), n)
  }

  // ---------------------------------------------------------------------
  // The reader

  class EfisSerialIO {
    var efisType: EfisType
    /** The binary receive buffer (VN-300 packets and MGL messages). */
    const buffer: array<u8>
    /** The text line buffer. */
    const szBuffer: array<u8>
    var bufferIndex: int
    var efisPacketInProgress: bool
    var prevInByte: u8
    var mglMsgLen: int
    var iBufferLen: int
    var prevInChar: u8
    var suEfis: EfisData
    var suVN300: Vn300Data
    var uTimestamp: int
    var lastReceivedEfisTime: int
    /** The bytes waiting in the UART. */
    var rx: seq<u8>

    ghost predicate Valid()
      reads this
    {
      && buffer.Length >= VN_PACKET_SIZE && szBuffer.Length >= MIN_LINE_BUFFER && buffer != szBuffer
      && 0 <= bufferIndex && 0 <= iBufferLen <= LINE_LIMIT + 1
    }

    ghost function State(): (s: Rx)
      reads this, buffer, szBuffer
    {
      Rx(buffer[..], bufferIndex, efisPacketInProgress, prevInByte, mglMsgLen,
         szBuffer[..], iBufferLen, prevInChar, suEfis, suVN300, uTimestamp)
    }

    /** The buffer sizes come from a header that is not part of this model; they must cover the fixed indexing. */
    constructor (bufferSize: nat, lineBufferSize: nat, nowMs: int)
      requires bufferSize >= VN_PACKET_SIZE && lineBufferSize >= MIN_LINE_BUFFER
      ensures Valid() && fresh(buffer) && fresh(szBuffer)
      ensures buffer.Length == bufferSize && szBuffer.Length == lineBufferSize
      ensures efisType == EfisNone && rx == []
      ensures bufferIndex == 0 && !efisPacketInProgress && prevInByte == 0 && prevInChar == 0
      ensures mglMsgLen == 0 && iBufferLen == 0 && uTimestamp == nowMs
      ensures suEfis == InitialEfisData() && suVN300 == Vn300Data([], 0)
    {
      efisType := EfisNone;
      buffer := new u8[bufferSize](_ => 0);
      szBuffer := new u8[lineBufferSize](_ => 0);
      efisPacketInProgress := false;
      prevInByte := 0;
      prevInChar := 0;
      suEfis := InitialEfisData();
      bufferIndex := 0;
      suVN300 := Vn300Data([], 0);
      mglMsgLen := 0;
      iBufferLen := 0;
      uTimestamp := nowMs;
      rx := [];
    }

    /** Init: the type of EFIS on the port; the port itself is not modelled. */
    method Init(t: EfisType)
      modifies this`efisType
      ensures efisType == t
    {
      efisType := t;
    }

    /** The CRC loop over bytes 1..126 of a gathered packet. */
    method PacketCrc() returns (crc: bv16)
      requires buffer.Length >= VN_PACKET_SIZE
      ensures crc == VnCrc(buffer[1..VN_PACKET_SIZE])
    {
      crc := 0;
      for i := 1 to VN_PACKET_SIZE
        invariant crc == VnCrc(buffer[1..i])
      {
        crc := CrcByte(crc, buffer[i] as bv8);
        assert buffer[1..i + 1] == buffer[1..i] + [buffer[i]];
        VnCrcSnoc(buffer[1..i], buffer[i]);
      }
    }

    /** The checksum loop of a text record: the sum of characters 0..n, masked to a byte. */
    method LineChecksumLoop(n: nat) returns (checksum: int)
      requires n < szBuffer.Length
      ensures checksum == Sum(szBuffer[..n + 1]) % 256
    {
      checksum := 0;
      for i := 0 to n + 1
        invariant checksum == Sum(szBuffer[..i])
      {
        assert szBuffer[..i + 1][..i] == szBuffer[..i];
        checksum := checksum + szBuffer[i] as int;
      }
      checksum := checksum % 256;
    }

    /** The header comparison and the CRC loop; either failing drops the packet. */
    method CheckPacket() returns (accepted: bool)
      requires buffer.Length >= VN_PACKET_SIZE
      ensures accepted == VnPacketValid(buffer[..VN_PACKET_SIZE])
    {
      assert buffer[..VN_PACKET_SIZE][..8] == buffer[..8];
      if buffer[..8] != VN_HEADER {
        return false;
      }
      var crc := PacketCrc();
      assert buffer[..VN_PACKET_SIZE][1..] == buffer[1..VN_PACKET_SIZE];
      accepted := crc == 0;
    }

    method AppendByte(b: u8)
      requires Valid()
      modifies this`bufferIndex, buffer
      ensures Valid() && State() == VnAppend(old(State()), b)
    {
      if bufferIndex < VN_PACKET_SIZE && efisPacketInProgress {
        buffer[bufferIndex] := b;
        bufferIndex := bufferIndex + 1;
      }
    }

    /** One VN-300 byte; `return` is the source's `continue`, which skips the previous-byte update. */
    method VnByte(b: u8, now: int)
      requires Valid()
      modifies this`bufferIndex, this`efisPacketInProgress, this`prevInByte, this`suVN300, this`uTimestamp, buffer
      ensures Valid() && State() == VnStep(old(State()), b, now)
    {
      if b == 0x19 && prevInByte == 0xFA {
        efisPacketInProgress := true;
        buffer[0] := 0xFA;
        buffer[1] := 0x19;
        bufferIndex := 2;
        return;
      }
      AppendByte(b);
      if bufferIndex == VN_PACKET_SIZE && efisPacketInProgress {
        var accepted := CheckPacket();
        if !accepted {
          efisPacketInProgress := false;
          return;
        }
        suVN300 := DecodeVn(buffer[..VN_PACKET_SIZE]);
        uTimestamp := now;
        efisPacketInProgress := false;
      }
      prevInByte := b;
    }

    /** The framing part of one MGL byte. */
    method FrameByte(b: u8)
      requires Valid()
      modifies this`bufferIndex, this`mglMsgLen, buffer
      ensures Valid() && State() == MglFrame(old(State()), b)
    {
      if bufferIndex == 0 {
        if b == MGL_DLE {
          buffer[0] := b;
          bufferIndex := bufferIndex + 1;
        }
      } else if bufferIndex == 1 {
        if b == MGL_STX {
          buffer[1] := b;
          bufferIndex := bufferIndex + 1;
        } else {
          bufferIndex := 0;
        }
      } else if bufferIndex == 2 || bufferIndex == 3 {
        buffer[bufferIndex] := b;
        bufferIndex := bufferIndex + 1;
        CheckLength();
      } else if bufferIndex > 3 && bufferIndex < mglMsgLen {
        if bufferIndex < buffer.Length {
          buffer[bufferIndex] := b;
        }
        bufferIndex := bufferIndex + 1;
      }
    }

    /** Once both length bytes are in: the complement check, then the expected length. */
    method CheckLength()
      requires Valid()
      modifies this`bufferIndex, this`mglMsgLen
      ensures Valid() && State() == MglLengthByte(old(State()))
    {
      if bufferIndex == 4 {
        if !MglLengthOk(buffer[2], buffer[3]) {
          bufferIndex := 0;
        } else {
          mglMsgLen := buffer[2];
          if mglMsgLen == 0 {
            mglMsgLen := 256;
          }
          mglMsgLen := mglMsgLen + 20;
        }
      }
    }

    /** One MGL byte; the result says a message was complete, which ends the Read. */
    method MglByte(b: u8, now: int) returns (decoded: bool)
      requires Valid()
      modifies this`bufferIndex, this`mglMsgLen, this`suEfis, this`uTimestamp, buffer
      ensures Valid() && State() == MglStep(old(State()), b, now).0 && decoded == MglStep(old(State()), b, now).1
    {
      FrameByte(b);
      decoded := false;
      if bufferIndex > 3 && bufferIndex >= mglMsgLen {
        var (e, stamped) := DecodeMgl(suEfis, buffer[..], bufferIndex);
        suEfis := e;
        if stamped {
          uTimestamp := now;
        }
        bufferIndex := 0;
        decoded := true;
      }
    }

    /** Recognises the line in szBuffer, checks its checksum, and decodes it. */
    method DispatchBuffered(now: int, strtof: Strtof)
      requires Valid() && 1 <= iBufferLen <= szBuffer.Length
      modifies this`suEfis, this`uTimestamp
      ensures suEfis == DispatchLine(efisType, szBuffer[..iBufferLen], old(suEfis), strtof).0
      ensures uTimestamp == if DispatchLine(efisType, szBuffer[..iBufferLen], old(suEfis), strtof).1 then now else old(uTimestamp)
    {
      var line := szBuffer[..iBufferLen];
      var kind := Recognise(efisType, line);
      if kind.None? {
        DispatchLineRejected(efisType, line, suEfis, strtof);
        return;
      }
      var n := ChecksumEnd(kind.value);
      var sum := LineChecksumLoop(n);
      assert line[..n + 1] == szBuffer[..n + 1];
      assert sum == LineChecksum(line, n);
      var intact := sum == ParseHexCRC(line, n + 1);
      assert intact == ChecksumOk(line, n);
      if !intact {
        DispatchLineRejected(efisType, line, suEfis, strtof);
        return;
      }
      DispatchLineAccepted(efisType, line, suEfis, strtof, kind.value);
      suEfis := DecodeRecord(kind.value, suEfis, line, efisType, strtof);
      if Timestamped(kind.value) {
        uTimestamp := now;
      }
    }

    /** The end of a line: the terminator, the dispatch, and the reset. */
    method EndLine(now: int, strtof: Strtof)
      requires Valid() && 1 <= iBufferLen <= LINE_LIMIT + 1
      modifies this`suEfis, this`uTimestamp, this`iBufferLen, szBuffer
      ensures Valid() && State() == LineEnd(old(State()), Dispatcher(efisType, strtof), now)
    {
      szBuffer[iBufferLen] := NUL;
      DispatchBuffered(now, strtof);
      iBufferLen := 0;
    }

    /** One text character. */
    method TextByte(c: u8, now: int, strtof: Strtof)
      requires Valid()
      modifies this`iBufferLen, this`prevInChar, this`suEfis, this`uTimestamp, szBuffer
      ensures Valid() && State() == TextStep(old(State()), c, Dispatcher(efisType, strtof), now)
    {
      ghost var s0 := State();
      ghost var mid: Rx;
      if iBufferLen > LINE_LIMIT {
        iBufferLen := 0;
      }
      ghost var len := iBufferLen;
      if iBufferLen > 0 || prevInChar == LF {
        ghost var stored := s0.(line := s0.line[iBufferLen := c], lineLen := iBufferLen + 1);
        szBuffer[iBufferLen] := c;
        iBufferLen := iBufferLen + 1;
        assert State() == stored;
        if c == LF {
          EndLine(now, strtof);
          mid := LineEnd(stored, Dispatcher(efisType, strtof), now);
        } else {
          mid := stored;
        }
        TextStepStores(s0, c, Dispatcher(efisType, strtof), now, len, stored, mid);
      } else {
        mid := s0.(lineLen := len);
        TextStepSkips(s0, c, Dispatcher(efisType, strtof), now, len);
      }
      assert State() == mid;
      prevInChar := c;
    }

    method ReadVn(now: int)
      requires Valid()
      modifies this, buffer
      ensures Valid() && efisType == old(efisType)
      ensures var n := Min(|old(rx)|, EFIS_PACKET_SIZE);
        && rx == old(rx)[n..] && State() == VnRun(old(State()), old(rx)[..n], now)
        && lastReceivedEfisTime == if n > 0 then now else old(lastReceivedEfisTime)
    {
      ghost var s0 := State();
      ghost var input := rx;
      var packetCount := 0;
      while rx != [] && packetCount < EFIS_PACKET_SIZE
        invariant Valid() && efisType == old(efisType)
        invariant 0 <= packetCount <= Min(|input|, EFIS_PACKET_SIZE) && rx == input[packetCount..]
        invariant VnRun(s0, input[..Min(|input|, EFIS_PACKET_SIZE)], now)
          == VnRun(State(), input[packetCount..Min(|input|, EFIS_PACKET_SIZE)], now)
        invariant lastReceivedEfisTime == if packetCount > 0 then now else old(lastReceivedEfisTime)
        decreases |rx|
      {
        var inByte := rx[0];
        rx := rx[1..];
        lastReceivedEfisTime := now;
        assert input[packetCount..Min(|input|, EFIS_PACKET_SIZE)][1..] == input[packetCount + 1..Min(|input|, EFIS_PACKET_SIZE)];
        packetCount := packetCount + 1;
        VnByte(inByte, now);
      }
      assert input[..Min(|input|, EFIS_PACKET_SIZE)] == input[0..Min(|input|, EFIS_PACKET_SIZE)];
    }

    /**
     * One pass of the MGL read loop: take the next byte off the port, stamp
     * the receive time, and run it through the framing state machine. The
     * ghost parameters place the pass inside the whole Read, whose outcome
     * is `total`: `done` bytes were taken before it.
     */
    method MglReadByte(now: int, ghost input: seq<u8>, ghost done: nat, ghost total: MglResult) returns (decoded: bool)
      requires Valid() && done < |input| && done < MGL_READ_BUDGET && rx == input[done..]
      requires total == MglRead(State(), input, done, MGL_READ_BUDGET, now)
      modifies this`rx, this`lastReceivedEfisTime, this`bufferIndex, this`mglMsgLen, this`suEfis, this`uTimestamp, buffer
      ensures Valid() && rx == input[done + 1..] && lastReceivedEfisTime == now
      ensures decoded ==> total == MglResult(State(), done + 1, true)
      ensures !decoded ==> total == MglRead(State(), input, done + 1, MGL_READ_BUDGET, now)
    {
      ghost var before := State();
      var inByte := rx[0];
      assert inByte == input[done];
      rx := rx[1..];
      lastReceivedEfisTime := now;
      decoded := MglByte(inByte, now);
      MglReadAdvance(total, before, input, done, MGL_READ_BUDGET, now, State(), decoded);
    }

    method ReadMgl(now: int)
      requires Valid()
      modifies this`rx, this`lastReceivedEfisTime, this`bufferIndex, this`mglMsgLen, this`suEfis, this`uTimestamp, buffer
      ensures Valid() && efisType == old(efisType)
      ensures State() == MglRead(old(State()), old(rx), 0, MGL_READ_BUDGET, now).state
      ensures rx == old(rx)[MglRead(old(State()), old(rx), 0, MGL_READ_BUDGET, now).next..]
      ensures lastReceivedEfisTime == if rx == old(rx) then old(lastReceivedEfisTime) else now
    {
      ghost var input := rx;
      ghost var total := MglRead(State(), rx, 0, MGL_READ_BUDGET, now);
      ghost var stopped := false;
      var packetCount := 0;
      while rx != [] && packetCount < MGL_READ_BUDGET
        invariant !stopped
        invariant Valid() && efisType == old(efisType)
        invariant 0 <= packetCount <= |input| && packetCount <= MGL_READ_BUDGET && rx == input[packetCount..]
        invariant total == MglRead(State(), input, packetCount, MGL_READ_BUDGET, now)
        invariant lastReceivedEfisTime == if packetCount > 0 then now else old(lastReceivedEfisTime)
        decreases |rx|
      {
        var decoded := MglReadByte(now, input, packetCount, total);
        packetCount := packetCount + 1;
        if decoded {
          stopped := true;
          assert total.state == State() && total.next == packetCount;
          break;
        }
      }
      if !stopped {
        MglReadExhausted(State(), input, packetCount, MGL_READ_BUDGET, now);
        assert total.state == State() && total.next == packetCount;
      }
    }

    method ReadText(now: int, strtof: Strtof)
      requires Valid()
      modifies this, szBuffer
      ensures Valid() && efisType == old(efisType)
      ensures var n := Min(|old(rx)|, EFIS_PACKET_SIZE);
        && rx == old(rx)[n..] && State() == TextRun(old(State()), old(rx)[..n], Dispatcher(efisType, strtof), now)
        && lastReceivedEfisTime == if n > 0 then now else old(lastReceivedEfisTime)
    {
      ghost var s0 := State();
      ghost var input := rx;
      var packetCount := 0;
      while rx != [] && packetCount < EFIS_PACKET_SIZE
        invariant Valid() && efisType == old(efisType)
        invariant 0 <= packetCount <= Min(|input|, EFIS_PACKET_SIZE) && rx == input[packetCount..]
        invariant TextRun(s0, input[..Min(|input|, EFIS_PACKET_SIZE)], Dispatcher(efisType, strtof), now)
          == TextRun(State(), input[packetCount..Min(|input|, EFIS_PACKET_SIZE)], Dispatcher(efisType, strtof), now)
        invariant lastReceivedEfisTime == if packetCount > 0 then now else old(lastReceivedEfisTime)
        decreases |rx|
      {
        var inChar := rx[0];
        rx := rx[1..];
        lastReceivedEfisTime := now;
        assert input[packetCount..Min(|input|, EFIS_PACKET_SIZE)][1..] == input[packetCount + 1..Min(|input|, EFIS_PACKET_SIZE)];
        packetCount := packetCount + 1;
        TextByte(inChar, now, strtof);
      }
      assert input[..Min(|input|, EFIS_PACKET_SIZE)] == input[0..Min(|input|, EFIS_PACKET_SIZE)];
    }

    /** One Read: nothing unless reading is enabled; otherwise the branch of the configured type. */
    method Read(readEnabled: bool, now: int, strtof: Strtof)
      requires Valid()
      modifies this, buffer, szBuffer
      ensures Valid() && efisType == old(efisType)
      ensures !readEnabled ==> State() == old(State()) && rx == old(rx)
      ensures readEnabled ==>
        var (s, n) := ReadSpec(efisType, old(State()), old(rx), now, strtof);
        && State() == s && rx == old(rx)[n..]
        && lastReceivedEfisTime == if n > 0 then now else old(lastReceivedEfisTime)
    {
      if readEnabled {
        if efisType == Vn300 {
          ReadVn(now);
        } else if efisType == MglBinary {
          ReadMgl(now);
        } else {
          ReadText(now, strtof);
        }
      }
    }
  }
}
