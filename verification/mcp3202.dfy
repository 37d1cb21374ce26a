/**
 * One conversion of the MCP3202 12-bit ADC on the sensor SPI bus: a start
 * byte, a configuration byte selecting the single-ended channel, and a
 * padding byte, all with the ADC's chip select held low; the 12-bit result
 * comes back in the low nibble of the second reply and the whole third reply.
 * The bus is a recorder: it logs each event and answers transfers from a
 * given reply stream.
 */
module Mcp3202 {
  import opened Numeric

  const SPI_CLOCK_HZ: int := 1000000
  const START_BYTE: u8 := 0x01
  /** Single-ended (SGL=1), MSB first (MSBF=1), channel bit (ODD) at bit 6. */
  const CONFIG_BASE: u8 := 0xA0
  const MAX_COUNT: int := 4095

  datatype BusEvent =
    | BeginTransaction(clockHz: int)
    | ChipSelect(level: bool)
    | Transfer(sent: u8, received: u8)
    | EndTransaction

  /** channel &= 0x01: the ADC has channels 0 and 1. */
  function MaskChannel(channel: u8): (c: u8)
    ensures c == channel % 2
  {
    ((channel as bv8) & 0x01) as u8
  }

  /** 0xA0 | (channel << 6), truncated to a byte. */
  function ConfigByte(channel: u8): (b: u8)
    ensures channel == 0 ==> b == 0xA0
    ensures channel == 1 ==> b == 0xE0
  {
    ((CONFIG_BASE as bv8) | ((channel as bv8) << 6)) as u8
  }

  /**
   * ((rx1 & 0x0F) << 8) | rx2: the mask keeps the low nibble, the shift
   * multiplies by 256, and the or adds, since the shifted nibble and the
   * byte share no bits.
   */
  function Assemble(rx1: u8, rx2: u8): (r: u16)
    ensures r / 256 == rx1 % 16 && r % 256 == rx2
  {
    (rx1 % 16) * 256 + rx2
  }

  /** Every result is a 12-bit count, and the high nibble of the second reply never matters. */
  lemma AssembleRange(rx1: u8, rx2: u8, other: u8)
    requires other % 16 == rx1 % 16
    ensures 0 <= Assemble(rx1, rx2) <= MAX_COUNT
    ensures Assemble(other, rx2) == Assemble(rx1, rx2)
  {
  }

  /** Every 12-bit count arrives intact: B11..B8 in the second reply's low nibble, B7..B0 in the third. */
  lemma AssembleRoundTrip(count: int, nullBits: u8)
    requires 0 <= count <= MAX_COUNT && nullBits % 16 == 0
    ensures Assemble(nullBits + count / 256, count % 256) == count
  {
  }

  class SpiBus {
    /** The byte the device shifts out on the n-th transfer. */
    const reply: nat -> u8
    var transfers: nat
    var events: seq<BusEvent>

    constructor (reply: nat -> u8)
      ensures this.reply == reply && transfers == 0 && events == []
    {
      this.reply := reply;
      transfers := 0;
      events := [];
    }

    method Begin(clockHz: int)
      modifies this
      ensures events == old(events) + [BeginTransaction(clockHz)] && transfers == old(transfers)
    {
      events := events + [BeginTransaction(clockHz)];
    }

    /** The chip-select pin of the ADC, recorded on the same log. */
    method Select(level: bool)
      modifies this
      ensures events == old(events) + [ChipSelect(level)] && transfers == old(transfers)
    {
      events := events + [ChipSelect(level)];
    }

    method TransferByte(b: u8) returns (rx: u8)
      modifies this
      ensures rx == reply(old(transfers)) && transfers == old(transfers) + 1
      ensures events == old(events) + [Transfer(b, rx)]
    {
      rx := reply(transfers);
      transfers := transfers + 1;
      events := events + [Transfer(b, rx)];
    }

    method End()
      modifies this
      ensures events == old(events) + [EndTransaction] && transfers == old(transfers)
    {
      events := events + [EndTransaction];
    }
  }

  /** The sensor SPI handle: the bus pointer may be missing. */
  class SensorSpi {
    var pSPI: SpiBus?

    constructor (bus: SpiBus?)
      ensures pSPI == bus
    {
      pSPI := bus;
    }
  }

  /** The bus events of one conversion whose three transfers are answered a, b, c. */
  function Conversion(channel: u8, a: u8, b: u8, c: u8): seq<BusEvent> {
    [BeginTransaction(SPI_CLOCK_HZ), ChipSelect(false),
     Transfer(START_BYTE, a), Transfer(ConfigByte(MaskChannel(channel)), b), Transfer(0x00, c),
     ChipSelect(true), EndTransaction]
  }

  /** Every transfer of a conversion happens with the chip select low, between the begin and the end. */
  lemma ConversionFramed(channel: u8, a: u8, b: u8, c: u8)
    ensures var ev := Conversion(channel, a, b, c);
      && ev[0] == BeginTransaction(SPI_CLOCK_HZ) && ev[|ev| - 1] == EndTransaction
      && ev[1] == ChipSelect(false) && ev[|ev| - 2] == ChipSelect(true)
      && (forall i :: 0 <= i < |ev| && ev[i].Transfer? ==> 2 <= i < |ev| - 2)
      && (forall i :: 0 <= i < |ev| && ev[i].ChipSelect? ==> i == 1 || i == |ev| - 2)
      && [ev[2].sent, ev[3].sent, ev[4].sent] == [0x01, if channel % 2 == 0 then 0xA0 else 0xE0, 0x00]
  {
  }

  /** Mcp3202Read: 0 without touching the bus when there is no bus; otherwise one conversion. */
  method Mcp3202Read(spi: SensorSpi?, channel: u8) returns (r: u16)
    modifies if spi != null && spi.pSPI != null then {spi.pSPI} else {}
    ensures spi == null || spi.pSPI == null ==> r == 0
    ensures spi != null && spi.pSPI != null ==>
      var n := old(spi.pSPI.transfers);
      && spi.pSPI.transfers == n + 3
      && spi.pSPI.events == old(spi.pSPI.events) + Conversion(channel, spi.pSPI.reply(n), spi.pSPI.reply(n + 1), spi.pSPI.reply(n + 2))
      && r == Assemble(spi.pSPI.reply(n + 1), spi.pSPI.reply(n + 2))
      && r <= MAX_COUNT
  {
    if spi == null || spi.pSPI == null {
      return 0;
    }
    var bus := spi.pSPI;
    var ch := MaskChannel(channel);
    var configByte := ConfigByte(ch);
    bus.Begin(SPI_CLOCK_HZ);
    bus.Select(false);
    var _ := bus.TransferByte(START_BYTE);
    var rx1 := bus.TransferByte(configByte);
    var rx2 := bus.TransferByte(0x00);
    bus.Select(true);
    bus.End();
    r := Assemble(rx1, rx2);
  }
}
