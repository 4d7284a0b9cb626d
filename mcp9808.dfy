/** The MCP9808 I2C temperature sensor behind a DS28E17 bridge: probing its
    identification registers and converting its ambient temperature
    register to tenths of a degree Celsius. Registers are 16 bits wide and
    arrive most significant byte first. */
module Mcp9808 {
  import opened Transport
  import opened Ds28e17

  const MCP9808_I2CADDR_BASE: bv8 := 0x18

  const MCP9808_REG_AMBIENT_TEMP: bv8 := 0x05
  const MCP9808_REG_MANUF_ID: bv8 := 0x06
  const MCP9808_REG_DEVICE_ID: bv8 := 0x07

  /** The identification the probe expects. */
  const MCP9808_MANUF_ID: int := 0x0054
  const MCP9808_DEVICE_ID: int := 0x0400

  /** A register as the driver sees it: the two bytes land in a uint16_t
      on a little-endian host and SWAP16 then exchanges them, so the first
      byte received is the high byte. */
  function BigEndian(bytes: seq<bv8>): (v: int)
    requires |bytes| == 2
    ensures 0 <= v < 0x10000
  {
    bytes[0] as int * 256 + bytes[1] as int
  }

  /** Byte order round trip: the high byte and the low byte come back out
      of the register value, so different byte pairs give different
      values. */
  lemma BigEndianRoundTrip(bytes: seq<bv8>)
    requires |bytes| == 2
    ensures BigEndian(bytes) / 256 == bytes[0] as int
    ensures BigEndian(bytes) % 256 == bytes[1] as int
  {
  }

  /** The register values the probe expects come from exactly these bytes. */
  lemma ExpectedIdBytes(bytes: seq<bv8>)
    requires |bytes| == 2
    ensures BigEndian(bytes) == MCP9808_MANUF_ID <==> bytes == [0x00, 0x54]
    ensures BigEndian(bytes) == MCP9808_DEVICE_ID <==> bytes == [0x04, 0x00]
  {
    BigEndianRoundTrip(bytes);
    if BigEndian(bytes) == MCP9808_MANUF_ID {
      assert bytes[0] as int == 0x00 && bytes[1] as int == 0x54;
      assert bytes[0] == 0x00 && bytes[1] == 0x54;
    }
    if BigEndian(bytes) == MCP9808_DEVICE_ID {
      assert bytes[0] as int == 0x04 && bytes[1] as int == 0x00;
      assert bytes[0] == 0x04 && bytes[1] == 0x00;
    }
  }

  // ----- presence probe -----

  /** mcp9808_present as a function of the transport state: read the
      manufacturer id, then the device id, both from the sensor's base
      address; present when both reads succeed and match. */
  function PresentSpec(b: Bus, id: RomId): (bool, Bus) {
    var manuf := I2cReadSpec(b, id, MCP9808_I2CADDR_BASE, MCP9808_REG_MANUF_ID, 2);
    if !manuf.0 then (false, manuf.2) else
    var device := I2cReadSpec(manuf.2, id, MCP9808_I2CADDR_BASE, MCP9808_REG_DEVICE_ID, 2);
    if !device.0 then (false, device.2) else
    (BigEndian(manuf.1) == MCP9808_MANUF_ID && BigEndian(device.1) == MCP9808_DEVICE_ID, device.2)
  }

  method Present(bus: OneWire, id: RomId) returns (present: bool)
    modifies bus
    ensures (present, bus.State()) == PresentSpec(old(bus.State()), id)
  {
    var manuf := new bv8[2];
    var ok := I2cRead(bus, id, MCP9808_I2CADDR_BASE, MCP9808_REG_MANUF_ID, manuf, 2);
    if !ok {
      return false;
    }
    assert manuf[..] == manuf[..2];
    var device := new bv8[2];
    ok := I2cRead(bus, id, MCP9808_I2CADDR_BASE, MCP9808_REG_DEVICE_ID, device, 2);
    if !ok {
      return false;
    }
    assert device[..] == device[..2];
    present := BigEndian(manuf[..]) == MCP9808_MANUF_ID && BigEndian(device[..]) == MCP9808_DEVICE_ID;
  }

  /** The probe answers true exactly when both register reads succeed and
      return the bytes 00 54 and 04 00. A positive probe has selected the
      bridge twice and written the frames of the two reads in order. */
  lemma PresentOutcome(b: Bus, id: RomId)
    ensures var r := PresentSpec(b, id);
      var manuf := I2cReadSpec(b, id, MCP9808_I2CADDR_BASE, MCP9808_REG_MANUF_ID, 2);
      var device := I2cReadSpec(manuf.2, id, MCP9808_I2CADDR_BASE, MCP9808_REG_DEVICE_ID, 2);
      && (r.0 <==> manuf.0 && device.0 && manuf.1 == [0x00, 0x54] && device.1 == [0x04, 0x00])
      && (r.0 ==> r.1.selects == b.selects + [id, id])
      && (r.0 ==> r.1.writes == b.writes + ReadFrames(MCP9808_I2CADDR_BASE, MCP9808_REG_MANUF_ID, 2)
                                         + ReadFrames(MCP9808_I2CADDR_BASE, MCP9808_REG_DEVICE_ID, 2))
  {
    var manuf := I2cReadSpec(b, id, MCP9808_I2CADDR_BASE, MCP9808_REG_MANUF_ID, 2);
    I2cReadEffects(b, id, MCP9808_I2CADDR_BASE, MCP9808_REG_MANUF_ID, 2);
    if manuf.0 {
      var device := I2cReadSpec(manuf.2, id, MCP9808_I2CADDR_BASE, MCP9808_REG_DEVICE_ID, 2);
      I2cReadEffects(manuf.2, id, MCP9808_I2CADDR_BASE, MCP9808_REG_DEVICE_ID, 2);
      if device.0 {
        ExpectedIdBytes(manuf.1);
        ExpectedIdBytes(device.1);
      }
    }
  }

  /** Whatever the replies, the probe selects the bridge once or twice:
      twice exactly when the first register read succeeds. */
  lemma PresentSelects(b: Bus, id: RomId)
    ensures var r := PresentSpec(b, id);
      var manuf := I2cReadSpec(b, id, MCP9808_I2CADDR_BASE, MCP9808_REG_MANUF_ID, 2);
      r.1.selects == b.selects + (if manuf.0 then [id, id] else [id])
  {
    var manuf := I2cReadSpec(b, id, MCP9808_I2CADDR_BASE, MCP9808_REG_MANUF_ID, 2);
    I2cReadEffects(b, id, MCP9808_I2CADDR_BASE, MCP9808_REG_MANUF_ID, 2);
    if manuf.0 {
      I2cReadEffects(manuf.2, id, MCP9808_I2CADDR_BASE, MCP9808_REG_DEVICE_ID, 2);
    }
  }

  // ----- temperature conversion -----

  /** Bits 0 to 12 of the ambient register as a 13-bit two's-complement
      number of sixteenths of a degree; bits 13 to 15 are alert flags. */
  function Sixteenths(ambient: int): int
    requires 0 <= ambient < 0x10000
  {
    var t := ambient % 0x2000;
    if t >= 0x1000 then t - 0x2000 else t
  }

  /** The conversion of mcp9808_read_decicelsius: the low twelve bits times
      ten, divided by sixteen, less 2560 when the sign bit 12 is set. */
  function Decode(ambient: int): int
    requires 0 <= ambient < 0x10000
  {
    var d := ((ambient % 0x1000) * 10) / 16;
    if (ambient / 0x1000) % 2 == 1 then d - 2560 else d
  }

  /** The conversion is ten times the reading in sixteenths divided by
      sixteen, rounded down (toward minus infinity for negative readings). */
  lemma DecodeReference(ambient: int)
    requires 0 <= ambient < 0x10000
    ensures var t := Sixteenths(ambient);
      16 * Decode(ambient) <= 10 * t < 16 * Decode(ambient) + 16
  {
    var low := ambient % 0x1000;
    var t := ambient % 0x2000;
    assert t == low + 0x1000 * ((ambient / 0x1000) % 2);
  }

  /** The result lies between -256.0 and +255.9 degrees, so the driver's
      cast to int16_t loses nothing, and the alert flags in bits 13 to 15
      do not affect it. */
  lemma DecodeRange(ambient: int)
    requires 0 <= ambient < 0x10000
    ensures -2560 <= Decode(ambient) <= 2559
    ensures Decode(ambient) == Decode(ambient % 0x2000)
  {
    assert (ambient % 0x2000) % 0x1000 == ambient % 0x1000;
    assert ((ambient % 0x2000) / 0x1000) % 2 == (ambient / 0x1000) % 2;
  }

  /** A higher reading never converts to a lower temperature. */
  lemma DecodeMonotone(a1: int, a2: int)
    requires 0 <= a1 < 0x10000 && 0 <= a2 < 0x10000
    requires Sixteenths(a1) <= Sixteenths(a2)
    ensures Decode(a1) <= Decode(a2)
  {
    DecodeReference(a1);
    DecodeReference(a2);
  }

  /** Register values for +25.0, +10.0 and -7.0 degrees, and -7.0 again
      with all three alert flags set. */
  lemma DecodeExamples()
    ensures Decode(0x0190) == 250
    ensures Decode(0x00A0) == 100
    ensures Decode(0x1F90) == -70
    ensures Decode(0xFF90) == -70
  {
  }

  // ----- reading -----

  /** mcp9808_read_decicelsius as a function of the transport state: a
      two-byte read of the ambient register, converted; None when the read
      fails. */
  function ReadDeciCelsiusSpec(b: Bus, id: RomId): (Option<int>, Bus) {
    var r := I2cReadSpec(b, id, MCP9808_I2CADDR_BASE, MCP9808_REG_AMBIENT_TEMP, 2);
    if !r.0 then (None, r.2) else (Some(Decode(BigEndian(r.1))), r.2)
  }

  method ReadDeciCelsius(bus: OneWire, id: RomId) returns (ok: bool, decicelsius: int)
    modifies bus
    ensures ok == ReadDeciCelsiusSpec(old(bus.State()), id).0.Some?
    ensures ok ==> decicelsius == ReadDeciCelsiusSpec(old(bus.State()), id).0.value
    ensures bus.State() == ReadDeciCelsiusSpec(old(bus.State()), id).1
  {
    var ambient := new bv8[2];
    ok := I2cRead(bus, id, MCP9808_I2CADDR_BASE, MCP9808_REG_AMBIENT_TEMP, ambient, 2);
    decicelsius := 0;
    if !ok {
      return;
    }
    assert ambient[..] == ambient[..2];
    decicelsius := Decode(BigEndian(ambient[..]));
  }

  /** A reading is delivered exactly when the bridged read of the ambient
      register succeeds; it is the conversion of the two bytes received,
      high byte first, and lies in the sensor's representable range. */
  lemma ReadDeciCelsiusOutcome(b: Bus, id: RomId)
    ensures var r := ReadDeciCelsiusSpec(b, id);
      var rd := I2cReadSpec(b, id, MCP9808_I2CADDR_BASE, MCP9808_REG_AMBIENT_TEMP, 2);
      && (r.0.Some? <==> rd.0)
      && (r.0.Some? ==> |rd.1| == 2 && r.0.value == Decode(rd.1[0] as int * 256 + rd.1[1] as int))
      && (r.0.Some? ==> -2560 <= r.0.value <= 2559)
      && r.1.selects == b.selects + [id] && r.1.slept >= b.slept
  {
    var rd := I2cReadSpec(b, id, MCP9808_I2CADDR_BASE, MCP9808_REG_AMBIENT_TEMP, 2);
    I2cReadEffects(b, id, MCP9808_I2CADDR_BASE, MCP9808_REG_AMBIENT_TEMP, 2);
    if rd.0 {
      DecodeRange(BigEndian(rd.1));
    }
  }
}
