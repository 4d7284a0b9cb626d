/** The DS18B20 digital thermometer on the primary 1-Wire bus: reading the
    scratchpad, converting its temperature register to tenths of a degree
    Celsius, and starting a conversion. The CRC-8 the driver checks the
    scratchpad with is supplied by the caller as a function. */
module Ds18b20 {
  import opened Transport

  const DS18B20_FAMILY_CODE: bv8 := 0x28
  const DS18B20_SP_SIZE: nat := 9
  const DS18B20_READ: bv8 := 0xBE
  const DS18B20_CONVERT_T: bv8 := 0x44
  const DS18B20_INVALID_DECICELSIUS: int := 0x7FFF

  /** The CRC-8 of a byte string; the scratchpad is intact when the CRC-8
      over all nine of its bytes, the stored CRC included, is 0. */
  type Crc8 = seq<bv8> -> bv8

  // ----- the scratchpad -----

  /** ds18b20_read_scratchpad as a function of the transport state and the
      buffer's previous contents `sp`: the result, the new contents and the
      new state. The read fills the first `n` bytes; the CRC is always taken
      over the first nine. */
  function ReadScratchpadSpec(b: Bus, id: RomId, sp: seq<bv8>, n: nat, crc8: Crc8): (bool, seq<bv8>, Bus)
    requires DS18B20_SP_SIZE <= |sp| && n <= |sp|
  {
    var sel := SelectStep(b, id);
    if !sel.0 then (false, sp, sel.1) else
    var w := WriteStep(sel.1, [DS18B20_READ]);
    if !w.0 then (false, sp, w.1) else
    var d := ReadStep(w.1, n);
    if d.0.None? then (false, sp, d.1) else
    var sp' := d.0.value + sp[n..];
    (crc8(sp'[..DS18B20_SP_SIZE]) == 0, sp', d.1)
  }

  method ReadScratchpad(bus: OneWire, id: RomId, sp: array<bv8>, n: nat, crc8: Crc8) returns (ok: bool)
    requires DS18B20_SP_SIZE <= sp.Length && n <= sp.Length
    modifies bus, sp
    ensures (ok, sp[..], bus.State()) == ReadScratchpadSpec(old(bus.State()), id, old(sp[..]), n, crc8)
  {
    ok := bus.Select(id);
    if !ok {
      return;
    }
    ok := bus.Write([DS18B20_READ]);
    if !ok {
      return;
    }
    ghost var b := bus.State();
    ok := bus.Read(sp, n);
    if !ok {
      return;
    }
    assert sp[..] == sp[..n] + sp[n..];
    ok := crc8(sp[..DS18B20_SP_SIZE]) == 0;
  }

  /** A full nine-byte read succeeds exactly when the select and the read
      command are acknowledged and the next reply holds nine bytes whose
      CRC-8 is 0; the buffer then holds exactly those bytes, whatever it
      held before. The ROM id is selected once, the read command written
      once the select is acknowledged, and nine bytes read once the command
      is acknowledged. */
  lemma ReadScratchpadOutcome(b: Bus, id: RomId, sp: seq<bv8>, crc8: Crc8)
    requires |sp| == DS18B20_SP_SIZE
    ensures var r := ReadScratchpadSpec(b, id, sp, DS18B20_SP_SIZE, crc8);
      var s := b.script;
      && (r.0 <==> LeadingAcks(s) >= 2 && 2 < |s| && Answers(s[2], 9) && crc8(s[2].bytes) == 0)
      && (LeadingAcks(s) >= 2 && 2 < |s| && Answers(s[2], 9) ==> r.1 == s[2].bytes)
      && r.2.selects == b.selects + [id]
      && r.2.writes == b.writes + (if LeadingAcks(s) >= 1 then [[DS18B20_READ]] else [])
      && r.2.readCounts == b.readCounts + (if LeadingAcks(s) >= 2 then [9] else [])
      && r.2.samples == b.samples && r.2.slept == b.slept
  {
    var s := b.script;
    if s != [] && s[0] == Ack {
      assert LeadingAcks(s) == 1 + LeadingAcks(s[1..]);
      if |s| > 1 && s[1] == Ack {
        assert LeadingAcks(s[1..]) == 1 + LeadingAcks(s[2..]);
        assert s[1..][1..] == s[2..];
        if |s| > 2 {
          assert s[2..][0] == s[2];
        }
      } else {
        assert LeadingAcks(s[1..]) == 0;
      }
    } else {
      assert LeadingAcks(s) == 0;
    }
  }

  /** A full nine-byte read overwrites the whole buffer, so what the buffer
      held before changes neither the result, nor the bus, nor the contents
      after a successful read. */
  lemma ScratchpadOverwritten(b: Bus, id: RomId, sp1: seq<bv8>, sp2: seq<bv8>, crc8: Crc8)
    requires |sp1| == DS18B20_SP_SIZE && |sp2| == DS18B20_SP_SIZE
    ensures var r1 := ReadScratchpadSpec(b, id, sp1, DS18B20_SP_SIZE, crc8);
      var r2 := ReadScratchpadSpec(b, id, sp2, DS18B20_SP_SIZE, crc8);
      r1.0 == r2.0 && r1.2 == r2.2 && (r1.0 ==> r1.1 == r2.1)
  {
  }

  // ----- temperature conversion -----

  /** The 16-bit temperature register, least significant byte first; the
      two bytes do not overlap, so the `|` is a sum. */
  function Measure(lsb: bv8, msb: bv8): (m: int)
    ensures 0 <= m < 0x10000
  {
    lsb as int + 256 * msb as int
  }

  /** The register as the two's-complement number of sixteenths of a degree
      it encodes. */
  function Sixteenths(m: int): int {
    if m >= 0x8000 then m - 0x10000 else m
  }

  /** The conversion of ds18b20_raw_to_decicelsius before its range check,
      on the 16-bit register value `measure`. A set bit 15 marks a negative
      reading, whose magnitude is `(measure ^ 0xFFFF) + 1` in 16 bits, that
      is `0x10000 - measure`. The magnitude is split into whole degrees
      (`>> 4`) and sixteenths (`& 0x000F`); whole degrees are scaled by ten
      and the sixteenths become tenths by `* 640 / 1024`, with 512 added
      first only for a non-negative reading; a negative reading is negated
      at the end. */
  function Convert(measure: int): int
    requires 0 <= measure < 0x10000
  {
    var negative := measure >= 0x8000;
    var mag := if negative then (0xFFFF - measure + 1) % 0x10000 else measure;
    var whole := (mag / 16) * 10;
    var fract := Tenths(mag % 16, negative);
    if negative then -(whole + fract) else whole + fract
  }

  /** The sixteenths of a magnitude as tenths, rounded to nearest for a
      non-negative reading and down for a negative one; always one decimal
      digit, so it never carries into the whole degrees. */
  function Tenths(sixteenths: int, negative: bool): (d: int)
    requires 0 <= sixteenths < 16
    ensures 0 <= d <= 9
    ensures negative ==> 16 * d <= 10 * sixteenths < 16 * d + 16
    ensures !negative ==> 16 * d <= 10 * sixteenths + 8 < 16 * d + 16
  {
    (sixteenths * 640 + (if negative then 0 else 512)) / 1024
  }

  /** ds18b20_raw_to_decicelsius: the converted reading, or the sentinel
      0x7FFF when it lies outside the sensor's range of -55.0 to +125.0
      degrees. */
  function RawToDeciCelsius(sp: seq<bv8>): int
    requires |sp| >= 2
  {
    var d := Convert(Measure(sp[0], sp[1]));
    if d < -550 || d > 1250 then DS18B20_INVALID_DECICELSIUS else d
  }

  /** `x * 640 / 1024` with rounding offset `64 * r` is `(10 * x + r) / 16`. */
  lemma ScaleFraction(x: int, r: int)
    requires 0 <= x && 0 <= r
    ensures (x * 640 + 64 * r) / 1024 == (10 * x + r) / 16
  {
    var q := (10 * x + r) / 16;
    var t := (10 * x + r) % 16;
    assert 10 * x + r == 16 * q + t;
    assert x * 640 + 64 * r == 1024 * q + 64 * t;
  }

  /** Whole degrees times ten plus the converted fraction is the reading in
      sixteenths times ten, divided by sixteen. */
  lemma Recombine(v: int, r: int)
    requires 0 <= v && 0 <= r < 16
    ensures (v / 16) * 10 + (10 * (v % 16) + r) / 16 == (10 * v + r) / 16
  {
    var h := v / 16;
    assert v == 16 * h + v % 16;
    assert 10 * v + r == 160 * h + (10 * (v % 16) + r);
  }

  /** The conversion against the reading in sixteenths of a degree `t`:
      for t >= 0 it is 10t/16 rounded half up, for t < 0 it is 10t/16
      truncated toward zero. */
  lemma ConvertReference(m: int)
    requires 0 <= m < 0x10000
    ensures var t := Sixteenths(m);
      Convert(m) == if t >= 0 then (10 * t + 8) / 16 else -((10 * -t) / 16)
  {
    if m >= 0x8000 {
      var mag := 0x10000 - m;
      assert (0xFFFF - m + 1) % 0x10000 == mag;
      ScaleFraction(mag % 16, 0);
      assert Tenths(mag % 16, true) == (10 * (mag % 16)) / 16;
      Recombine(mag, 0);
      assert Convert(m) == -((mag / 16) * 10 + Tenths(mag % 16, true));
    } else {
      ScaleFraction(m % 16, 8);
      assert Tenths(m % 16, false) == (10 * (m % 16) + 8) / 16;
      Recombine(m, 8);
      assert Convert(m) == (m / 16) * 10 + Tenths(m % 16, false);
    }
  }

  /** Every 16-bit register converts to a value an int16_t holds, so the
      driver's 16-bit arithmetic cannot overflow. */
  lemma ConvertFits(m: int)
    requires 0 <= m < 0x10000
    ensures -20480 <= Convert(m) <= 20479
  {
    ConvertReference(m);
  }

  /** The result is either the sentinel or a reading in range, and it is
      the sentinel exactly when the converted reading is out of range. */
  lemma RawToDeciCelsiusRange(sp: seq<bv8>)
    requires |sp| >= 2
    ensures var r := RawToDeciCelsius(sp);
      var d := Convert(Measure(sp[0], sp[1]));
      && (r == DS18B20_INVALID_DECICELSIUS <==> d < -550 || d > 1250)
      && (r != DS18B20_INVALID_DECICELSIUS ==> -550 <= r <= 1250 && r == d)
  {
  }

  /** Register values from the sensor's temperature table at or above
      zero: +125, +85, +25.0625, +10.125, +0.5 and 0 degrees. */
  lemma TableReadingsAboveZero()
    ensures RawToDeciCelsius([0xD0, 0x07]) == 1250
    ensures RawToDeciCelsius([0x50, 0x05]) == 850
    ensures RawToDeciCelsius([0x91, 0x01]) == 251
    ensures RawToDeciCelsius([0xA2, 0x00]) == 101
    ensures RawToDeciCelsius([0x08, 0x00]) == 5
    ensures RawToDeciCelsius([0x00, 0x00]) == 0
  {
    assert Measure(0xD0, 0x07) == 0x07D0 && Convert(0x07D0) == 1250;
    assert Measure(0x50, 0x05) == 0x0550 && Convert(0x0550) == 850;
    assert Measure(0x91, 0x01) == 0x0191 && Convert(0x0191) == 251;
    assert Measure(0xA2, 0x00) == 0x00A2 && Convert(0x00A2) == 101;
    assert Measure(0x08, 0x00) == 0x0008 && Convert(0x0008) == 5;
    assert Measure(0x00, 0x00) == 0x0000 && Convert(0x0000) == 0;
  }

  /** Register values from the table below zero: -0.5, -10.125, -25.0625
      and -55 degrees. The rounding differs by sign: +25.0625 gives 251 but
      -25.0625 gives -250. A register below -55 degrees gives the
      sentinel. */
  lemma TableReadingsBelowZero()
    ensures RawToDeciCelsius([0xF8, 0xFF]) == -5
    ensures RawToDeciCelsius([0x5E, 0xFF]) == -101
    ensures RawToDeciCelsius([0x6F, 0xFE]) == -250
    ensures RawToDeciCelsius([0x90, 0xFC]) == -550
    ensures RawToDeciCelsius([0x80, 0xFC]) == DS18B20_INVALID_DECICELSIUS
  {
    assert Measure(0xF8, 0xFF) == 0xFFF8 && Convert(0xFFF8) == -5;
    assert Measure(0x5E, 0xFF) == 0xFF5E && Convert(0xFF5E) == -101;
    assert Measure(0x6F, 0xFE) == 0xFE6F && Convert(0xFE6F) == -250;
    assert Measure(0x90, 0xFC) == 0xFC90 && Convert(0xFC90) == -550;
    assert Measure(0x80, 0xFC) == 0xFC80 && Convert(0xFC80) == -560;
  }

  /** The rounding offset applies only to non-negative readings: the
      smallest positive register rounds up to 0.1 degrees, the largest
      negative one truncates to 0; +23.5 degrees gives 235. */
  lemma RoundingBySign()
    ensures RawToDeciCelsius([0x01, 0x00]) == 1
    ensures RawToDeciCelsius([0xFF, 0xFF]) == 0
    ensures RawToDeciCelsius([0x78, 0x01]) == 235
  {
    assert Measure(0x01, 0x00) == 0x0001 && Convert(0x0001) == 1;
    assert Measure(0xFF, 0xFF) == 0xFFFF && Convert(0xFFFF) == 0;
    assert Measure(0x78, 0x01) == 0x0178 && Convert(0x0178) == 235;
  }

  // ----- the driver entry points -----

  /** ds18b20_read_decicelsius as a function of the transport state: a
      nine-byte scratchpad read into a local buffer, then the conversion;
      a failed read or an out-of-range reading gives None. The initial
      contents of the local buffer do not matter (ReadScratchpadOutcome). */
  function ReadDeciCelsiusSpec(b: Bus, id: RomId, crc8: Crc8): (Option<int>, Bus) {
    var r := ReadScratchpadSpec(b, id, seq(DS18B20_SP_SIZE, _ => 0), DS18B20_SP_SIZE, crc8);
    if !r.0 then (None, r.2) else
    var t := RawToDeciCelsius(r.1);
    if t == DS18B20_INVALID_DECICELSIUS then (None, r.2) else (Some(t), r.2)
  }

  method ReadDeciCelsius(bus: OneWire, id: RomId, crc8: Crc8) returns (ok: bool, decicelsius: int)
    modifies bus
    ensures ok == ReadDeciCelsiusSpec(old(bus.State()), id, crc8).0.Some?
    ensures ok ==> decicelsius == ReadDeciCelsiusSpec(old(bus.State()), id, crc8).0.value
    ensures bus.State() == ReadDeciCelsiusSpec(old(bus.State()), id, crc8).1
  {
    var sp := new bv8[DS18B20_SP_SIZE];
    ScratchpadOverwritten(old(bus.State()), id, sp[..], seq(DS18B20_SP_SIZE, _ => 0), crc8);
    ok := ReadScratchpad(bus, id, sp, DS18B20_SP_SIZE, crc8);
    decicelsius := 0;
    if !ok {
      return;
    }
    var ret := RawToDeciCelsius(sp[..]);
    if ret == DS18B20_INVALID_DECICELSIUS {
      ok := false;
      return;
    }
    decicelsius := ret;
  }

  /** A reading is delivered exactly when the scratchpad arrives intact and
      converts to a value in range; it is then that conversion of the first
      two scratchpad bytes, between -55.0 and +125.0 degrees. The sensor is
      selected once and no time is slept. */
  lemma ReadDeciCelsiusOutcome(b: Bus, id: RomId, crc8: Crc8)
    ensures var r := ReadDeciCelsiusSpec(b, id, crc8);
      var s := b.script;
      var intact := LeadingAcks(s) >= 2 && 2 < |s| && Answers(s[2], 9) && crc8(s[2].bytes) == 0;
      && (r.0.Some? <==> intact && -550 <= Convert(Measure(s[2].bytes[0], s[2].bytes[1])) <= 1250)
      && (r.0.Some? ==> intact && r.0.value == Convert(Measure(s[2].bytes[0], s[2].bytes[1])))
      && (r.0.Some? ==> -550 <= r.0.value <= 1250)
      && r.1.selects == b.selects + [id] && r.1.slept == b.slept
  {
    var zero := seq(DS18B20_SP_SIZE, _ => 0);
    ReadScratchpadOutcome(b, id, zero, crc8);
    var r := ReadScratchpadSpec(b, id, zero, DS18B20_SP_SIZE, crc8);
    if r.0 {
      RawToDeciCelsiusRange(r.1);
    }
  }

  /** ds18b20_start_meas as a function of the transport state: select the
      sensor, then write the convert command; the result is that write's. */
  function StartMeasSpec(b: Bus, id: RomId): (bool, Bus) {
    var sel := SelectStep(b, id);
    if !sel.0 then (false, sel.1) else WriteStep(sel.1, [DS18B20_CONVERT_T])
  }

  method StartMeas(bus: OneWire, id: RomId) returns (ok: bool)
    modifies bus
    ensures (ok, bus.State()) == StartMeasSpec(old(bus.State()), id)
  {
    ok := bus.Select(id);
    if !ok {
      return;
    }
    ok := bus.Write([DS18B20_CONVERT_T]);
  }

  /** A conversion starts exactly when the next two replies are Acks; the
      sensor is selected once and the convert command written only after
      an acknowledged select; nothing is read, sampled or slept. */
  lemma StartMeasOutcome(b: Bus, id: RomId)
    ensures var r := StartMeasSpec(b, id);
      var s := b.script;
      && (r.0 <==> LeadingAcks(s) >= 2)
      && r.1.selects == b.selects + [id]
      && r.1.writes == b.writes + (if LeadingAcks(s) >= 1 then [[DS18B20_CONVERT_T]] else [])
      && r.1.readCounts == b.readCounts && r.1.samples == b.samples && r.1.slept == b.slept
  {
    var s := b.script;
    if s != [] && s[0] == Ack {
      assert LeadingAcks(s) == 1 + LeadingAcks(s[1..]);
    } else {
      assert LeadingAcks(s) == 0;
    }
  }
}
