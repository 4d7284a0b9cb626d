/** The VEML7700 ambient light sensor behind a DS28E17 bridge: writing its
    configuration register and scaling its ALS count to tenths of a lux.
    Gain and integration time are fixed when the firmware is built; the
    model keeps every setting the driver knows and fixes the same one. */
module Veml7700 {
  import opened Transport
  import opened Ds28e17

  const VEML7700_I2C_ADDR: bv8 := 0x10
  const VEML7700_ALS_CONF_0: bv8 := 0x00
  const VEML7700_ALS: bv8 := 0x04

  const VEML7700_BASE_FACTOR: nat := 36
  const VEML7700_SCALE_FACTOR: nat := 1000

  /** The ALS gain settings: x1, x2, x1/8 and x1/4. */
  datatype Gain = GainX1 | GainX2 | GainD8 | GainD4

  /** The integration times, in milliseconds. */
  datatype IntegrationTime = It800 | It400 | It200 | It100 | It50 | It25

  /** The gain field, bits 11 and 12 of the configuration register. */
  function GainCode(g: Gain): nat {
    match g
    case GainX1 => 0 * 2048
    case GainX2 => 1 * 2048
    case GainD8 => 2 * 2048
    case GainD4 => 3 * 2048
  }

  /** The integration time field, bits 6 to 9 of the configuration register. */
  function ItCode(it: IntegrationTime): nat {
    match it
    case It800 => 3 * 64
    case It400 => 2 * 64
    case It200 => 1 * 64
    case It100 => 0 * 64
    case It50 => 8 * 64
    case It25 => 12 * 64
  }

  /** The correction for the gain, relative to gain x2. */
  function GainFactor(g: Gain): nat {
    match g
    case GainX2 => 1
    case GainX1 => 2
    case GainD4 => 8
    case GainD8 => 16
  }

  /** The correction for the integration time, relative to 800 ms. */
  function ItFactor(it: IntegrationTime): nat {
    match it
    case It800 => 1
    case It400 => 2
    case It200 => 4
    case It100 => 8
    case It50 => 16
    case It25 => 32
  }

  /** The gain as a fraction, numerator over denominator. */
  function GainRatio(g: Gain): (nat, nat) {
    match g
    case GainX1 => (1, 1)
    case GainX2 => (2, 1)
    case GainD8 => (1, 8)
    case GainD4 => (1, 4)
  }

  function ItMilliseconds(it: IntegrationTime): nat {
    match it
    case It800 => 800
    case It400 => 400
    case It200 => 200
    case It100 => 100
    case It50 => 50
    case It25 => 25
  }

  /** The corrections are inversely proportional to the gain and to the
      integration time: the count for a given light level doubles with the
      gain or the integration time, and the correction halves. */
  lemma FactorsInverse(g: Gain, it: IntegrationTime)
    ensures GainFactor(g) * GainRatio(g).0 == 2 * GainRatio(g).1
    ensures ItFactor(it) * ItMilliseconds(it) == 800
  {
  }

  /** The configuration word for a gain and an integration time; the two
      fields do not overlap, so the `|` is a sum. */
  function ConfigWord(g: Gain, it: IntegrationTime): (w: nat)
    ensures w < 0x10000
  {
    GainCode(g) + ItCode(it)
  }

  /** Reading the gain back out of a configuration word. */
  function DecodeGain(w: nat): Gain {
    var f := (w / 2048) % 4;
    if f == 0 then GainX1 else if f == 1 then GainX2 else if f == 2 then GainD8 else GainD4
  }

  /** Reading the integration time back out of a configuration word; field
      values the sensor does not define give None. */
  function DecodeIt(w: nat): Option<IntegrationTime> {
    var f := (w / 64) % 16;
    if f == 3 then Some(It800) else if f == 2 then Some(It400)
    else if f == 1 then Some(It200) else if f == 0 then Some(It100)
    else if f == 8 then Some(It50) else if f == 12 then Some(It25)
    else None
  }

  /** Every setting is encoded in its own field and read back unchanged. */
  lemma ConfigRoundTrip(g: Gain, it: IntegrationTime)
    ensures DecodeGain(ConfigWord(g, it)) == g
    ensures DecodeIt(ConfigWord(g, it)) == Some(it)
    ensures ConfigWord(g, it) % 64 == 0
  {
    var gc := GainCode(g) / 2048;
    var ic := ItCode(it) / 64;
    assert GainCode(g) == 2048 * gc && gc < 4;
    assert ItCode(it) == 64 * ic && ic < 16;
    FieldsApart(gc, ic);
  }

  /** A word made of a two-bit field at bit 11 and a four-bit field at bit
      6 gives both fields back. */
  lemma FieldsApart(gc: nat, ic: nat)
    requires gc < 4 && ic < 16
    ensures (2048 * gc + 64 * ic) / 2048 % 4 == gc
    ensures (2048 * gc + 64 * ic) / 64 % 16 == ic
    ensures (2048 * gc + 64 * ic) % 64 == 0
  {
    var w := 2048 * gc + 64 * ic;
    assert w == 64 * (32 * gc + ic);
    assert w / 64 == 32 * gc + ic;
    assert w == 2048 * gc + 64 * ic && 64 * ic < 2048;
    assert w / 2048 == gc;
  }

  /** The settings the firmware is built with, and the overall factor. */
  const VEML7700_GAIN: Gain := GainX1
  const VEML7700_IT: IntegrationTime := It100

  function Factor(g: Gain, it: IntegrationTime): nat {
    VEML7700_BASE_FACTOR * GainFactor(g) * ItFactor(it)
  }

  const VEML7700_FACTOR: nat := 576

  /** The factor the firmware scales by is the one its settings call for,
      and no setting makes a 16-bit count times the factor overflow the
      32-bit unsigned product. */
  lemma FactorOfSettings(raw: nat, g: Gain, it: IntegrationTime)
    requires raw < 0x10000
    ensures VEML7700_FACTOR == Factor(VEML7700_GAIN, VEML7700_IT)
    ensures raw * Factor(g, it) < 0x1_0000_0000
  {
    assert Factor(g, it) <= 36 * 16 * 32;
  }

  // ----- configuration -----

  /** The configuration word as it is written: the two bytes of a uint16_t
      on a little-endian host, low byte first. */
  function ConfigBytes(w: nat): seq<bv8>
    requires w < 0x10000
  {
    [(w % 256) as bv8, (w / 256) as bv8]
  }

  /** veml7700_init as a function of the transport state: one bridged
      write of the configuration word to register 0. */
  function InitSpec(b: Bus, id: RomId): (bool, Bus) {
    I2cWriteSpec(b, id, VEML7700_I2C_ADDR, VEML7700_ALS_CONF_0, ConfigBytes(ConfigWord(VEML7700_GAIN, VEML7700_IT)), 2)
  }

  method Init(bus: OneWire, id: RomId) returns (ok: bool)
    modifies bus
    ensures (ok, bus.State()) == InitSpec(old(bus.State()), id)
  {
    var confregValue := ConfigBytes(ConfigWord(VEML7700_GAIN, VEML7700_IT));
    ok := I2cWrite(bus, id, VEML7700_I2C_ADDR, VEML7700_ALS_CONF_0, confregValue, 2);
  }

  /** The configuration written is gain x1 and 100 ms, the word 0x0000
      sent as two zero bytes; the write succeeds exactly when the bridge
      transaction completes, selects the bridge once, and writes a prefix
      of the configuration frames, all of them on success. */
  lemma InitOutcome(b: Bus, id: RomId)
    ensures ConfigBytes(ConfigWord(VEML7700_GAIN, VEML7700_IT)) == [0x00, 0x00]
    ensures var r := InitSpec(b, id);
      && (r.0 <==> Completes(b.script, 4).Some?)
      && r.1.selects == b.selects + [id]
      && b.writes <= r.1.writes
      && r.1.writes[|b.writes|..] <= WriteFrames(VEML7700_I2C_ADDR, VEML7700_ALS_CONF_0, [0x00, 0x00], 2)
      && (r.0 ==> r.1.writes == b.writes + WriteFrames(VEML7700_I2C_ADDR, VEML7700_ALS_CONF_0, [0x00, 0x00], 2))
  {
    var bytes := ConfigBytes(ConfigWord(VEML7700_GAIN, VEML7700_IT));
    assert bytes == [0x00, 0x00];
    assert bytes[..2] == bytes;
    I2cWriteSuccess(b, id, VEML7700_I2C_ADDR, VEML7700_ALS_CONF_0, bytes, 2);
    I2cWriteEffects(b, id, VEML7700_I2C_ADDR, VEML7700_ALS_CONF_0, bytes, 2);
  }

  // ----- reading -----

  /** The ALS register as it is read: low byte first. */
  function LittleEndian(bytes: seq<bv8>): (v: nat)
    requires |bytes| == 2
    ensures v < 0x10000
  {
    bytes[0] as nat + 256 * bytes[1] as nat
  }

  /** veml7700_scale_lux: the count times the factor, divided by 1000 in
      unsigned 32-bit arithmetic, which never wraps (FactorOfSettings). */
  function ScaleLux(raw: nat): nat
    requires raw < 0x10000
  {
    (raw * VEML7700_FACTOR) / VEML7700_SCALE_FACTOR
  }

  /** The result is the light level in tenths of a lux, rounded down: the
      sensor's resolution at gain x1 and 100 ms is 0.0576 lux per count. */
  lemma ScaleLuxReference(raw: nat)
    requires raw < 0x10000
    ensures 1000 * ScaleLux(raw) <= 576 * raw < 1000 * ScaleLux(raw) + 1000
  {
  }

  /** A higher count never gives a lower level, and the largest count
      gives 3774.8 lux. */
  lemma ScaleLuxMonotone(r1: nat, r2: nat)
    requires r1 <= r2 < 0x10000
    ensures ScaleLux(r1) <= ScaleLux(r2) <= ScaleLux(0xFFFF) == 37748
  {
  }

  lemma ScaleLuxExamples()
    ensures ScaleLux(0) == 0
    ensures ScaleLux(1) == 0
    ensures ScaleLux(2) == 1
    ensures ScaleLux(100) == 57
    ensures ScaleLux(1000) == 576
  {
  }

  /** veml7700_read_lux as a function of the transport state: a two-byte
      read of the ALS register, scaled; None when the read fails. */
  function ReadLuxSpec(b: Bus, id: RomId): (Option<nat>, Bus) {
    var r := I2cReadSpec(b, id, VEML7700_I2C_ADDR, VEML7700_ALS, 2);
    if !r.0 then (None, r.2) else (Some(ScaleLux(LittleEndian(r.1))), r.2)
  }

  method ReadLux(bus: OneWire, id: RomId) returns (ok: bool, lux: nat)
    modifies bus
    ensures ok == ReadLuxSpec(old(bus.State()), id).0.Some?
    ensures ok ==> lux == ReadLuxSpec(old(bus.State()), id).0.value
    ensures bus.State() == ReadLuxSpec(old(bus.State()), id).1
  {
    var regValue := new bv8[2];
    ok := I2cRead(bus, id, VEML7700_I2C_ADDR, VEML7700_ALS, regValue, 2);
    lux := 0;
    if !ok {
      return;
    }
    assert regValue[..] == regValue[..2];
    lux := ScaleLux(LittleEndian(regValue[..]));
  }

  /** A level is delivered exactly when the bridged read of the ALS
      register succeeds; it is the scaled count of the two bytes received,
      low byte first, and at most 3774.8 lux. */
  lemma ReadLuxOutcome(b: Bus, id: RomId)
    ensures var r := ReadLuxSpec(b, id);
      var rd := I2cReadSpec(b, id, VEML7700_I2C_ADDR, VEML7700_ALS, 2);
      && (r.0.Some? <==> rd.0)
      && (r.0.Some? ==> |rd.1| == 2 && r.0.value == ScaleLux(rd.1[0] as nat + 256 * rd.1[1] as nat))
      && (r.0.Some? ==> r.0.value <= 37748)
      && r.1.selects == b.selects + [id] && r.1.slept >= b.slept
  {
    var rd := I2cReadSpec(b, id, VEML7700_I2C_ADDR, VEML7700_ALS, 2);
    I2cReadEffects(b, id, VEML7700_I2C_ADDR, VEML7700_ALS, 2);
    if rd.0 {
      ScaleLuxMonotone(LittleEndian(rd.1), 0xFFFF);
    }
  }
}
