/** The application's dispatch: classifying the sensors found on the bus by
    family code and probe, starting the DS18B20 conversions, waiting a
    second, and reading every sensor by its type. The ROM search that finds
    the sensors is not modelled: its results are inputs. Console output is
    modelled as the sequence of reports the firmware prints. */
module Dispatch {
  import opened Transport
  import Ds28e17
  import Ds18b20
  import Mcp9808
  import Veml7700

  const MAX_SENSORS: nat := 8

  /** The device type codes kept for each sensor. */
  const DEV_UNKNOWN: bv8 := 0
  const DEV_DS18B20: bv8 := 1
  const DEV_VEML7700: bv8 := 2
  const DEV_MPC9808: bv8 := 3

  /** The wait between starting the conversions and reading, 1000 ms. */
  const CONVERSION_WAIT_US: nat := 1000000

  /** The number of sensors: the native and bridged counts added in eight
      bits. */
  function SensorCount(numTemp: bv8, numBridged: bv8): (n: nat)
    ensures n < 256
    ensures numTemp as nat + numBridged as nat <= MAX_SENSORS ==> n == numTemp as nat + numBridged as nat
  {
    (numTemp as nat + numBridged as nat) % 256
  }

  // ----- classification -----

  /** The classification of one sensor. A bridge is configured first (its
      result is ignored, so the inverted test in the speed setting makes no
      difference here), then probed for an MCP9808; a bridge that does not
      answer as one is taken to be a VEML7700 and configured as such. A
      DS18B20 is recognised by its family code alone. */
  function ClassifyOne(b: Bus, id: RomId): (bv8, Bus) {
    if Family(id) == Ds28e17.DS28E17_FAMILY_CODE then
      var init := Ds28e17.SetI2cSpeedSpec(b, id, Ds28e17.DS28E17_SPEED);
      var p := Mcp9808.PresentSpec(init.1, id);
      if p.0 then (DEV_MPC9808, p.1)
      else (DEV_VEML7700, Veml7700.InitSpec(p.1, id).1)
    else if Family(id) == Ds18b20.DS18B20_FAMILY_CODE then (DEV_DS18B20, b)
    else (DEV_UNKNOWN, b)
  }

  /** Classifying the sensors in order, as a left fold. */
  function ClassifyAll(b: Bus, ids: seq<RomId>): (r: (seq<bv8>, Bus))
    ensures |r.0| == |ids|
    decreases |ids|
  {
    if ids == [] then ([], b) else
    var r := ClassifyAll(b, ids[..|ids| - 1]);
    var c := ClassifyOne(r.1, ids[|ids| - 1]);
    (r.0 + [c.0], c.1)
  }

  /** The type a sensor may receive, by its family code. */
  predicate TypeFits(t: bv8, id: RomId) {
    if Family(id) == Ds28e17.DS28E17_FAMILY_CODE then t == DEV_MPC9808 || t == DEV_VEML7700
    else if Family(id) == Ds18b20.DS18B20_FAMILY_CODE then t == DEV_DS18B20
    else t == DEV_UNKNOWN
  }

  /** Every sensor gets exactly one type, and it is the one its family code
      calls for: DS18B20 exactly for family 0x28, MCP9808 or VEML7700
      exactly for family 0x19, unknown otherwise. */
  lemma {:induction false} ClassifyTypes(b: Bus, ids: seq<RomId>)
    ensures var r := ClassifyAll(b, ids);
      |r.0| == |ids| && forall i :: 0 <= i < |ids| ==> TypeFits(r.0[i], ids[i])
    decreases |ids|
  {
    if ids != [] {
      ClassifyTypes(b, ids[..|ids| - 1]);
    }
  }

  /** Classifying a bridge sets its speed (one select) and probes it for
      an MCP9808 (one or two selects). When the probe answers, the type is
      MCP9808 and nothing more is sent, so it is selected three times;
      otherwise the type is VEML7700 and the bridge is selected once more
      for the configuration write, whose frames (a prefix of the
      configuration frames) are the only ones added after the probe. Any
      other sensor is not addressed at all. */
  lemma ClassifyOneSelects(b: Bus, id: RomId)
    ensures var r := ClassifyOne(b, id);
      var init := Ds28e17.SetI2cSpeedSpec(b, id, Ds28e17.DS28E17_SPEED);
      var p := Mcp9808.PresentSpec(init.1, id);
      && (Family(id) == Ds28e17.DS28E17_FAMILY_CODE ==>
            && init.1.selects == b.selects + [id]
            && (r.0 == DEV_MPC9808 <==> p.0)
            && (r.0 == DEV_MPC9808 ==> r.1 == p.1 && r.1.selects == b.selects + [id, id, id])
            && (r.0 == DEV_VEML7700 ==>
                  && r.1.selects == p.1.selects + [id]
                  && p.1.writes <= r.1.writes
                  && r.1.writes[|p.1.writes|..] <= Ds28e17.WriteFrames(Veml7700.VEML7700_I2C_ADDR, Veml7700.VEML7700_ALS_CONF_0, [0x00, 0x00], 2)))
      && (Family(id) != Ds28e17.DS28E17_FAMILY_CODE ==> r.1 == b)
  {
    if Family(id) == Ds28e17.DS28E17_FAMILY_CODE {
      var init := Ds28e17.SetI2cSpeedSpec(b, id, Ds28e17.DS28E17_SPEED);
      Ds28e17.SetI2cSpeedOutcome(b, id, Ds28e17.DS28E17_SPEED);
      var p := Mcp9808.PresentSpec(init.1, id);
      Mcp9808.PresentOutcome(init.1, id);
      if !p.0 {
        Veml7700.InitOutcome(p.1, id);
      }
    }
  }

  /** Hence a bridge is selected three or four times in all, and only
      under its own id. */
  lemma ClassifyOneSelectCount(b: Bus, id: RomId)
    ensures var r := ClassifyOne(b, id);
      Family(id) == Ds28e17.DS28E17_FAMILY_CODE ==>
        r.1.selects == b.selects + [id, id, id] || r.1.selects == b.selects + [id, id, id, id]
  {
    if Family(id) == Ds28e17.DS28E17_FAMILY_CODE {
      ClassifyOneSelects(b, id);
      Mcp9808.PresentSelects(Ds28e17.SetI2cSpeedSpec(b, id, Ds28e17.DS28E17_SPEED).1, id);
    }
  }

  /** Classification talks to the bridges only: every sensor it selects
      has the bridge family code, so no DS18B20 is addressed. */
  lemma {:induction false} ClassifySelects(b: Bus, ids: seq<RomId>)
    ensures var r := ClassifyAll(b, ids);
      && b.selects <= r.1.selects
      && forall j :: |b.selects| <= j < |r.1.selects| ==> Family(r.1.selects[j]) == Ds28e17.DS28E17_FAMILY_CODE
    decreases |ids|
  {
    if ids != [] {
      var r := ClassifyAll(b, ids[..|ids| - 1]);
      ClassifySelects(b, ids[..|ids| - 1]);
      var id := ids[|ids| - 1];
      ClassifyOneSelects(r.1, id);
      ClassifyOneSelectCount(r.1, id);
      var c := ClassifyOne(r.1, id);
      if Family(id) == Ds28e17.DS28E17_FAMILY_CODE {
        assert forall j :: |r.1.selects| <= j < |c.1.selects| ==> c.1.selects[j] == id;
      }
    }
  }

  /** The classification as written: it runs only when at least one bridge
      was found, so with native sensors alone every type is whatever the
      uninitialised array `stale` held. */
  function SetupAsWritten(b: Bus, ids: seq<RomId>, numBridged: bv8, stale: seq<bv8>): (seq<bv8>, Bus)
    requires |ids| <= |stale|
  {
    if numBridged == 0 then (stale, b) else
    var r := ClassifyAll(b, ids);
    (r.0 + stale[|ids|..], r.1)
  }

  /** With one DS18B20 and no bridge, the sensor keeps a stale type as
      written: with a stale 0 it is reported as unknown and never read,
      while the classification the code evidently intends marks it as a
      DS18B20. With a bridge present the two agree. */
  lemma SetupFinding(b: Bus, stale: seq<bv8>, numBridged: bv8, ids: seq<RomId>)
    requires |stale| == MAX_SENSORS && stale[0] == DEV_UNKNOWN
    requires |ids| <= MAX_SENSORS
    ensures var id: RomId := [0x28, 1, 2, 3, 4, 5, 6, 7];
      && SetupAsWritten(b, [id], 0, stale).0[0] == DEV_UNKNOWN
      && ClassifyAll(b, [id]).0[0] == DEV_DS18B20
    ensures numBridged != 0 ==>
      SetupAsWritten(b, ids, numBridged, stale).0[..|ids|] == ClassifyAll(b, ids).0
      && SetupAsWritten(b, ids, numBridged, stale).1 == ClassifyAll(b, ids).1
  {
    var id: RomId := [0x28, 1, 2, 3, 4, 5, 6, 7];
    assert [id][..0] == [];
    ClassifyTypes(b, ids);
  }

  /** The classification of one sensor, as the body of the loop in main. */
  method ClassifySensor(bus: OneWire, id: RomId) returns (t: bv8)
    modifies bus
    ensures (t, bus.State()) == ClassifyOne(old(bus.State()), id)
  {
    t := DEV_UNKNOWN;
    if Family(id) == Ds28e17.DS28E17_FAMILY_CODE {
      var _ := Ds28e17.Init(bus, id);
      var present := Mcp9808.Present(bus, id);
      if present {
        t := DEV_MPC9808;
      } else {
        t := DEV_VEML7700;
        var _ := Veml7700.Init(bus, id);
      }
    }
    if Family(id) == Ds18b20.DS18B20_FAMILY_CODE {
      t := DEV_DS18B20;
    }
  }

  /** The sensor classification, run whether or not a bridge was found:
      the first |ids| cells of `devTypes` receive the types, the rest are
      left as they were. */
  method Setup(bus: OneWire, ids: seq<RomId>, devTypes: array<bv8>)
    requires |ids| <= devTypes.Length
    modifies bus, devTypes
    ensures (devTypes[..|ids|], bus.State()) == ClassifyAll(old(bus.State()), ids)
    ensures devTypes[|ids|..] == old(devTypes[|ids|..])
  {
    ghost var b0 := bus.State();
    for i := 0 to |ids|
      invariant (devTypes[..i], bus.State()) == ClassifyAll(b0, ids[..i])
      invariant devTypes[|ids|..] == old(devTypes[|ids|..])
    {
      assert ids[..i + 1][..i] == ids[..i];
      var t := ClassifySensor(bus, ids[i]);
      devTypes[i] := t;
      assert devTypes[..i + 1] == devTypes[..i] + [t];
    }
    assert ids[..|ids|] == ids;
  }

  // ----- starting the conversions -----

  /** The DS18B20s among `ids`, in order. */
  function Natives(ids: seq<RomId>): seq<RomId>
    decreases |ids|
  {
    if ids == [] then [] else
    var rest := Natives(ids[..|ids| - 1]);
    if Family(ids[|ids| - 1]) == Ds18b20.DS18B20_FAMILY_CODE then rest + [ids[|ids| - 1]] else rest
  }

  /** Starting a conversion on every DS18B20, and on nothing else; the
      result lists the indices of the sensors whose start failed. */
  function StartAll(b: Bus, ids: seq<RomId>): (seq<nat>, Bus)
    decreases |ids|
  {
    if ids == [] then ([], b) else
    var i := |ids| - 1;
    var r := StartAll(b, ids[..i]);
    if Family(ids[i]) == Ds18b20.DS18B20_FAMILY_CODE then
      var s := Ds18b20.StartMeasSpec(r.1, ids[i]);
      (if s.0 then r.0 else r.0 + [i], s.1)
    else r
  }

  /** The start is never broadcast: exactly the DS18B20s are selected, in
      order, each once; every failure reported is the index of a DS18B20;
      nothing is read, sampled or slept. */
  lemma {:induction false} StartAllEffects(b: Bus, ids: seq<RomId>)
    ensures var r := StartAll(b, ids);
      && r.1.selects == b.selects + Natives(ids)
      && (forall k :: k in r.0 ==> k < |ids| && Family(ids[k]) == Ds18b20.DS18B20_FAMILY_CODE)
      && r.1.readCounts == b.readCounts && r.1.samples == b.samples && r.1.slept == b.slept
    decreases |ids|
  {
    if ids != [] {
      var i := |ids| - 1;
      StartAllEffects(b, ids[..i]);
      var r := StartAll(b, ids[..i]);
      assert forall j :: 0 <= j < i ==> ids[..i][j] == ids[j];
      if Family(ids[i]) == Ds18b20.DS18B20_FAMILY_CODE {
        Ds18b20.StartMeasOutcome(r.1, ids[i]);
      }
    }
  }

  /** A failure is reported for exactly each DS18B20 whose start fails,
      given the bus as the earlier starts left it. */
  lemma {:induction false} StartAllFailures(b: Bus, ids: seq<RomId>)
    ensures var r := StartAll(b, ids);
      forall k: nat :: k in r.0 <==>
        k < |ids| && Family(ids[k]) == Ds18b20.DS18B20_FAMILY_CODE
        && !Ds18b20.StartMeasSpec(StartAll(b, ids[..k]).1, ids[k]).0
    decreases |ids|
  {
    if ids != [] {
      var i := |ids| - 1;
      StartAllFailures(b, ids[..i]);
      var r := StartAll(b, ids[..i]);
      var fails := Family(ids[i]) == Ds18b20.DS18B20_FAMILY_CODE && !Ds18b20.StartMeasSpec(r.1, ids[i]).0;
      assert StartAll(b, ids).0 == if fails then r.0 + [i] else r.0;
      assert ids[..i] == ids[..i];
      forall k: nat
        ensures k in StartAll(b, ids).0 <==>
          k < |ids| && Family(ids[k]) == Ds18b20.DS18B20_FAMILY_CODE
          && !Ds18b20.StartMeasSpec(StartAll(b, ids[..k]).1, ids[k]).0
      {
        if k < i {
          assert ids[..i][..k] == ids[..k];
          assert ids[..i][k] == ids[k];
        }
      }
    }
  }

  /** The failures are reported in index order, each once. */
  lemma {:induction false} StartAllFailuresOrdered(b: Bus, ids: seq<RomId>)
    ensures forall p :: 0 <= p < |StartAll(b, ids).0| ==> StartAll(b, ids).0[p] < |ids|
    ensures forall p, q :: 0 <= p < q < |StartAll(b, ids).0| ==> StartAll(b, ids).0[p] < StartAll(b, ids).0[q]
    decreases |ids|
  {
    if ids != [] {
      var i := |ids| - 1;
      StartAllFailuresOrdered(b, ids[..i]);
      var r := StartAll(b, ids[..i]);
      var f := StartAll(b, ids).0;
      assert forall p :: 0 <= p < |r.0| ==> r.0[p] < i;
      if f != r.0 {
        assert f == r.0 + [i];
        assert forall p :: 0 <= p < |r.0| ==> f[p] == r.0[p];
        assert f[|r.0|] == i;
      }
    }
  }

  /** The start phase writes nothing but convert commands, at most one
      per DS18B20, and keeps every earlier write. */
  lemma {:induction false} StartAllWrites(b: Bus, ids: seq<RomId>)
    ensures var r := StartAll(b, ids);
      && b.writes <= r.1.writes
      && |r.1.writes| <= |b.writes| + |Natives(ids)|
      && (forall j :: |b.writes| <= j < |r.1.writes| ==> r.1.writes[j] == [Ds18b20.DS18B20_CONVERT_T])
    decreases |ids|
  {
    if ids != [] {
      var i := |ids| - 1;
      StartAllWrites(b, ids[..i]);
      var r := StartAll(b, ids[..i]);
      if Family(ids[i]) == Ds18b20.DS18B20_FAMILY_CODE {
        Ds18b20.StartMeasOutcome(r.1, ids[i]);
      }
    }
  }

  // ----- reading -----

  datatype Kind = Ds18b20Sensor | Mcp9808Sensor | Veml7700Sensor

  /** What the firmware prints for one sensor: a reading (tenths of a
      degree, or tenths of a lux), a read error, or an unknown sensor. */
  datatype Report =
    | Reading(index: nat, kind: Kind, value: int)
    | ReadError(index: nat, kind: Kind)
    | UnknownSensor(index: nat)

  /** Reading sensor `i` by its type code. */
  function ReadOne(b: Bus, i: nat, id: RomId, t: bv8, crc8: Ds18b20.Crc8): (Report, Bus) {
    if t == DEV_DS18B20 then
      var r := Ds18b20.ReadDeciCelsiusSpec(b, id, crc8);
      (if r.0.Some? then Reading(i, Ds18b20Sensor, r.0.value) else ReadError(i, Ds18b20Sensor), r.1)
    else if t == DEV_MPC9808 then
      var r := Mcp9808.ReadDeciCelsiusSpec(b, id);
      (if r.0.Some? then Reading(i, Mcp9808Sensor, r.0.value) else ReadError(i, Mcp9808Sensor), r.1)
    else if t == DEV_VEML7700 then
      var r := Veml7700.ReadLuxSpec(b, id);
      (if r.0.Some? then Reading(i, Veml7700Sensor, r.0.value) else ReadError(i, Veml7700Sensor), r.1)
    else (UnknownSensor(i), b)
  }

  function ReadAll(b: Bus, ids: seq<RomId>, types: seq<bv8>, crc8: Ds18b20.Crc8): (seq<Report>, Bus)
    requires |types| == |ids|
    decreases |ids|
  {
    if ids == [] then ([], b) else
    var i := |ids| - 1;
    var r := ReadAll(b, ids[..i], types[..i], crc8);
    var o := ReadOne(r.1, i, ids[i], types[i], crc8);
    (r.0 + [o.0], o.1)
  }

  /** What a report for sensor `i` of type `t` may be: about sensor `i`,
      of the kind its type names, and a reading within that sensor's range;
      any other type code is reported as unknown. */
  predicate ReportFits(rep: Report, i: nat, t: bv8) {
    && rep.index == i
    && (t == DEV_DS18B20 ==>
          (rep.Reading? || rep.ReadError?) && rep.kind == Ds18b20Sensor
          && (rep.Reading? ==> -550 <= rep.value <= 1250))
    && (t == DEV_MPC9808 ==>
          (rep.Reading? || rep.ReadError?) && rep.kind == Mcp9808Sensor
          && (rep.Reading? ==> -2560 <= rep.value <= 2559))
    && (t == DEV_VEML7700 ==>
          (rep.Reading? || rep.ReadError?) && rep.kind == Veml7700Sensor
          && (rep.Reading? ==> 0 <= rep.value <= 37748))
    && (t != DEV_DS18B20 && t != DEV_MPC9808 && t != DEV_VEML7700 ==> rep == UnknownSensor(i))
  }

  /** Whether `t` names a sensor kind the read loop reads. */
  predicate KnownType(t: bv8) {
    t == DEV_DS18B20 || t == DEV_MPC9808 || t == DEV_VEML7700
  }

  /** The ids the read loop addresses: those of a known type, in order. */
  function Addressed(ids: seq<RomId>, types: seq<bv8>): seq<RomId>
    requires |types| == |ids|
    decreases |ids|
  {
    if ids == [] then [] else
    var i := |ids| - 1;
    Addressed(ids[..i], types[..i]) + (if KnownType(types[i]) then [ids[i]] else [])
  }

  /** The report for a sensor fits its type; a sensor of known type is
      selected exactly once, under its own id, and one of unknown type is
      not addressed at all; no read takes time back. */
  lemma ReadOneFits(b: Bus, i: nat, id: RomId, t: bv8, crc8: Ds18b20.Crc8)
    ensures ReportFits(ReadOne(b, i, id, t, crc8).0, i, t)
    ensures KnownType(t) ==> ReadOne(b, i, id, t, crc8).1.selects == b.selects + [id]
    ensures !KnownType(t) ==> ReadOne(b, i, id, t, crc8).1 == b
    ensures ReadOne(b, i, id, t, crc8).1.slept >= b.slept
  {
    if t == DEV_DS18B20 {
      Ds18b20.ReadDeciCelsiusOutcome(b, id, crc8);
    } else if t == DEV_MPC9808 {
      Mcp9808.ReadDeciCelsiusOutcome(b, id);
    } else if t == DEV_VEML7700 {
      Veml7700.ReadLuxOutcome(b, id);
    }
  }

  /** Reading sensors only ever adds to the time slept. */
  lemma {:induction false} ReadAllSleeps(b: Bus, ids: seq<RomId>, types: seq<bv8>, crc8: Ds18b20.Crc8)
    requires |types| == |ids|
    ensures ReadAll(b, ids, types, crc8).1.slept >= b.slept
    decreases |ids|
  {
    if ids != [] {
      var i := |ids| - 1;
      ReadAllSleeps(b, ids[..i], types[..i], crc8);
      ReadOneFits(ReadAll(b, ids[..i], types[..i], crc8).1, i, ids[i], types[i], crc8);
    }
  }

  /** The read loop selects exactly the sensors of known type, in order,
      each once. */
  lemma {:induction false} ReadAllSelects(b: Bus, ids: seq<RomId>, types: seq<bv8>, crc8: Ds18b20.Crc8)
    requires |types| == |ids|
    ensures ReadAll(b, ids, types, crc8).1.selects == b.selects + Addressed(ids, types)
    decreases |ids|
  {
    if ids != [] {
      var i := |ids| - 1;
      ReadAllSelects(b, ids[..i], types[..i], crc8);
      ReadOneFits(ReadAll(b, ids[..i], types[..i], crc8).1, i, ids[i], types[i], crc8);
    }
  }

  /** One report per sensor, in index order, each fitting its type. */
  lemma {:induction false} ReadAllReports(b: Bus, ids: seq<RomId>, types: seq<bv8>, crc8: Ds18b20.Crc8)
    requires |types| == |ids|
    ensures var r := ReadAll(b, ids, types, crc8);
      |r.0| == |ids| && forall i :: 0 <= i < |ids| ==> ReportFits(r.0[i], i, types[i])
    decreases |ids|
  {
    if ids != [] {
      var i := |ids| - 1;
      ReadAllReports(b, ids[..i], types[..i], crc8);
      var r := ReadAll(b, ids[..i], types[..i], crc8);
      ReadOneFits(r.1, i, ids[i], types[i], crc8);
      assert forall j :: 0 <= j < i ==> types[..i][j] == types[j];
    }
  }

  // ----- one measurement cycle -----

  /** One pass of the main loop: start the DS18B20 conversions, wait a
      second, read every sensor. */
  function CycleSpec(b: Bus, ids: seq<RomId>, types: seq<bv8>, crc8: Ds18b20.Crc8): (seq<nat>, seq<Report>, Bus)
    requires |types| == |ids|
  {
    var s := StartAll(b, ids);
    var r := ReadAll(DelayStep(s.1, CONVERSION_WAIT_US), ids, types, crc8);
    (s.0, r.0, r.1)
  }

  /** The first loop of a cycle: start a conversion on each DS18B20. */
  method StartConversions(bus: OneWire, ids: seq<RomId>) returns (startErrors: seq<nat>)
    modifies bus
    ensures (startErrors, bus.State()) == StartAll(old(bus.State()), ids)
  {
    ghost var b0 := bus.State();
    startErrors := [];
    for i := 0 to |ids|
      invariant (startErrors, bus.State()) == StartAll(b0, ids[..i])
    {
      assert ids[..i + 1][..i] == ids[..i];
      if Family(ids[i]) == Ds18b20.DS18B20_FAMILY_CODE {
        var ok := Ds18b20.StartMeas(bus, ids[i]);
        if !ok {
          startErrors := startErrors + [i];
        }
      }
    }
    assert ids[..|ids|] == ids;
  }

  /** Reading sensor `i` by its type code, as the body of the second loop. */
  method ReadSensor(bus: OneWire, i: nat, id: RomId, t: bv8, crc8: Ds18b20.Crc8) returns (rep: Report)
    modifies bus
    ensures (rep, bus.State()) == ReadOne(old(bus.State()), i, id, t, crc8)
  {
    if t == DEV_DS18B20 {
      var ok, temperature := Ds18b20.ReadDeciCelsius(bus, id, crc8);
      rep := if ok then Reading(i, Ds18b20Sensor, temperature) else ReadError(i, Ds18b20Sensor);
    } else if t == DEV_MPC9808 {
      var ok, temperature := Mcp9808.ReadDeciCelsius(bus, id);
      rep := if ok then Reading(i, Mcp9808Sensor, temperature) else ReadError(i, Mcp9808Sensor);
    } else if t == DEV_VEML7700 {
      var ok, lux := Veml7700.ReadLux(bus, id);
      rep := if ok then Reading(i, Veml7700Sensor, lux) else ReadError(i, Veml7700Sensor);
    } else {
      rep := UnknownSensor(i);
    }
  }

  /** The second loop of a cycle: read every sensor by its type. The type
      codes are only read, so they are taken as the values they hold. */
  method ReadSensors(bus: OneWire, ids: seq<RomId>, types: seq<bv8>, crc8: Ds18b20.Crc8) returns (reports: seq<Report>)
    requires |types| == |ids|
    modifies bus
    ensures (reports, bus.State()) == ReadAll(old(bus.State()), ids, types, crc8)
  {
    ghost var b0 := bus.State();
    reports := [];
    for i := 0 to |ids|
      invariant (reports, bus.State()) == ReadAll(b0, ids[..i], types[..i], crc8)
    {
      assert ids[..i + 1][..i] == ids[..i];
      assert types[..i + 1][..i] == types[..i];
      var rep := ReadSensor(bus, i, ids[i], types[i], crc8);
      reports := reports + [rep];
    }
    assert ids[..|ids|] == ids;
    assert types[..|ids|] == types;
  }

  method Cycle(bus: OneWire, ids: seq<RomId>, devTypes: array<bv8>, crc8: Ds18b20.Crc8)
      returns (startErrors: seq<nat>, reports: seq<Report>)
    requires |ids| <= devTypes.Length
    modifies bus
    ensures (startErrors, reports, bus.State()) == CycleSpec(old(bus.State()), ids, devTypes[..|ids|], crc8)
  {
    startErrors := StartConversions(bus, ids);
    bus.DelayUs(CONVERSION_WAIT_US);
    reports := ReadSensors(bus, ids, devTypes[..|ids|], crc8);
  }

  /** A cycle sleeps at least the conversion time and reports each sensor
      once in order within its range. It selects first exactly the
      DS18B20s, to start them, and then exactly the sensors of known type,
      to read them, each once and in order. */
  lemma CycleOutcome(b: Bus, ids: seq<RomId>, types: seq<bv8>, crc8: Ds18b20.Crc8)
    requires |types| == |ids|
    ensures var c := CycleSpec(b, ids, types, crc8);
      && StartAll(b, ids).1.selects == b.selects + Natives(ids)
      && c.2.selects == b.selects + Natives(ids) + Addressed(ids, types)
      && |c.1| == |ids|
      && (forall i :: 0 <= i < |ids| ==> ReportFits(c.1[i], i, types[i]))
      && c.2.slept >= b.slept + CONVERSION_WAIT_US
  {
    StartAllEffects(b, ids);
    var w := DelayStep(StartAll(b, ids).1, CONVERSION_WAIT_US);
    ReadAllReports(w, ids, types, crc8);
    ReadAllSleeps(w, ids, types, crc8);
    ReadAllSelects(w, ids, types, crc8);
  }

  // ----- printing -----

  /** The arguments a temperature is printed with: a minus sign when it is
      negative, then the whole degrees and the tenth of its absolute
      value. */
  function SplitTemperature(t: int): (r: (bool, nat, nat)) {
    var a := if t < 0 then -t else t;
    (t < 0, a / 10, a % 10)
  }

  /** The printed form reads back as the value: sign, whole part and a
      single tenth digit. */
  lemma SplitTemperatureRoundTrip(t: int)
    ensures var r := SplitTemperature(t);
      && r.2 < 10
      && (r.0 <==> t < 0)
      && (if r.0 then -(10 * r.1 + r.2) else 10 * r.1 + r.2) == t
  {
  }

  /** The arguments a light level is printed with: whole lux and tenth. */
  function SplitLux(lux: nat): (nat, nat) {
    (lux / 10, lux % 10)
  }

  lemma SplitLuxRoundTrip(lux: nat)
    ensures SplitLux(lux).1 < 10 && 10 * SplitLux(lux).0 + SplitLux(lux).1 == lux
  {
  }
}
