/** DS28E17 1-Wire-to-I2C bridge driver: command framing with a running
    CRC-16/ARC and an inverted CRC trailer, a bounded busy-flag poll, and
    status decoding. Each bus transaction is a method over the transport
    object, proved equal to a pure function over the transport state; the
    properties of the transactions are lemmas about those functions. */
module Ds28e17 {
  import opened Transport
  import opened Crc16Arc

  const DS28E17_FAMILY_CODE: bv8 := 0x19

  const SPEED_100KHZ: bv8 := 0x00
  const SPEED_400KHZ: bv8 := 0x01
  const SPEED_900KHZ: bv8 := 0x02

  const DS28E17_WRITE_DATA_WITH_STOP: bv8 := 0x4B
  const DS28E17_WRITE_READ_DATA_WITH_STOP: bv8 := 0x2D
  const DS28E17_WRITE_CONFIGURATION: bv8 := 0xD2

  const DS28E17_STATUS_CRC: bv8 := 0x01
  const DS28E17_STATUS_ADDRESS: bv8 := 0x02
  const DS28E17_STATUS_START: bv8 := 0x08

  /** The speed preset the firmware is built with. */
  const DS28E17_SPEED: bv8 := SPEED_400KHZ

  const DS28E17_BUSY_CHECKS: nat := 100

  predicate IsSpeedPreset(speed: bv8) {
    speed == SPEED_100KHZ || speed == SPEED_400KHZ || speed == SPEED_900KHZ
  }

  /** The I2C clock of a preset, in kHz. */
  function SpeedKHz(speed: bv8): nat
    requires IsSpeedPreset(speed)
  {
    if speed == SPEED_100KHZ then 100 else if speed == SPEED_400KHZ then 400 else 900
  }

  /** The base wait unit of a preset, in microseconds. It is the time one
      I2C byte (nine clocks) takes at that speed, rounded up. */
  function BaseWait(speed: bv8): (us: nat)
    requires IsSpeedPreset(speed)
    ensures (us - 1) * SpeedKHz(speed) < 9000 <= us * SpeedKHz(speed)
  {
    if speed == SPEED_100KHZ then 90 else if speed == SPEED_400KHZ then 23 else 10
  }

  /** The base wait unit of the configured preset, 23 us at 400 kHz. */
  const DS28E17_BASE_WAIT: nat := BaseWait(DS28E17_SPEED)

  // ----- status decoding -----

  /** ds28e17_check_error: true when the transaction succeeded. The tests of
      the CRC, address and start bits are subsumed by the final test, so
      success means exactly that both status bytes are zero. */
  function CheckError(status: seq<bv8>): (ok: bool)
    requires |status| >= 2
    ensures ok <==> status[0] == 0 && status[1] == 0
  {
    if status[0] & DS28E17_STATUS_CRC != 0 then false
    else if status[0] & DS28E17_STATUS_ADDRESS != 0 then false
    else if status[0] & DS28E17_STATUS_START != 0 then false
    else if status[0] != 0 || status[1] != 0 then false
    else true
  }


  // ----- busy-flag poll -----

  /** The number of leading "busy" (Level(true)) replies of a script. */
  function LeadingHigh(s: seq<Reply>): (k: nat)
    ensures k <= |s|
    ensures forall i :: 0 <= i < k ==> s[i] == Level(true)
    ensures k < |s| ==> s[k] != Level(true)
    decreases |s|
  {
    if s != [] && s[0] == Level(true) then 1 + LeadingHigh(s[1..]) else 0
  }

  /** The `while (checks--)` loop: sample, stop on a failure or a clear bit,
      otherwise sleep one base unit. */
  function Poll(b: Bus, checks: nat): (bool, Bus)
    decreases checks
  {
    if checks == 0 then (false, b)
    else
      var r := BitStep(b);
      if r.0.None? then (false, r.1)
      else if !r.0.value then (true, r.1)
      else Poll(DelayStep(r.1, DS28E17_BASE_WAIT), checks - 1)
  }

  /** ds28e17_i2c_busy_wait: one immediate sample, then `count` base units
      of sleep, then at most DS28E17_BUSY_CHECKS more samples. */
  function BusyWaitSpec(b: Bus, count: bv8): (bool, Bus) {
    var r := BitStep(b);
    if r.0.None? then (false, r.1)
    else if !r.0.value then (true, r.1)
    else Poll(Delays(r.1, DS28E17_BASE_WAIT, count as nat), DS28E17_BUSY_CHECKS)
  }

  method BusyWait(bus: OneWire, count: bv8) returns (ok: bool)
    modifies bus
    ensures (ok, bus.State()) == BusyWaitSpec(old(bus.State()), count)
  {
    assert DS28E17_BASE_WAIT == 23;
    var got, bit := bus.BitIo();
    if !got {
      return false;
    }
    if !bit {
      return true;
    }
    ghost var b1 := bus.State();
    var i: nat := 0;
    while i < count as nat
      invariant i <= count as nat
      invariant bus.State() == b1.(slept := b1.slept + i * DS28E17_BASE_WAIT)
    {
      bus.DelayUs(DS28E17_BASE_WAIT);
      i := i + 1;
    }
    DelaysEffect(b1, DS28E17_BASE_WAIT, count as nat);
    ghost var b2 := bus.State();
    assert b2 == Delays(b1, DS28E17_BASE_WAIT, count as nat);
    var checks: nat := DS28E17_BUSY_CHECKS;
    while checks > 0
      invariant checks <= DS28E17_BUSY_CHECKS
      invariant Poll(b2, DS28E17_BUSY_CHECKS) == Poll(bus.State(), checks)
    {
      ghost var bb := bus.State();
      checks := checks - 1;
      got, bit := bus.BitIo();
      if !got {
        assert Poll(bb, checks + 1) == (false, bus.State());
        return false;
      }
      if !bit {
        assert Poll(bb, checks + 1) == (true, bus.State());
        return true;
      }
      bus.DelayUs(DS28E17_BASE_WAIT);
      assert Poll(bb, checks + 1) == Poll(bus.State(), checks);
    }
    return false;
  }

  /** What a poll of at most `checks` samples does, read off the script:
      with k leading busy replies it succeeds exactly when the sample after
      them, within the budget, reads a clear bit, and then it has consumed
      the replies up to and including that sample. */
  lemma {:induction false} PollOutcome(b: Bus, checks: nat)
    ensures var r := Poll(b, checks);
      var s := b.script;
      var k := LeadingHigh(s);
      && (r.0 <==> k < checks && k < |s| && s[k] == Level(false))
      && (r.0 ==> r.1.script == s[k + 1..])
    decreases checks
  {
    assert DS28E17_BASE_WAIT == 23;
    var s := b.script;
    if checks > 0 {
      if s == [] || s[0] != Level(true) {
        assert LeadingHigh(s) == 0;
      } else {
        var b2 := DelayStep(BitStep(b).1, DS28E17_BASE_WAIT);
        assert b2 == b.(script := s[1..], samples := b.samples + 1, slept := b.slept + DS28E17_BASE_WAIT);
        assert Poll(b, checks) == Poll(b2, checks - 1);
        var s' := s[1..];
        var k' := LeadingHigh(s');
        assert LeadingHigh(s) == 1 + k';
        PollOutcome(b2, checks - 1);
        assert k' < |s'| ==> s'[k'] == s[1 + k'];
        assert k' < |s'| ==> s'[k' + 1..] == s[k' + 2..];
      }
    }
  }

  /** A poll with k leading busy replies samples k + 1 times (at most
      `checks`), sleeps one base unit after each busy sample, and selects,
      writes and reads nothing. */
  lemma {:induction false} PollTiming(b: Bus, checks: nat)
    ensures var r := Poll(b, checks);
      var k := LeadingHigh(b.script);
      r.1 == b.(script := r.1.script,
                samples := b.samples + (if k < checks then k + 1 else checks),
                slept := b.slept + (if k < checks then k else checks) * DS28E17_BASE_WAIT)
    decreases checks
  {
    assert DS28E17_BASE_WAIT == 23;
    var s := b.script;
    if checks > 0 {
      if s == [] || s[0] != Level(true) {
        assert LeadingHigh(s) == 0;
      } else {
        var b2 := DelayStep(BitStep(b).1, DS28E17_BASE_WAIT);
        assert b2 == b.(script := s[1..], samples := b.samples + 1, slept := b.slept + DS28E17_BASE_WAIT);
        assert Poll(b, checks) == Poll(b2, checks - 1);
        var k' := LeadingHigh(s[1..]);
        assert LeadingHigh(s) == 1 + k';
        PollTiming(b2, checks - 1);
        var m := if k' < checks - 1 then k' else checks - 1;
        assert (if 1 + k' < checks then 1 + k' else checks) == 1 + m;
        assert (1 + m) * DS28E17_BASE_WAIT == DS28E17_BASE_WAIT + m * DS28E17_BASE_WAIT;
      }
    }
  }

  /** ds28e17_i2c_busy_wait read off the script: it succeeds exactly when
      one of at most 1 + DS28E17_BUSY_CHECKS samples reads a clear bit
      before any transport failure, and then it has consumed the replies up
      to and including that sample. */
  lemma {:induction false} BusyWaitOutcome(b: Bus, count: bv8)
    ensures var r := BusyWaitSpec(b, count);
      var s := b.script;
      var k := LeadingHigh(s);
      && (r.0 <==> k <= DS28E17_BUSY_CHECKS && k < |s| && s[k] == Level(false))
      && (r.0 ==> r.1.script == s[k + 1..])
  {
    var s := b.script;
    var r := BitStep(b);
    if r.0.Some? && r.0.value {
      var b2 := Delays(r.1, DS28E17_BASE_WAIT, count as nat);
      DelaysEffect(r.1, DS28E17_BASE_WAIT, count as nat);
      var s' := s[1..];
      var k' := LeadingHigh(s');
      assert LeadingHigh(s) == 1 + k';
      PollOutcome(b2, DS28E17_BUSY_CHECKS);
      assert k' < |s'| ==> s'[k'] == s[1 + k'];
      assert k' < |s'| ==> s'[k' + 1..] == s[k' + 2..];
    } else {
      assert LeadingHigh(s) == 0;
    }
  }

  /** A busy wait samples the busy bit at most 1 + DS28E17_BUSY_CHECKS
      times. Once the first sample reads busy it sleeps `count` base units
      and then one more after each further busy sample, so on a timeout it
      has slept (count + DS28E17_BUSY_CHECKS) base units. It selects, writes
      and reads nothing. */
  lemma {:induction false} BusyWaitTiming(b: Bus, count: bv8)
    ensures var r := BusyWaitSpec(b, count);
      var k := LeadingHigh(b.script);
      && r.1.selects == b.selects
      && r.1.writes == b.writes
      && r.1.readCounts == b.readCounts
      && r.1.samples == b.samples + (if k <= DS28E17_BUSY_CHECKS then k + 1 else DS28E17_BUSY_CHECKS + 1)
      && r.1.samples <= b.samples + 1 + DS28E17_BUSY_CHECKS
      && r.1.slept == b.slept
           + (if k == 0 then 0 else (count as nat + (if k <= DS28E17_BUSY_CHECKS then k else DS28E17_BUSY_CHECKS + 1) - 1) * DS28E17_BASE_WAIT)
      && (k > DS28E17_BUSY_CHECKS ==> r.1.slept == b.slept + (count as nat + DS28E17_BUSY_CHECKS) * DS28E17_BASE_WAIT)
  {
    assert DS28E17_BASE_WAIT == 23;
    var s := b.script;
    var r := BitStep(b);
    if r.0.Some? && r.0.value {
      var n := count as nat;
      var b2 := Delays(r.1, DS28E17_BASE_WAIT, n);
      DelaysEffect(r.1, DS28E17_BASE_WAIT, n);
      assert LeadingHigh(s) == 1 + LeadingHigh(s[1..]);
      PollTiming(b2, DS28E17_BUSY_CHECKS);
      var k' := LeadingHigh(s[1..]);
      var m := if k' < DS28E17_BUSY_CHECKS then k' else DS28E17_BUSY_CHECKS;
      assert n * DS28E17_BASE_WAIT + m * DS28E17_BASE_WAIT == (n + m) * DS28E17_BASE_WAIT;
    } else {
      assert LeadingHigh(s) == 0;
    }
  }

  // ----- completion: busy wait, then the two status bytes -----

  /** The common tail of a read and a write: wait for the busy flag, read
      the two status bytes, and check them. */
  function AwaitStatus(b: Bus, waitCount: bv8): (bool, Bus) {
    var busy := BusyWaitSpec(b, waitCount);
    if !busy.0 then (false, busy.1)
    else
      var st := ReadStep(busy.1, 2);
      (st.0.Some? && CheckError(st.0.value), st.1)
  }

  /** The shared tail of ds28e17_i2c_read and ds28e17_i2c_write: the busy
      wait, the status read into a two-byte buffer, and the status check. */
  method Complete(bus: OneWire, waitCount: bv8) returns (ok: bool)
    modifies bus
    ensures (ok, bus.State()) == AwaitStatus(old(bus.State()), waitCount)
  {
    ok := BusyWait(bus, waitCount);
    if !ok {
      return;
    }
    var w1Buf := new bv8[2];
    ok := bus.Read(w1Buf, 2);
    if !ok {
      return;
    }
    ok := CheckError(w1Buf[..2]);
  }

  /** Whether the replies `s` bring a transaction to a good end: k busy
      samples with k within the poll budget, a clear busy bit, and the
      status bytes [0, 0]; `k` is returned. */
  function Settles(s: seq<Reply>): (k: Option<nat>)
    ensures k.Some? ==> k.value + 2 <= |s|
  {
    var k := LeadingHigh(s);
    if k <= DS28E17_BUSY_CHECKS && k + 2 <= |s| && s[k] == Level(false) && s[k + 1] == Data([0, 0])
    then Some(k) else None
  }

  /** AwaitStatus read off the script: it succeeds exactly when the script
      Settles, and then it has consumed the busy samples, the clear bit and
      the status reply. */
  lemma {:induction false} AwaitStatusOutcome(b: Bus, waitCount: bv8)
    ensures var r := AwaitStatus(b, waitCount);
      var s := b.script;
      && (r.0 <==> Settles(s).Some?)
      && (r.0 ==> r.1.script == s[Settles(s).value + 2..])
  {
    var s := b.script;
    var k := LeadingHigh(s);
    BusyWaitOutcome(b, waitCount);
    var busy := BusyWaitSpec(b, waitCount);
    if busy.0 {
      assert busy.1.script == s[k + 1..];
      if k + 1 < |s| && s[k + 1] == Data([0, 0]) {
        assert s[k + 1..][1..] == s[k + 2..];
      }
    }
  }

  /** AwaitStatus reads the two status bytes at most once and only after a
      successful busy wait, samples at most 1 + DS28E17_BUSY_CHECKS times,
      only ever adds to the time slept, and neither selects nor writes. */
  lemma {:induction false} AwaitStatusEffects(b: Bus, waitCount: bv8)
    ensures var r := AwaitStatus(b, waitCount);
      && r.1.selects == b.selects
      && r.1.writes == b.writes
      && (r.1.readCounts == b.readCounts || r.1.readCounts == b.readCounts + [2])
      && (!BusyWaitSpec(b, waitCount).0 ==> r.1.readCounts == b.readCounts)
      && (r.0 ==> r.1.readCounts == b.readCounts + [2])
      && r.1.samples <= b.samples + 1 + DS28E17_BUSY_CHECKS
      && r.1.slept >= b.slept
  {
    assert DS28E17_BASE_WAIT == 23;
    BusyWaitTiming(b, waitCount);
  }

  /** Whether `s` is the reply script of a transaction that sends `writes`
      frames and then completes: the select and every frame acknowledged,
      and the rest of the script Settles; the number of busy samples is
      returned. */
  function Completes(s: seq<Reply>, writes: nat): (k: Option<nat>)
    ensures k.Some? ==> 1 + writes + k.value + 2 <= |s|
  {
    if LeadingAcks(s) < 1 + writes then None else Settles(s[1 + writes..])
  }

  /** A select followed by WriteEach and AwaitStatus succeeds exactly when
      the script Completes. */
  lemma {:induction false} TransactionOutcome(b: Bus, id: RomId, frames: seq<seq<bv8>>, waitCount: bv8)
    ensures var sel := SelectStep(b, id);
      var w := WriteEach(sel.1, frames);
      var st := AwaitStatus(w.1, waitCount);
      sel.0 && w.0 && st.0 <==> Completes(b.script, |frames|).Some?
  {
    var s := b.script;
    var sel := SelectStep(b, id);
    if !sel.0 {
      assert LeadingAcks(s) == 0;
      return;
    }
    assert LeadingAcks(s) == 1 + LeadingAcks(s[1..]);
    var w := WriteEach(sel.1, frames);
    WriteEachOutcome(sel.1, frames);
    if w.0 {
      AwaitStatusOutcome(w.1, waitCount);
    }
  }

  /** When the script starts with 1 + |frames| Acks, the select and every
      write succeed and consume exactly those replies. */
  lemma SelectWritesScript(b: Bus, id: RomId, frames: seq<seq<bv8>>)
    requires LeadingAcks(b.script) >= 1 + |frames|
    ensures var sel := SelectStep(b, id);
      var w := WriteEach(sel.1, frames);
      sel.0 && w.0 && w.1.script == b.script[1 + |frames|..]
  {
    var s := b.script;
    assert LeadingAcks(s) == 1 + LeadingAcks(s[1..]);
    var sel := SelectStep(b, id);
    assert sel.1.script == s[1..];
    WriteEachOutcome(sel.1, frames);
    assert s[1..][|frames|..] == s[1 + |frames|..];
  }

  /** A transaction that Completes has consumed exactly the replies
      Completes accounts for. */
  lemma {:induction false} TransactionScript(b: Bus, id: RomId, frames: seq<seq<bv8>>, waitCount: bv8)
    ensures var sel := SelectStep(b, id);
      var w := WriteEach(sel.1, frames);
      var st := AwaitStatus(w.1, waitCount);
      var c := Completes(b.script, |frames|);
      c.Some? ==> st.1.script == b.script[1 + |frames| + c.value + 2..]
  {
    var s := b.script;
    var n := |frames|;
    var c := Completes(s, n);
    if c.Some? {
      var s2 := s[1 + n..];
      assert c == Settles(s2);
      SelectWritesScript(b, id, frames);
      var w := WriteEach(SelectStep(b, id).1, frames);
      assert w.1.script == s2;
      AwaitStatusOutcome(w.1, waitCount);
      assert s2[c.value + 2..] == s[1 + n + c.value + 2..];
    }
  }

  /** The frames of a transaction come from `frames`: a prefix of them is
      written, all of them when the writes are acknowledged; the
      transaction selects `id` once; the select and the writes succeed
      exactly when the script starts with 1 + |frames| Acks; nothing is
      read before the status, which is read at most once; and time is
      only added to. */
  lemma {:induction false} TransactionEffects(b: Bus, id: RomId, frames: seq<seq<bv8>>, waitCount: bv8)
    ensures var sel := SelectStep(b, id);
      var w := WriteEach(sel.1, frames);
      var st := AwaitStatus(w.1, waitCount);
      && sel.1.selects == b.selects + [id]
      && w.1.selects == sel.1.selects && st.1.selects == sel.1.selects
      && b.writes <= w.1.writes && w.1.writes[|b.writes|..] <= frames
      && (w.0 ==> w.1.writes == b.writes + frames)
      && st.1.writes == w.1.writes
      && (sel.0 && w.0 <==> LeadingAcks(b.script) >= 1 + |frames|)
      && sel.1.readCounts == b.readCounts && w.1.readCounts == b.readCounts
      && (st.1.readCounts == b.readCounts || st.1.readCounts == b.readCounts + [2])
      && (st.0 ==> st.1.readCounts == b.readCounts + [2])
      && sel.1.slept == b.slept && w.1.slept == b.slept && st.1.slept >= b.slept
  {
    var sel := SelectStep(b, id);
    WriteEachWrites(sel.1, frames);
    WriteEachKeeps(sel.1, frames);
    WriteEachOutcome(sel.1, frames);
    var w := WriteEach(sel.1, frames);
    var n := WriteAttempts(sel.1.script, |frames|);
    assert w.1.writes[|b.writes|..] == frames[..n];
    if w.0 {
      assert n == |frames|;
      assert frames[..n] == frames;
    }
    if sel.0 {
      assert LeadingAcks(b.script) == 1 + LeadingAcks(b.script[1..]);
    } else {
      assert LeadingAcks(b.script) == 0;
    }
    AwaitStatusEffects(w.1, waitCount);
  }

  // ----- register read -----

  /** The frames `ds28e17_i2c_read` writes, in order: the command header,
      the register, then the read length followed by the inverted CRC of
      all five preceding bytes. */
  function ReadFrames(addr: bv8, reg: bv8, count: bv8): seq<seq<bv8>> {
    var crc := Crc16(CRC16_ARC_INIT, [DS28E17_WRITE_READ_DATA_WITH_STOP, addr << 1, 1, reg, count]);
    [[DS28E17_WRITE_READ_DATA_WITH_STOP, addr << 1, 1], [reg], [count, InvertedLow(crc), InvertedHigh(crc)]]
  }

  /** A bridged read transaction for any frames: select, the writes, the
      status, then `count` data bytes. Returns the success flag, the bytes
      received (empty on failure), and the new state. */
  function ReadTransaction(b: Bus, id: RomId, frames: seq<seq<bv8>>, waitCount: bv8, count: nat): (bool, seq<bv8>, Bus) {
    var sel := SelectStep(b, id);
    if !sel.0 then (false, [], sel.1) else
    var w := WriteEach(sel.1, frames);
    if !w.0 then (false, [], w.1) else
    var st := AwaitStatus(w.1, waitCount);
    if !st.0 then (false, [], st.1) else
    var d := ReadStep(st.1, count);
    if d.0.None? then (false, [], d.1) else (true, d.0.value, d.1)
  }

  /** ds28e17_i2c_read as a function of the transport state. The wait
      count 1 + count + 2 is computed in eight bits as in the source. */
  function I2cReadSpec(b: Bus, id: RomId, addr: bv8, reg: bv8, count: bv8): (bool, seq<bv8>, Bus) {
    ReadTransaction(b, id, ReadFrames(addr, reg, count), 1 + count + 2, count as nat)
  }

  /** ds28e17_i2c_read. `buffer` is written only by the final read, so it
      is untouched unless the busy wait, the status check and that read all
      succeeded. */
  method I2cRead(bus: OneWire, id: RomId, addr: bv8, reg: bv8, buffer: array<bv8>, count: bv8) returns (ok: bool)
    requires count as nat <= buffer.Length
    modifies bus, buffer
    ensures ok == I2cReadSpec(old(bus.State()), id, addr, reg, count).0
    ensures bus.State() == I2cReadSpec(old(bus.State()), id, addr, reg, count).2
    ensures ok ==> buffer[..count] == I2cReadSpec(old(bus.State()), id, addr, reg, count).1
    ensures ok ==> buffer[count..] == old(buffer[count..])
    ensures !ok ==> buffer[..] == old(buffer[..])
  {
    ok := bus.Select(id);
    if !ok {
      return;
    }
    ok := SendReadRequest(bus, addr, reg, count);
    if !ok {
      return;
    }
    ok := Complete(bus, 1 + count + 2);
    if !ok {
      return;
    }
    ok := bus.Read(buffer, count as nat);
  }

  /** The three writes of ds28e17_i2c_read. The CRC is accumulated piece by
      piece as the frames are sent, and its inverse closes the last frame. */
  method SendReadRequest(bus: OneWire, addr: bv8, reg: bv8, count: bv8) returns (ok: bool)
    modifies bus
    ensures (ok, bus.State()) == WriteEach(old(bus.State()), ReadFrames(addr, reg, count))
  {
    ghost var frames := ReadFrames(addr, reg, count);
    var header := [DS28E17_WRITE_READ_DATA_WITH_STOP, addr << 1, 1];
    var crc := Crc16ArcLoop(CRC16_ARC_INIT, header);
    ghost var b1 := bus.State();
    ok := bus.Write(header);
    if !ok {
      return;
    }
    crc := Crc16ArcLoop(crc, [reg]);
    ghost var b2 := bus.State();
    ok := bus.Write([reg]);
    if !ok {
      assert WriteEach(b2, frames[1..]) == (false, bus.State());
      return;
    }
    crc := Crc16ArcLoop(crc, [count]);
    ReadRequestCrc(addr, reg, count);
    var trailer := [count, InvertedLow(crc), InvertedHigh(crc)];
    assert trailer == frames[2];
    ghost var b3 := bus.State();
    ok := bus.Write(trailer);
    assert WriteEach(b3, frames[2..]) == (ok, bus.State()) by {
      assert frames[2..][1..] == [];
    }
    assert frames[1..][1..] == frames[2..];
  }

  /** The CRC of the read request accumulated piece by piece. */
  lemma ReadRequestCrc(addr: bv8, reg: bv8, count: bv8)
    ensures var header := [DS28E17_WRITE_READ_DATA_WITH_STOP, addr << 1, 1];
      Crc16(Crc16(Crc16(CRC16_ARC_INIT, header), [reg]), [count])
        == Crc16(CRC16_ARC_INIT, [DS28E17_WRITE_READ_DATA_WITH_STOP, addr << 1, 1, reg, count])
  {
    var header := [DS28E17_WRITE_READ_DATA_WITH_STOP, addr << 1, 1];
    Fold(CRC16_ARC_INIT, header, [reg]);
    Fold(CRC16_ARC_INIT, header + [reg], [count]);
    assert header + [reg] + [count] == [DS28E17_WRITE_READ_DATA_WITH_STOP, addr << 1, 1, reg, count];
  }

  /** Every read selects the bridge once. The frames it writes are a prefix
      of ReadFrames, and all of them when it succeeds. It reads nothing
      unless the select and all three frames are acknowledged, and then at
      most the 2 status bytes followed by `count` data bytes; a successful
      read reads exactly those and returns `count` bytes. Time slept is
      only added to. */
  lemma I2cReadEffects(b: Bus, id: RomId, addr: bv8, reg: bv8, count: bv8)
    ensures var r := I2cReadSpec(b, id, addr, reg, count);
      && r.2.selects == b.selects + [id]
      && b.writes <= r.2.writes
      && r.2.writes[|b.writes|..] <= ReadFrames(addr, reg, count)
      && (r.0 ==> r.2.writes == b.writes + ReadFrames(addr, reg, count))
      && (LeadingAcks(b.script) < 4 ==> r.2.readCounts == b.readCounts)
      && (r.2.readCounts == b.readCounts || r.2.readCounts == b.readCounts + [2]
          || r.2.readCounts == b.readCounts + [2, count as nat])
      && (r.0 ==> r.2.readCounts == b.readCounts + [2, count as nat])
      && (r.0 ==> |r.1| == count as nat)
      && r.2.slept >= b.slept
  {
    TransactionEffects(b, id, ReadFrames(addr, reg, count), 1 + count + 2);
  }

  /** A read transaction succeeds exactly when the script Completes for
      its frames and the reply after the status is `count` data bytes;
      those bytes are what it returns. */
  lemma ReadTransactionSuccess(b: Bus, id: RomId, frames: seq<seq<bv8>>, waitCount: bv8, count: nat)
    ensures var r := ReadTransaction(b, id, frames, waitCount, count);
      var s := b.script;
      var c := Completes(s, |frames|);
      var j := if c.Some? then 1 + |frames| + c.value + 2 else 0;
      && (r.0 <==> c.Some? && j < |s| && Answers(s[j], count))
      && (c.Some? && j < |s| && Answers(s[j], count) ==> r.1 == s[j].bytes && r.2.script == s[j + 1..])
  {
    var s := b.script;
    TransactionOutcome(b, id, frames, waitCount);
    TransactionScript(b, id, frames, waitCount);
    var sel := SelectStep(b, id);
    var w := WriteEach(sel.1, frames);
    var st := AwaitStatus(w.1, waitCount);
    var c := Completes(s, |frames|);
    if c.Some? {
      assert sel.0 && w.0 && st.0;
      var j := 1 + |frames| + c.value + 2;
      var s3 := st.1.script;
      assert s3 == s[j..];
      var d := ReadStep(st.1, count);
      assert d.1.script == Rest(s3);
      if j < |s| {
        assert s3[0] == s[j];
        assert s3[1..] == s[j + 1..];
      } else {
        assert s3 == [];
      }
    } else {
      assert !(sel.0 && w.0 && st.0);
    }
  }

  /** A register read succeeds exactly when the script Completes for its
      three frames and the reply after the status is `count` data bytes;
      those bytes are what it returns. */
  lemma I2cReadSuccess(b: Bus, id: RomId, addr: bv8, reg: bv8, count: bv8)
    ensures var r := I2cReadSpec(b, id, addr, reg, count);
      var s := b.script;
      var c := Completes(s, 3);
      var j := if c.Some? then 4 + c.value + 2 else 0;
      && (r.0 <==> c.Some? && j < |s| && Answers(s[j], count as nat))
      && (c.Some? && j < |s| && Answers(s[j], count as nat) ==> r.1 == s[j].bytes && r.2.script == s[j + 1..])
  {
    ReadTransactionSuccess(b, id, ReadFrames(addr, reg, count), 1 + count + 2, count as nat);
  }

  /** The frames of a read end with the inverted CRC of everything before
      it, so the bridge's check over the whole frame stream yields the
      fixed residue 0xB001 whatever the address, register and length. */
  lemma ReadFramesChecksum(addr: bv8, reg: bv8, count: bv8)
    ensures var f := ReadFrames(addr, reg, count);
      Crc16(CRC16_ARC_INIT, f[0] + f[1] + f[2]) == 0xB001
  {
    var msg := [DS28E17_WRITE_READ_DATA_WITH_STOP, addr << 1, 1, reg, count];
    var f := ReadFrames(addr, reg, count);
    InvertedTrailerResidue(CRC16_ARC_INIT, msg);
    assert f[0] + f[1] + f[2] == msg + [InvertedLow(Crc16(CRC16_ARC_INIT, msg)), InvertedHigh(Crc16(CRC16_ARC_INIT, msg))];
  }

  // ----- register write -----

  /** The frames `ds28e17_i2c_write` writes, in order: the command header,
      the length byte (register plus data, in eight bits) with the register,
      the data, then the inverted CRC of everything before. */
  function WriteFrames(addr: bv8, reg: bv8, payload: seq<bv8>, count: bv8): seq<seq<bv8>> {
    var crc := Crc16(CRC16_ARC_INIT, [DS28E17_WRITE_DATA_WITH_STOP, addr << 1, count + 1, reg] + payload);
    [[DS28E17_WRITE_DATA_WITH_STOP, addr << 1], [count + 1, reg], payload, [InvertedLow(crc), InvertedHigh(crc)]]
  }

  /** ds28e17_i2c_write as a function of the transport state: the first
      `count` bytes of `buffer` are sent; the wait count count + 2 is
      computed in eight bits as in the source. */
  function I2cWriteSpec(b: Bus, id: RomId, addr: bv8, reg: bv8, buffer: seq<bv8>, count: bv8): (bool, Bus)
    requires count as nat <= |buffer|
  {
    var sel := SelectStep(b, id);
    if !sel.0 then (false, sel.1) else
    var w := WriteEach(sel.1, WriteFrames(addr, reg, buffer[..count], count));
    if !w.0 then (false, w.1) else
    AwaitStatus(w.1, count + 2)
  }

  /** ds28e17_i2c_write. `buffer` is read-only, so it is taken as the bytes
      it holds. */
  method I2cWrite(bus: OneWire, id: RomId, addr: bv8, reg: bv8, buffer: seq<bv8>, count: bv8) returns (ok: bool)
    requires count as nat <= |buffer|
    modifies bus
    ensures (ok, bus.State()) == I2cWriteSpec(old(bus.State()), id, addr, reg, buffer, count)
  {
    ok := bus.Select(id);
    if !ok {
      return;
    }
    ok := SendWriteRequest(bus, addr, reg, buffer[..count], count);
    if !ok {
      return;
    }
    ok := Complete(bus, count + 2);
  }

  /** The four writes of ds28e17_i2c_write, accumulating the CRC piece by
      piece and closing with its inverse. */
  method SendWriteRequest(bus: OneWire, addr: bv8, reg: bv8, payload: seq<bv8>, count: bv8) returns (ok: bool)
    modifies bus
    ensures (ok, bus.State()) == WriteEach(old(bus.State()), WriteFrames(addr, reg, payload, count))
  {
    ghost var frames := WriteFrames(addr, reg, payload, count);
    var header := [DS28E17_WRITE_DATA_WITH_STOP, addr << 1];
    var crc := Crc16ArcLoop(CRC16_ARC_INIT, header);
    ghost var b1 := bus.State();
    ok := bus.Write(header);
    if !ok {
      return;
    }
    var lenReg := [count + 1, reg];
    crc := Crc16ArcLoop(crc, lenReg);
    ghost var b2 := bus.State();
    ok := bus.Write(lenReg);
    if !ok {
      assert WriteEach(b2, frames[1..]) == (false, bus.State());
      return;
    }
    crc := Crc16ArcLoop(crc, payload);
    ghost var b3 := bus.State();
    ok := bus.Write(payload);
    if !ok {
      assert WriteEach(b3, frames[2..]) == (false, bus.State());
      assert WriteEach(b2, frames[1..]) == (false, bus.State()) by {
        assert frames[1..][1..] == frames[2..];
      }
      return;
    }
    WriteRequestCrc(addr, reg, payload, count);
    var trailer := [InvertedLow(crc), InvertedHigh(crc)];
    assert trailer == frames[3];
    ghost var b4 := bus.State();
    ok := bus.Write(trailer);
    assert WriteEach(b4, frames[3..]) == (ok, bus.State()) by {
      assert frames[3..][1..] == [];
    }
    assert WriteEach(b3, frames[2..]) == WriteEach(b4, frames[3..]) by {
      assert frames[2..][1..] == frames[3..];
    }
    assert WriteEach(b2, frames[1..]) == WriteEach(b3, frames[2..]) by {
      assert frames[1..][1..] == frames[2..];
    }
  }

  /** The CRC of the write request accumulated piece by piece. */
  lemma WriteRequestCrc(addr: bv8, reg: bv8, payload: seq<bv8>, count: bv8)
    ensures var header := [DS28E17_WRITE_DATA_WITH_STOP, addr << 1];
      Crc16(Crc16(Crc16(CRC16_ARC_INIT, header), [count + 1, reg]), payload)
        == Crc16(CRC16_ARC_INIT, [DS28E17_WRITE_DATA_WITH_STOP, addr << 1, count + 1, reg] + payload)
  {
    var header := [DS28E17_WRITE_DATA_WITH_STOP, addr << 1];
    Fold(CRC16_ARC_INIT, header, [count + 1, reg]);
    Fold(CRC16_ARC_INIT, header + [count + 1, reg], payload);
    assert header + [count + 1, reg] == [DS28E17_WRITE_DATA_WITH_STOP, addr << 1, count + 1, reg];
  }

  /** Every write selects the bridge once. The frames it writes are a
      prefix of WriteFrames, and all of them when it succeeds. It reads
      nothing unless the select and all four frames are acknowledged, and
      then at most the 2 status bytes; a successful write reads exactly
      those. Time slept is only added to. */
  lemma I2cWriteEffects(b: Bus, id: RomId, addr: bv8, reg: bv8, buffer: seq<bv8>, count: bv8)
    requires count as nat <= |buffer|
    ensures var r := I2cWriteSpec(b, id, addr, reg, buffer, count);
      var frames := WriteFrames(addr, reg, buffer[..count], count);
      && r.1.selects == b.selects + [id]
      && b.writes <= r.1.writes
      && r.1.writes[|b.writes|..] <= frames
      && (r.0 ==> r.1.writes == b.writes + frames)
      && (LeadingAcks(b.script) < 5 ==> r.1.readCounts == b.readCounts)
      && (r.1.readCounts == b.readCounts || r.1.readCounts == b.readCounts + [2])
      && (r.0 ==> r.1.readCounts == b.readCounts + [2])
      && r.1.slept >= b.slept
  {
    TransactionEffects(b, id, WriteFrames(addr, reg, buffer[..count], count), count + 2);
  }

  /** A write succeeds exactly when the script Completes for its four
      frames, and then it has consumed exactly those replies. */
  lemma I2cWriteSuccess(b: Bus, id: RomId, addr: bv8, reg: bv8, buffer: seq<bv8>, count: bv8)
    requires count as nat <= |buffer|
    ensures var r := I2cWriteSpec(b, id, addr, reg, buffer, count);
      var c := Completes(b.script, 4);
      && (r.0 <==> c.Some?)
      && (c.Some? && r.0 ==> r.1.script == b.script[5 + c.value + 2..])
  {
    TransactionOutcome(b, id, WriteFrames(addr, reg, buffer[..count], count), count + 2);
    TransactionScript(b, id, WriteFrames(addr, reg, buffer[..count], count), count + 2);
  }

  /** The frames of a write end with the inverted CRC of everything before
      it, so the bridge's check over the whole frame stream yields the fixed
      residue 0xB001 whatever the address, register and data. */
  lemma WriteFramesChecksum(addr: bv8, reg: bv8, payload: seq<bv8>, count: bv8)
    ensures var f := WriteFrames(addr, reg, payload, count);
      Crc16(CRC16_ARC_INIT, f[0] + f[1] + f[2] + f[3]) == 0xB001
  {
    var msg := [DS28E17_WRITE_DATA_WITH_STOP, addr << 1, count + 1, reg] + payload;
    var f := WriteFrames(addr, reg, payload, count);
    InvertedTrailerResidue(CRC16_ARC_INIT, msg);
    assert f[0] + f[1] + f[2] == msg;
  }

  // ----- configuration -----

  /** ds28e17_set_i2c_speed as written: after the select it writes the
      configuration command and the speed, and then returns false whether
      or not that write was acknowledged, because the test of the write's
      result is inverted and the final `return 0` is false as well. */
  function SetI2cSpeedAsWritten(b: Bus, id: RomId, speed: bv8): (bool, Bus) {
    var sel := SelectStep(b, id);
    if !sel.0 then (false, sel.1) else
    var w := WriteStep(sel.1, [DS28E17_WRITE_CONFIGURATION, speed]);
    if w.0 then (false, w.1) else (false, w.1)
  }

  /** ds28e17_set_i2c_speed as evidently intended: it succeeds when the
      select and the configuration write are both acknowledged. The bus
      traffic is the same as written. */
  function SetI2cSpeedSpec(b: Bus, id: RomId, speed: bv8): (bool, Bus) {
    var sel := SelectStep(b, id);
    if !sel.0 then (false, sel.1) else
    var w := WriteStep(sel.1, [DS28E17_WRITE_CONFIGURATION, speed]);
    (w.0, w.1)
  }

  /** As written, the speed setting never reports success, even on a bus
      that acknowledges everything; the intended version does, and both
      leave the bus in the same state. */
  lemma SetI2cSpeedFinding(b: Bus, id: RomId, speed: bv8)
    ensures !SetI2cSpeedAsWritten(b, id, speed).0
    ensures SetI2cSpeedAsWritten(b, id, speed).1 == SetI2cSpeedSpec(b, id, speed).1
    ensures LeadingAcks(b.script) >= 2 ==> SetI2cSpeedSpec(b, id, speed).0
  {
    if LeadingAcks(b.script) >= 2 {
      assert b.script[1..][0] == b.script[1];
    }
  }

  /** The intended speed setting succeeds exactly when the next two replies
      are Acks; it selects `id` once, writes the configuration frame when
      the select was acknowledged, and reads, samples and sleeps nothing. */
  lemma SetI2cSpeedOutcome(b: Bus, id: RomId, speed: bv8)
    ensures var r := SetI2cSpeedSpec(b, id, speed);
      var s := b.script;
      && (r.0 <==> LeadingAcks(s) >= 2)
      && r.1.selects == b.selects + [id]
      && r.1.writes == b.writes + (if s != [] && s[0] == Ack then [[DS28E17_WRITE_CONFIGURATION, speed]] else [])
      && r.1.readCounts == b.readCounts && r.1.samples == b.samples && r.1.slept == b.slept
  {
    var s := b.script;
    if s != [] && s[0] == Ack {
      assert LeadingAcks(s) == 1 + LeadingAcks(s[1..]);
    } else {
      assert LeadingAcks(s) == 0;
    }
  }

  /** ds28e17_set_i2c_speed, with the intended result. */
  method SetI2cSpeed(bus: OneWire, id: RomId, speed: bv8) returns (ok: bool)
    modifies bus
    ensures (ok, bus.State()) == SetI2cSpeedSpec(old(bus.State()), id, speed)
  {
    ok := bus.Select(id);
    if !ok {
      return;
    }
    ok := bus.Write([DS28E17_WRITE_CONFIGURATION, speed]);
  }

  /** ds28e17_init: configure the bridge for the preset speed. */
  method Init(bus: OneWire, id: RomId) returns (ok: bool)
    modifies bus
    ensures (ok, bus.State()) == SetI2cSpeedSpec(old(bus.State()), id, DS28E17_SPEED)
  {
    ok := SetI2cSpeed(bus, id, DS28E17_SPEED);
  }
}
