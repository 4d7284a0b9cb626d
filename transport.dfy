/** The primary 1-Wire bus as the core sees it: select a device by its ROM
    id, write bytes, read bytes, exchange one bit, and busy-sleep. The real
    transport (bit-banging, ROM search) is not modelled; it is replaced by
    a scripted oracle. Every call takes the next scripted reply; a missing
    reply or one of the wrong kind or length is a transport failure. Every
    call, successful or not, is logged by kind: the ids selected, the frames
    written, the byte counts read, the number of bit samples and the total
    time slept. */
module Transport {

  datatype Option<+T> = None | Some(value: T)

  /** An 8-byte 1-Wire ROM code; byte 0 is the family code. */
  type RomId = s: seq<bv8> | |s| == 8 witness [0, 0, 0, 0, 0, 0, 0, 0]

  function Family(id: RomId): bv8 {
    id[0]
  }

  /** What the bus answers to one call. */
  datatype Reply = Ack | Nak | Data(bytes: seq<bv8>) | Level(bit: bool)

  /** The transport state as a value: the replies still to come and the
      logs of what the host has done so far. */
  datatype Bus = Bus(
    script: seq<Reply>,
    selects: seq<RomId>,
    writes: seq<seq<bv8>>,
    readCounts: seq<nat>,
    samples: nat,
    slept: nat)

  /** The script once its next reply has been taken; an exhausted script
      stays exhausted. */
  function Rest(s: seq<Reply>): seq<Reply> {
    if s == [] then [] else s[1..]
  }

  /** ow_select: succeeds on an Ack. */
  function SelectStep(b: Bus, id: RomId): (bool, Bus) {
    (b.script != [] && b.script[0] == Ack,
     b.(script := Rest(b.script), selects := b.selects + [id]))
  }

  /** ow_write: succeeds on an Ack. */
  function WriteStep(b: Bus, frame: seq<bv8>): (bool, Bus) {
    (b.script != [] && b.script[0] == Ack,
     b.(script := Rest(b.script), writes := b.writes + [frame]))
  }

  /** Whether reply `r` answers a read of `count` bytes. */
  predicate Answers(r: Reply, count: nat) {
    r.Data? && |r.bytes| == count
  }

  /** ow_read: succeeds on a Data reply of exactly `count` bytes. */
  function ReadStep(b: Bus, count: nat): (r: (Option<seq<bv8>>, Bus))
    ensures r.0.Some? <==> b.script != [] && Answers(b.script[0], count)
    ensures r.0.Some? ==> r.0.value == b.script[0].bytes && |r.0.value| == count
  {
    var b' := b.(script := Rest(b.script), readCounts := b.readCounts + [count]);
    if b.script != [] && Answers(b.script[0], count) then (Some(b.script[0].bytes), b')
    else (None, b')
  }

  /** ow_bit_io: succeeds on a Level reply and yields its bit. */
  function BitStep(b: Bus): (r: (Option<bool>, Bus))
    ensures r.0.Some? <==> b.script != [] && b.script[0].Level?
    ensures r.0.Some? ==> r.0.value == b.script[0].bit
  {
    var b' := b.(script := Rest(b.script), samples := b.samples + 1);
    if b.script != [] && b.script[0].Level? then (Some(b.script[0].bit), b') else (None, b')
  }

  /** _delay_us: consumes no reply. */
  function DelayStep(b: Bus, us: nat): Bus {
    b.(slept := b.slept + us)
  }

  /** `n` delays of `us` microseconds each. */
  function Delays(b: Bus, us: nat, n: nat): Bus
    decreases n
  {
    if n == 0 then b else Delays(DelayStep(b, us), us, n - 1)
  }

  /** `n` delays add `n * us` to the time slept and change nothing else. */
  lemma {:induction false} DelaysEffect(b: Bus, us: nat, n: nat)
    ensures Delays(b, us, n) == b.(slept := b.slept + n * us)
    decreases n
  {
    if n > 0 {
      DelaysEffect(DelayStep(b, us), us, n - 1);
      assert us + (n - 1) * us == n * us;
    }
  }

  /** Writes `frames` in order, stopping at the first write that fails. */
  function WriteEach(b: Bus, frames: seq<seq<bv8>>): (bool, Bus)
    decreases |frames|
  {
    if frames == [] then (true, b)
    else
      var w := WriteStep(b, frames[0]);
      if !w.0 then (false, w.1) else WriteEach(w.1, frames[1..])
  }

  /** The number of leading Ack replies of a script. */
  function LeadingAcks(s: seq<Reply>): (k: nat)
    ensures k <= |s|
    ensures forall i :: 0 <= i < k ==> s[i] == Ack
    ensures k < |s| ==> s[k] != Ack
    decreases |s|
  {
    if s != [] && s[0] == Ack then 1 + LeadingAcks(s[1..]) else 0
  }

  /** How many of `m` writes are attempted against script `s`: all of them
      while they are acknowledged, and the first one that is not. */
  function WriteAttempts(s: seq<Reply>, m: nat): nat {
    if LeadingAcks(s) >= m then m else LeadingAcks(s) + 1
  }

  /** WriteEach read off the script: it succeeds exactly when the next
      |frames| replies are Acks, and then it has consumed exactly those. */
  lemma {:induction false} WriteEachOutcome(b: Bus, frames: seq<seq<bv8>>)
    ensures var r := WriteEach(b, frames);
      && (r.0 <==> LeadingAcks(b.script) >= |frames|)
      && (r.0 ==> r.1.script == b.script[|frames|..])
    decreases |frames|
  {
    if frames != [] {
      var w := WriteStep(b, frames[0]);
      if w.0 {
        WriteEachOutcome(w.1, frames[1..]);
        assert LeadingAcks(b.script) == 1 + LeadingAcks(b.script[1..]);
      }
    }
  }

  /** The frames that reach the bus against script `s`: each one in turn
      while the writes are acknowledged, up to and including the first
      write that is not. */
  function Written(s: seq<Reply>, frames: seq<seq<bv8>>): seq<seq<bv8>>
    decreases |frames|
  {
    if frames == [] then []
    else if s != [] && s[0] == Ack then [frames[0]] + Written(s[1..], frames[1..])
    else [frames[0]]
  }

  /** The frames written are a prefix of `frames`: as many as WriteAttempts
      counts. */
  lemma {:induction false} WrittenPrefix(s: seq<Reply>, frames: seq<seq<bv8>>)
    ensures WriteAttempts(s, |frames|) <= |frames|
    ensures Written(s, frames) == frames[..WriteAttempts(s, |frames|)]
    decreases |frames|
  {
    if frames != [] {
      if s != [] && s[0] == Ack {
        WrittenPrefix(s[1..], frames[1..]);
        assert LeadingAcks(s) == 1 + LeadingAcks(s[1..]);
        assert frames[..WriteAttempts(s, |frames|)] == [frames[0]] + frames[1..][..WriteAttempts(s[1..], |frames| - 1)];
      } else {
        assert LeadingAcks(s) == 0;
      }
    }
  }

  /** WriteEach writes the frames up to and including the first one that
      is not acknowledged. */
  lemma {:induction false} WriteEachWrites(b: Bus, frames: seq<seq<bv8>>)
    ensures var r := WriteEach(b, frames);
      var n := WriteAttempts(b.script, |frames|);
      && n <= |frames|
      && r.1.writes == b.writes + frames[..n]
    decreases |frames|
  {
    WriteEachWritten(b, frames);
    WrittenPrefix(b.script, frames);
  }

  /** WriteEach appends to the write log exactly the frames Written
      names. */
  lemma {:induction false} WriteEachWritten(b: Bus, frames: seq<seq<bv8>>)
    ensures WriteEach(b, frames).1.writes == b.writes + Written(b.script, frames)
    decreases |frames|
  {
    if frames != [] {
      var w := WriteStep(b, frames[0]);
      if w.0 {
        WriteEachWritten(w.1, frames[1..]);
        assert b.writes + [frames[0]] + Written(b.script[1..], frames[1..]) == b.writes + Written(b.script, frames);
      }
    }
  }

  /** WriteEach selects, reads, samples and sleeps nothing. */
  lemma {:induction false} WriteEachKeeps(b: Bus, frames: seq<seq<bv8>>)
    ensures var r := WriteEach(b, frames);
      r.1 == b.(script := r.1.script, writes := r.1.writes)
    decreases |frames|
  {
    if frames != [] {
      var w := WriteStep(b, frames[0]);
      if w.0 {
        WriteEachKeeps(w.1, frames[1..]);
      }
    }
  }

  /** The transport object: the reply script and the logs, updated in place. */
  class OneWire {
    var script: seq<Reply>
    var selects: seq<RomId>
    var writes: seq<seq<bv8>>
    var readCounts: seq<nat>
    var samples: nat
    var slept: nat

    function State(): Bus
      reads this
    {
      Bus(script, selects, writes, readCounts, samples, slept)
    }

    constructor (replies: seq<Reply>)
      ensures State() == Bus(replies, [], [], [], 0, 0)
    {
      script := replies;
      selects := [];
      writes := [];
      readCounts := [];
      samples := 0;
      slept := 0;
    }

    method Select(id: RomId) returns (ok: bool)
      modifies this
      ensures (ok, State()) == SelectStep(old(State()), id)
    {
      ok := script != [] && script[0] == Ack;
      script := Rest(script);
      selects := selects + [id];
    }

    /** ow_write of a read-only buffer, taken as the bytes it holds. */
    method Write(frame: seq<bv8>) returns (ok: bool)
      modifies this
      ensures (ok, State()) == WriteStep(old(State()), frame)
    {
      ok := script != [] && script[0] == Ack;
      script := Rest(script);
      writes := writes + [frame];
    }

    /** On success the first `count` cells of `buf` receive the data and
        the rest is untouched; on failure `buf` is untouched. */
    method Read(buf: array<bv8>, count: nat) returns (ok: bool)
      requires count <= buf.Length
      modifies this, buf
      ensures ok == ReadStep(old(State()), count).0.Some?
      ensures State() == ReadStep(old(State()), count).1
      ensures ok ==> buf[..count] == ReadStep(old(State()), count).0.value
      ensures ok ==> buf[count..] == old(buf[count..])
      ensures !ok ==> buf[..] == old(buf[..])
    {
      var r := if script == [] then Nak else script[0];
      script := Rest(script);
      readCounts := readCounts + [count];
      ok := Answers(r, count);
      if ok {
        var i := 0;
        while i < count
          modifies buf
          invariant 0 <= i <= count
          invariant forall j :: 0 <= j < i ==> buf[j] == r.bytes[j]
          invariant forall j :: i <= j < buf.Length ==> buf[j] == old(buf[j])
        {
          buf[i] := r.bytes[i];
          i := i + 1;
        }
        assert buf[..count] == r.bytes;
      }
    }

    method BitIo() returns (ok: bool, bit: bool)
      modifies this
      ensures ok == BitStep(old(State())).0.Some?
      ensures ok ==> bit == BitStep(old(State())).0.value
      ensures State() == BitStep(old(State())).1
    {
      var r := if script == [] then Nak else script[0];
      script := Rest(script);
      samples := samples + 1;
      ok := r.Level?;
      bit := if r.Level? then r.bit else true;
    }

    method DelayUs(us: nat)
      modifies this
      ensures State() == DelayStep(old(State()), us)
    {
      slept := slept + us;
    }
  }
}
