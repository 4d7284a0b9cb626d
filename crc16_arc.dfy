/** CRC-16/ARC as used by the DS28E17 bridge: reflected polynomial 0x8005
    (0xA001 in LSB-first form), processed one byte at a time, eight
    shift/xor steps per byte. The seed is a parameter; CRC16_ARC_INIT is 0. */
module Crc16Arc {

  const CRC16_ARC_POLY: bv16 := 0xA001
  const CRC16_ARC_INIT: bv16 := 0x0000

  /** One reflected shift step: shift right, xor the polynomial when the
      bit shifted out was set. */
  function Step(crc: bv16): bv16 {
    if crc & 1 == 1 then (crc >> 1) ^ CRC16_ARC_POLY else crc >> 1
  }

  /** `n` successive shift steps. */
  function Steps(crc: bv16, n: nat): bv16
    decreases n
  {
    if n == 0 then crc else Steps(Step(crc), n - 1)
  }

  /** Absorbing one byte: xor it into the low eight bits, then eight steps. */
  function UpdateByte(crc: bv16, b: bv8): bv16 {
    Steps(crc ^ (b as bv16), 8)
  }

  /** The checksum as a left fold over the bytes, from seed `crc`. */
  function Crc16(crc: bv16, s: seq<bv8>): bv16
    decreases |s|
  {
    if s == [] then crc else Crc16(UpdateByte(crc, s[0]), s[1..])
  }

  /** crc16_arc: the C loop `while (len--) { crc ^= *buf++; for 8 steps }`
      over a read-only buffer, taken as the bytes it holds. */
  method Crc16ArcLoop(crc: bv16, buf: seq<bv8>) returns (r: bv16)
    ensures r == Crc16(crc, buf)
  {
    r := crc;
    var p := 0;
    while p < |buf|
      invariant 0 <= p <= |buf|
      invariant Crc16(crc, buf) == Crc16(r, buf[p..])
    {
      assert buf[p..] == [buf[p]] + buf[p + 1..];
      var c := r ^ (buf[p] as bv16);
      ghost var c0 := c;
      for i := 0 to 8
        invariant c == Steps(c0, i)
      {
        StepsLast(c0, i);
        c := if c & 1 == 1 then (c >> 1) ^ CRC16_ARC_POLY else c >> 1;
      }
      r := c;
      p := p + 1;
    }
  }

  /** Peeling the last step off an iteration. */
  lemma {:induction false} StepsLast(c: bv16, n: nat)
    ensures Steps(c, n + 1) == Step(Steps(c, n))
    decreases n
  {
    if n > 0 {
      StepsLast(Step(c), n - 1);
    }
  }

  /** An empty buffer returns the seed unchanged. */
  lemma EmptyKeepsSeed(crc: bv16)
    ensures Crc16(crc, []) == crc
  {
  }

  /** Folding: the checksum of a concatenation is the checksum of the second
      part seeded with the checksum of the first. The bridge driver checksums
      a frame sent in several pieces this way. */
  lemma {:induction false} Fold(crc: bv16, a: seq<bv8>, b: seq<bv8>)
    ensures Crc16(Crc16(crc, a), b) == Crc16(crc, a + b)
    decreases |a|
  {
    if a == [] {
      assert a + b == b;
    } else {
      assert (a + b)[0] == a[0];
      assert (a + b)[1..] == a[1..] + b;
      Fold(UpdateByte(crc, a[0]), a[1..], b);
    }
  }

  /** Seed 0 over any run of zero bytes stays 0. */
  lemma {:induction false} ZeroRun(s: seq<bv8>)
    requires forall i :: 0 <= i < |s| ==> s[i] == 0
    ensures Crc16(0, s) == 0
    decreases |s|
  {
    if s != [] {
      assert Steps(0, 8) == 0;
      ZeroRun(s[1..]);
    }
  }

  /** `~(crc & 0xFF)` and `~((crc >> 8) & 0xFF)`: the inverted trailer bytes. */
  function InvertedLow(crc: bv16): bv8 {
    !((crc & 0xFF) as bv8)
  }

  function InvertedHigh(crc: bv16): bv8 {
    !(((crc >> 8) & 0xFF) as bv8)
  }

  /** Appending the inverted checksum, low byte first, to any message leaves
      the constant residue 0xB001: this is how the receiving bridge can
      check a frame whatever its content. */
  lemma {:induction false} InvertedTrailerResidue(crc: bv16, msg: seq<bv8>)
    ensures Crc16(crc, msg + [InvertedLow(Crc16(crc, msg)), InvertedHigh(Crc16(crc, msg))]) == 0xB001
  {
    var c := Crc16(crc, msg);
    Fold(crc, msg, [InvertedLow(c), InvertedHigh(c)]);
    TrailerResidue(c);
  }

  lemma {:induction false} TrailerResidue(c: bv16)
    ensures Crc16(c, [InvertedLow(c), InvertedHigh(c)]) == 0xB001
  {
    var t := [InvertedLow(c), InvertedHigh(c)];
    assert t[1..] == [InvertedHigh(c)];
    assert t[1..][1..] == [];
    var c1 := UpdateByte(c, InvertedLow(c));
    var c2 := UpdateByte(c1, InvertedHigh(c));
    Unfold8(c, InvertedLow(c));
    Unfold8(c1, InvertedHigh(c));
    assert Crc16(c, t) == Crc16(c1, t[1..]);
    assert Crc16(c1, t[1..]) == c2;
  }

  /** Absorbing a byte, written out as its eight steps. */
  lemma {:induction false} Unfold8(crc: bv16, b: bv8)
    ensures UpdateByte(crc, b) == Step(Step(Step(Step(Step(Step(Step(Step(crc ^ (b as bv16)))))))))
  {
    var x := crc ^ (b as bv16);
    assert Steps(x, 8) == Steps(Step(x), 7) == Steps(Step(Step(x)), 6);
    assert Steps(Step(Step(x)), 6) == Steps(Step(Step(Step(Step(x)))), 4);
    assert Steps(Step(Step(Step(Step(x)))), 4) == Steps(Step(Step(Step(Step(Step(Step(x)))))), 2);
    assert Steps(Step(Step(Step(Step(Step(Step(x)))))), 2) == Step(Step(Step(Step(Step(Step(Step(Step(x))))))));
  }

  /** The catalogue check value of CRC-16/ARC: ASCII "123456789" from seed 0
      gives 0xBB3D. */
  lemma {:induction false} CheckValue()
    ensures Crc16(CRC16_ARC_INIT, [0x31, 0x32, 0x33, 0x34, 0x35, 0x36, 0x37, 0x38, 0x39]) == 0xBB3D
  {
    var head: seq<bv8> := [0x31, 0x32, 0x33, 0x34];
    var tail: seq<bv8> := [0x35, 0x36, 0x37, 0x38, 0x39];
    assert Crc16(0, head) == 0x14BA;
    assert Crc16(0x14BA, tail) == 0xBB3D;
    Fold(0, head, tail);
    assert head + tail == [0x31, 0x32, 0x33, 0x34, 0x35, 0x36, 0x37, 0x38, 0x39];
  }
}
