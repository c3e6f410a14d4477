/** The CRC-32 of core/dtv_camd_crypt.c, which shifts to the right: the register of module Crc seen in
    a mirror, fed each byte from its least significant bit on. */
module Crc32 {
  import opened Bytes
  import Crc

  type Word = bv32

  function Invert(w: Word): Word { w ^ 0xffffffff }

  function Step(crc: Word): Word {
    if crc & 1 != 0 then (crc >> 1) ^ 0xedb88320 else crc >> 1
  }

  function Steps(crc: Word, count: nat): Word
    decreases count
  {
    if count == 0 then crc else Steps(Step(crc), count - 1)
  }

  /* ---- the mirror ---- */

  /** The bits of a word in reverse: halves, bytes, nibbles, pairs and single bits swapped in turn. */
  function Mirror(w: Word): Word {
    var a := (w >> 16) | (w << 16);
    var b := ((a >> 8) & 0x00ff00ff) | ((a & 0x00ff00ff) << 8);
    var c := ((b >> 4) & 0x0f0f0f0f) | ((b & 0x0f0f0f0f) << 4);
    var d := ((c >> 2) & 0x33333333) | ((c & 0x33333333) << 2);
    ((d >> 1) & 0x55555555) | ((d & 0x55555555) << 1)
  }

  function MirrorByte(b: Byte): Byte {
    var c := (b >> 4) | (b << 4);
    var d := ((c >> 2) & 0x33) | ((c & 0x33) << 2);
    ((d >> 1) & 0x55) | ((d & 0x55) << 1)
  }

  function MirrorBytes(s: seq<Byte>): (m: seq<Byte>)
    ensures |m| == |s|
  {
    seq(|s|, i requires 0 <= i < |s| => MirrorByte(s[i]))
  }

  /** What the swaps amount to: bit k of the mirrored word is bit 31 - k of the word. */
  lemma MirrorBits(w: Word, k: Word)
    requires k < 32
    ensures (Mirror(w) >> k) & 1 == (w >> (31 - k)) & 1
  {
  }

  lemma MirrorTwice(w: Word)
    ensures Mirror(Mirror(w)) == w
  {
  }

  lemma MirrorByteTwice(b: Byte)
    ensures MirrorByte(MirrorByte(b)) == b
  {
  }

  lemma MirrorOfXor(v: Word, w: Word)
    ensures Mirror(v ^ w) == Crc.Mix(Mirror(v), Mirror(w))
  {
  }

  lemma MirrorOfByte(b: Byte)
    ensures Mirror(b as Word) == (MirrorByte(b) as Word) << 24
  {
  }

  lemma MirrorOfHalf(w: Word)
    ensures Mirror(w >> 1) == Crc.Double(Mirror(w)) && (w & 1 != 0 <==> Crc.Top(Mirror(w)))
  {
  }

  /** A step to the right is a step to the left in the mirror. */
  lemma MirrorOfStep(w: Word)
    ensures Mirror(Step(w)) == Crc.Shift(Mirror(w))
  {
    hide Mirror, Crc.Mix, Crc.Double, Crc.Top;
    MirrorOfHalf(w);
    MirrorOfXor(w >> 1, 0xedb88320);
    assert Mirror(0xedb88320) == Crc.POLYNOMIAL by { MirrorOfPolynomial(); }
  }

  lemma MirrorOfPolynomial()
    ensures Mirror(0xedb88320) == Crc.POLYNOMIAL && Mirror(0xffffffff) == 0xffffffff
  {
  }

  lemma {:induction false} MirrorOfSteps(w: Word, n: nat)
    ensures Mirror(Steps(w, n)) == Crc.Shifts(Mirror(w), n)
    decreases n
  {
    hide Mirror, Step, Crc.Shift;
    if n > 0 {
      MirrorOfStep(w);
      MirrorOfSteps(Step(w), n - 1);
    }
  }

  /* ---- the checksum ---- */

  /** The checksum by the register of module Crc: started from the mirrored seed, inverted, fed the bits
      of each byte backwards, and mirrored and inverted again. */
  function Checksum(seed: Word, data: seq<Byte>): Word {
    Invert(Mirror(Crc.FeedBits(Mirror(Invert(seed)), Bits(MirrorBytes(data)))))
  }

  /** The checksum of data in two parts is that of the second, started from that of the first. */
  lemma ChecksumOfConcat(seed: Word, x: seq<Byte>, y: seq<Byte>)
    ensures Checksum(Checksum(seed, x), y) == Checksum(seed, x + y)
  {
    hide Mirror, Invert, MirrorByte, Crc.FeedBits, Bits;
    var start, bits, more := Mirror(Invert(seed)), Bits(MirrorBytes(x)), Bits(MirrorBytes(y));
    assert MirrorBytes(x + y) == MirrorBytes(x) + MirrorBytes(y);
    BitsOfConcat(MirrorBytes(x), MirrorBytes(y));
    Crc.FeedConcat(start, bits, more);
    InvertTwice(Mirror(Crc.FeedBits(start, bits)));
    MirrorTwice(Crc.FeedBits(start, bits));
  }

  /** On an untouched register the checksum is the mirrored and inverted CRC of module Crc. */
  lemma ChecksumMirrorsCrc(data: seq<Byte>)
    ensures Checksum(0, data) == Invert(Mirror(Crc.Crc(MirrorBytes(data))))
  {
    hide Mirror, Crc.FeedBits, Bits, MirrorBytes;
    MirrorOfPolynomial();
  }

  lemma InvertTwice(w: Word)
    ensures Invert(Invert(w)) == w
  {
  }

  lemma InvertMirrorInjective(v: Word, w: Word)
    requires Invert(Mirror(v)) == Invert(Mirror(w))
    ensures v == w
  {
    hide Invert, Mirror;
    InvertTwice(Mirror(v));
    InvertTwice(Mirror(w));
    MirrorTwice(v);
    MirrorTwice(w);
  }

  lemma MirrorBytesInjective(s: seq<Byte>, t: seq<Byte>)
    requires MirrorBytes(s) == MirrorBytes(t)
    ensures s == t
  {
    hide MirrorByte;
    assert |s| == |t|;
    forall i | 0 <= i < |s|
      ensures s[i] == t[i]
    {
      assert MirrorBytes(s)[i] == MirrorBytes(t)[i];
      MirrorByteTwice(s[i]);
      MirrorByteTwice(t[i]);
    }
  }

  /** Whatever the seed, two payloads of one size that differ in at most 32 consecutive bits, lowest bit of
      each byte first, have different checksums. */
  lemma BurstShows(seed: Word, s: seq<Byte>, t: seq<Byte>, p: nat)
    requires s != t && p + 32 <= 8 * |s| && Crc.DifferWithin(MirrorBytes(s), MirrorBytes(t), p)
    ensures Checksum(seed, s) != Checksum(seed, t)
  {
    hide Mirror, Invert, MirrorBytes, Crc.FeedBits, Crc.Mix, Bits;
    if Checksum(seed, s) == Checksum(seed, t) {
      var start, x, y := Mirror(Invert(seed)), MirrorBytes(s), MirrorBytes(t);
      InvertMirrorInjective(Crc.FeedBits(start, Bits(x)), Crc.FeedBits(start, Bits(y)));
      var e := XorBits(Bits(x), Bits(y));
      Crc.FeedBitsLinear(start, Bits(x), start, Bits(y));
      Crc.MixUnits(start);
      Crc.MixUnits(Crc.FeedBits(start, Bits(x)));
      Crc.BurstLeavesTrace(e, p);
      assert Bits(x) == Bits(y);
      BitsInjective(x, y);
      MirrorBytesInjective(s, t);
    }
  }

  lemma MirrorOfParts(s: seq<Byte>, k: nat)
    requires k <= |s|
    ensures MirrorBytes(s)[..k] == MirrorBytes(s[..k]) && MirrorBytes(s)[k..] == MirrorBytes(s[k..])
  {
    hide MirrorByte;
  }

  /** In particular a change inside four consecutive bytes shows. */
  lemma FourBytesShow(seed: Word, s: seq<Byte>, t: seq<Byte>, k: nat)
    requires |t| == |s| && s != t && k + 4 <= |s|
    requires s[..k] == t[..k] && s[k + 4..] == t[k + 4..]
    ensures Checksum(seed, s) != Checksum(seed, t)
  {
    hide MirrorBytes, Checksum, Crc.DifferWithin;
    var x, y := MirrorBytes(s), MirrorBytes(t);
    MirrorOfParts(s, k);
    MirrorOfParts(t, k);
    MirrorOfParts(s, k + 4);
    MirrorOfParts(t, k + 4);
    Crc.OnlyFourBytesDiffer(x, y, k);
    BurstShows(seed, s, t, 8 * k);
  }

  /* ---- the code ---- */

  /** dtv_crc32. */
  method ComputeChecksum(seed: Word, data: seq<Byte>) returns (crc: Word)
    ensures crc == Checksum(seed, data)
  {
    hide Mirror, Invert, MirrorByte, Crc.FeedBits, Bits;
    crc := Invert(seed);
    ghost var start := Mirror(crc);
    assert Bits(MirrorBytes([])) == [] && Crc.FeedBits(start, []) == start by { Crc.FeedNothing(start); }
    for i := 0 to |data|
      invariant Mirror(crc) == Crc.FeedBits(start, Bits(MirrorBytes(data[..i])))
    {
      crc := ShiftByteIn(crc, data[i]);
      assert MirrorBytes(data[..i + 1]) == MirrorBytes(data[..i]) + [MirrorByte(data[i])];
      BitsOfConcat(MirrorBytes(data[..i]), [MirrorByte(data[i])]);
      Crc.FeedConcat(start, Bits(MirrorBytes(data[..i])), Bits([MirrorByte(data[i])]));
    }
    assert data[..|data|] == data;
    MirrorTwice(crc);
    crc := Invert(crc);
  }

  /** One byte, lowest bit first. */
  method ShiftByteIn(start: Word, b: Byte) returns (crc: Word)
    ensures Mirror(crc) == Crc.FeedBits(Mirror(start), Bits([MirrorByte(b)]))
  {
    hide Step, Mirror, MirrorByte, Crc.FeedBits, Crc.Mix;
    crc := start ^ (b as Word);
    ghost var mixed := crc;
    for bit := 0 to 8
      invariant Steps(crc, 8 - bit) == Steps(mixed, 8)
    {
      crc := Step(crc);
    }
    FeedMirrored(start, b);
  }

  lemma FeedMirrored(start: Word, b: Byte)
    ensures Mirror(Steps(start ^ (b as Word), 8)) == Crc.FeedBits(Mirror(start), Bits([MirrorByte(b)]))
  {
    hide Step, Mirror, MirrorByte, Crc.FeedBits, Crc.Mix;
    MirrorOfSteps(start ^ (b as Word), 8);
    MirrorOfXor(start, b as Word);
    MirrorOfByte(b);
    Crc.FeedOneByte(Mirror(start), MirrorByte(b));
  }

  /* ---- a known value ---- */

  function EightSteps(w: Word): Word { Step(Step(Step(Step(Step(Step(Step(Step(w)))))))) }

  lemma OneByteOn(s: seq<Byte>, before: Word, b: Byte, after: Word)
    requires Checksum(0, s) == before && EightSteps(Invert(before) ^ (b as Word)) == Invert(after)
    ensures Checksum(0, s + [b]) == after
  {
    hide Mirror, Step, Crc.FeedBits, MirrorByte, Bits;
    ChecksumOfConcat(0, s, [b]);
    var w := Invert(before) ^ (b as Word);
    assert Steps(w, 8) == EightSteps(w);
    FeedMirrored(Invert(before), b);
    assert MirrorBytes([b]) == [MirrorByte(b)];
    MirrorTwice(EightSteps(w));
    InvertTwice(after);
  }

  /** One known answer, by which the definition can be held against other implementations: the checksum
      of the ASCII digits from one to nine. */
  lemma CheckValue()
    ensures Checksum(0, [0x31, 0x32, 0x33, 0x34, 0x35, 0x36, 0x37, 0x38, 0x39]) == 0xcbf43926
  {
    hide Checksum;
    var digits: seq<Byte> := [0x31, 0x32, 0x33, 0x34, 0x35, 0x36, 0x37, 0x38, 0x39];
    assert Checksum(0, digits[..0]) == 0 by { NothingChecked(); }
    OneByteOn(digits[..0], 0x00000000, 0x31, 0x83dcefb7);
    assert digits[..0] + [0x31] == digits[..1];
    OneByteOn(digits[..1], 0x83dcefb7, 0x32, 0x4f5344cd);
    assert digits[..1] + [0x32] == digits[..2];
    OneByteOn(digits[..2], 0x4f5344cd, 0x33, 0x884863d2);
    assert digits[..2] + [0x33] == digits[..3];
    OneByteOn(digits[..3], 0x884863d2, 0x34, 0x9be3e0a3);
    assert digits[..3] + [0x34] == digits[..4];
    OneByteOn(digits[..4], 0x9be3e0a3, 0x35, 0xcbf53a1c);
    assert digits[..4] + [0x35] == digits[..5];
    OneByteOn(digits[..5], 0xcbf53a1c, 0x36, 0x0972d361);
    assert digits[..5] + [0x36] == digits[..6];
    OneByteOn(digits[..6], 0x0972d361, 0x37, 0x5003699f);
    assert digits[..6] + [0x37] == digits[..7];
    OneByteOn(digits[..7], 0x5003699f, 0x38, 0x9ae0daaf);
    assert digits[..7] + [0x38] == digits[..8];
    OneByteOn(digits[..8], 0x9ae0daaf, 0x39, 0xcbf43926);
    assert digits[..8] + [0x39] == digits[..9];
    assert digits[..9] == digits;
  }

  lemma NothingChecked()
    ensures Checksum(0, []) == 0
  {
    hide Mirror, Crc.FeedBits, Bits;
    Crc.FeedNothing(Mirror(Invert(0)));
    assert MirrorBytes([]) == [];
    MirrorTwice(Invert(0));
  }
}
