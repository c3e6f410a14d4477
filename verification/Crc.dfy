/** The MPEG-2 CRC-32 shared by core/ts_services.c and engine/ts_udp.c, as a shift register fed one
    bit at a time, and what it detects. */
module Crc {
  import opened Bytes

  type Word = bv32

  predicate Top(c: Word) { c & 0x80000000 != 0 }

  const POLYNOMIAL: Word := 0x04c11db7

  /** Exclusive or. A function, so that proofs can treat it as a symbol with laws. */
  function Mix(a: Word, b: Word): Word { a ^ b }

  function Double(c: Word): Word { c << 1 }

  /** One step of the register with no input. */
  function Shift(c: Word): Word {
    if Top(c) then Mix(Double(c), POLYNOMIAL) else Double(c)
  }

  /** One step with an input bit. */
  function Feed(c: Word, bit: bool): Word {
    if Top(c) != bit then Mix(Double(c), POLYNOMIAL) else Double(c)
  }

  function FeedBits(c: Word, bits: seq<bool>): Word
    decreases |bits|
  {
    if bits == [] then c else FeedBits(Feed(c, bits[0]), bits[1..])
  }

  function Shifts(c: Word, n: nat): Word
    decreases n
  {
    if n == 0 then c else Shifts(Shift(c), n - 1)
  }

  /** The CRC of a byte string. */
  function Crc(data: seq<Byte>): Word {
    FeedBits(0xffffffff, Bits(data))
  }

  /** Four bytes, most significant first. */
  function Bytes4(w: Word): (b: seq<Byte>)
    ensures |b| == 4
  {
    [((w >> 24) & 0xff) as Byte, ((w >> 16) & 0xff) as Byte, ((w >> 8) & 0xff) as Byte, (w & 0xff) as Byte]
  }

  function Word4(b: seq<Byte>): Word
    requires |b| == 4
  {
    ((b[0] as Word) << 24) | ((b[1] as Word) << 16) | ((b[2] as Word) << 8) | (b[3] as Word)
  }

  /** The test every section passes before anything in it is trusted. */
  predicate Accepts(section: seq<Byte>) {
    |section| >= 4 && Crc(section[..|section| - 4]) == Word4(section[|section| - 4..])
  }

  /* ---- feeding a word is mixing it in and shifting ---- */

  lemma {:induction false} FeedConcat(c: Word, x: seq<bool>, y: seq<bool>)
    ensures FeedBits(c, x + y) == FeedBits(FeedBits(c, x), y)
    decreases |x|
  {
    hide Feed;
    if x == [] {
      assert x + y == y;
    } else {
      assert (x + y)[1..] == x[1..] + y;
      FeedConcat(Feed(c, x[0]), x[1..], y);
    }
  }

  /** The first `n` bits of `w`, top bit first. */
  function TopBits(w: Word, n: nat): (bits: seq<bool>)
    ensures |bits| == n
    decreases n
  {
    if n == 0 then [] else [Top(w)] + TopBits(Double(w), n - 1)
  }

  function ShiftedOut(w: Word, n: nat): Word
    decreases n
  {
    if n == 0 then w else ShiftedOut(Double(w), n - 1)
  }

  lemma MixAssociates(a: Word, b: Word, c: Word)
    ensures Mix(Mix(a, b), c) == Mix(a, Mix(b, c))
  {
  }

  lemma MixCommutes(a: Word, b: Word)
    ensures Mix(a, b) == Mix(b, a)
  {
  }

  lemma MixUnits(a: Word)
    ensures Mix(a, a) == 0 && Mix(a, 0) == a && Mix(0, a) == a
  {
  }

  lemma MixLaws(a: Word, b: Word, c: Word)
    ensures Mix(a, b) == Mix(b, a) && Mix(Mix(a, b), c) == Mix(a, Mix(b, c))
    ensures Mix(a, a) == 0 && Mix(a, 0) == a && Mix(0, a) == a
  {
    hide Mix;
    MixAssociates(a, b, c);
    MixCommutes(a, b);
    MixUnits(a);
  }

  lemma TopOfMix(c: Word, w: Word)
    ensures Top(Mix(c, w)) == (Top(c) != Top(w))
  {
  }

  lemma DoubleOfMix(c: Word, w: Word)
    ensures Double(Mix(c, w)) == Mix(Double(c), Double(w))
  {
  }

  lemma ShiftOfMixed(c: Word, w: Word)
    ensures Shift(Mix(c, w)) == Mix(Feed(c, Top(w)), Double(w))
  {
    hide Mix, Double, Top;
    TopOfMix(c, w);
    DoubleOfMix(c, w);
    MixLaws(Double(c), Double(w), POLYNOMIAL);
    MixLaws(Double(c), POLYNOMIAL, Double(w));
    MixLaws(Double(w), POLYNOMIAL, 0);
  }

  /** Feeding `n` bits of a word against mixing the whole word in and shifting `n` times: they
      differ by what is left of the word. */
  lemma {:induction false} FeedWord(c: Word, w: Word, n: nat)
    ensures Mix(FeedBits(c, TopBits(w, n)), ShiftedOut(w, n)) == Shifts(Mix(c, w), n)
    decreases n
  {
    hide Feed, Shift, Top, Mix, Double;
    if n > 0 {
      assert TopBits(w, n)[1..] == TopBits(Double(w), n - 1);
      ShiftOfMixed(c, w);
      FeedWord(Feed(c, Top(w)), Double(w), n - 1);
    }
  }

  /* ---- the bits of a word are the bits of its bytes ---- */

  function Left8(w: Word): Word { w << 8 }

  lemma ShiftedOut8(w: Word)
    ensures ShiftedOut(w, 8) == Left8(w)
  {
    hide Double;
    assert ShiftedOut(w, 8) == Double(Double(Double(Double(Double(Double(Double(Double(w))))))));
    EightDoubles(w);
  }

  lemma EightDoubles(w: Word)
    ensures Double(Double(Double(Double(Double(Double(Double(Double(w)))))))) == Left8(w)
  {
  }

  lemma {:induction false} TopBitsConcat(w: Word, m: nat, n: nat)
    ensures TopBits(w, m + n) == TopBits(w, m) + TopBits(ShiftedOut(w, m), n)
    ensures ShiftedOut(w, m + n) == ShiftedOut(ShiftedOut(w, m), n)
    decreases m
  {
    hide Double, Top;
    if m > 0 {
      TopBitsConcat(Double(w), m - 1, n);
    }
  }

  function FirstByte(w: Word): Byte { ((w >> 24) & 0xff) as Byte }

  lemma TopAt(w: Word)
    ensures Top(w) == Bit(FirstByte(w), 0)
    ensures Top(w << 1) == Bit(FirstByte(w), 1)
    ensures Top(w << 2) == Bit(FirstByte(w), 2)
    ensures Top(w << 3) == Bit(FirstByte(w), 3)
    ensures Top(w << 4) == Bit(FirstByte(w), 4)
    ensures Top(w << 5) == Bit(FirstByte(w), 5)
    ensures Top(w << 6) == Bit(FirstByte(w), 6)
    ensures Top(w << 7) == Bit(FirstByte(w), 7)
  {
  }

  lemma Doubles(w: Word)
    ensures Double(w) == w << 1 && Double(w << 1) == w << 2 && Double(w << 2) == w << 3 && Double(w << 3) == w << 4
    ensures Double(w << 4) == w << 5 && Double(w << 5) == w << 6 && Double(w << 6) == w << 7 && Double(w << 7) == w << 8
  {
  }

  /** The top eight bits of a word are the bits of its first byte. */
  lemma TopByte(w: Word)
    ensures TopBits(w, 8) == Bits([FirstByte(w)])
  {
    hide Double, Top, Bit, FirstByte;
    Doubles(w);
    TopAt(w);
    var bits := Bits([FirstByte(w)]);
    forall k | 0 <= k < 8
      ensures bits[k] == Bit(FirstByte(w), k)
    {
      assert BitAt([FirstByte(w)], k) == bits[k];
    }
  }

  /** All 32 bits of a word are the bits of its four bytes, and nothing is left of it. */
  lemma TopBits32(w: Word)
    ensures TopBits(w, 32) == Bits(Bytes4(w)) && ShiftedOut(w, 32) == 0
  {
    hide TopBits, ShiftedOut, Bits, FirstByte, Left8, Bytes4;
    var w1 := Left8(w);
    var w2 := Left8(w1);
    var w3 := Left8(w2);
    ShiftedOut8(w); ShiftedOut8(w1); ShiftedOut8(w2); ShiftedOut8(w3);
    TopBitsConcat(w, 8, 24); TopBitsConcat(w1, 8, 16); TopBitsConcat(w2, 8, 8);
    TopByte(w); TopByte(w1); TopByte(w2); TopByte(w3);
    BytesAreFirstBytes(w);
    BitsOfFour(FirstByte(w), FirstByte(w1), FirstByte(w2), FirstByte(w3));
  }

  lemma BitsOfFour(b0: Byte, b1: Byte, b2: Byte, b3: Byte)
    ensures Bits([b0, b1, b2, b3]) == Bits([b0]) + (Bits([b1]) + (Bits([b2]) + Bits([b3])))
  {
    hide Bits;
    BitsOfConcat([b0], [b1, b2, b3]);
    BitsOfConcat([b1], [b2, b3]);
    BitsOfConcat([b2], [b3]);
    assert [b0, b1, b2, b3] == [b0] + [b1, b2, b3] && [b1, b2, b3] == [b1] + [b2, b3] && [b2, b3] == [b2] + [b3];
  }

  lemma BytesAreFirstBytes(w: Word)
    ensures Bytes4(w) == [FirstByte(w), FirstByte(Left8(w)), FirstByte(Left8(Left8(w))),
        FirstByte(Left8(Left8(Left8(w))))]
    ensures Left8(Left8(Left8(Left8(w)))) == 0
  {
  }

  lemma Word4OfBytes4(w: Word)
    ensures Word4(Bytes4(w)) == w
  {
  }

  lemma Bytes4OfWord4(b: seq<Byte>)
    requires |b| == 4
    ensures Bytes4(Word4(b)) == b
  {
  }

  /** Feeding four bytes is mixing their word in and shifting 32 times. */
  lemma FeedFour(c: Word, b: seq<Byte>)
    requires |b| == 4
    ensures FeedBits(c, Bits(b)) == Shifts(Mix(c, Word4(b)), 32)
  {
    hide Mix, Bits, FeedBits, Shifts, TopBits, ShiftedOut, Word4, Bytes4;
    var w := Word4(b);
    FeedWord(c, w, 32);
    TopBits32(w);
    Bytes4OfWord4(b);
    MixLaws(FeedBits(c, Bits(b)), 0, 0);
  }

  /* ---- the shift is injective ---- */

  lemma ShiftToZero(c: Word)
    requires Shift(c) == 0
    ensures c == 0
  {
  }

  lemma {:induction false} ShiftsToZero(c: Word, n: nat)
    requires Shifts(c, n) == 0
    ensures c == 0
    decreases n
  {
    hide Shift;
    if n > 0 {
      ShiftsToZero(Shift(c), n - 1);
      ShiftToZero(c);
    }
  }

  lemma {:induction false} ShiftsOfZero(n: nat)
    ensures Shifts(0, n) == 0
  {
    if n > 0 {
      assert Shift(0) == 0;
      ShiftsOfZero(n - 1);
    }
  }

  lemma MixToZero(a: Word, b: Word)
    ensures Mix(a, b) == 0 <==> a == b
  {
    hide Mix;
    MixAssociates(a, b, b);
    MixUnits(a);
    MixUnits(b);
  }

  /** A section is accepted exactly when the register, fed all of it, ends at zero. */
  lemma AcceptsIffResidueZero(section: seq<Byte>)
    requires |section| >= 4
    ensures Accepts(section) <==> Crc(section) == 0
  {
    hide Mix, Bits, Shifts, FeedBits, Word4;
    var n := |section| - 4;
    var c := Crc(section[..n]);
    assert section == section[..n] + section[n..];
    BitsOfConcat(section[..n], section[n..]);
    FeedConcat(0xffffffff, Bits(section[..n]), Bits(section[n..]));
    FeedFour(c, section[n..]);
    MixToZero(c, Word4(section[n..]));
    if Crc(section) == 0 {
      ShiftsToZero(Mix(c, Word4(section[n..])), 32);
    } else if Accepts(section) {
      ShiftsOfZero(32);
    }
  }

  /** Data followed by its own CRC is accepted, and its residue is zero. */
  lemma OwnCrcAccepted(data: seq<Byte>)
    ensures Accepts(data + Bytes4(Crc(data))) && Crc(data + Bytes4(Crc(data))) == 0
  {
    hide Crc, Bytes4, Word4;
    var section := data + Bytes4(Crc(data));
    assert section[..|section| - 4] == data && section[|section| - 4..] == Bytes4(Crc(data));
    Word4OfBytes4(Crc(data));
    AcceptsIffResidueZero(section);
  }

  /* ---- linearity ---- */

  lemma FeedLinear(a: Word, x: bool, b: Word, y: bool)
    ensures Mix(Feed(a, x), Feed(b, y)) == Feed(Mix(a, b), x != y)
  {
    hide Mix, Double, Top;
    TopOfMix(a, b);
    DoubleOfMix(a, b);
    var p, q := Double(a), Double(b);
    MixLaws(p, POLYNOMIAL, q);
    MixLaws(p, POLYNOMIAL, Mix(q, POLYNOMIAL));
    MixLaws(q, POLYNOMIAL, POLYNOMIAL);
    MixLaws(POLYNOMIAL, q, 0);
    MixLaws(POLYNOMIAL, q, POLYNOMIAL);
    MixLaws(p, q, POLYNOMIAL);
    MixLaws(q, 0, 0);
  }

  lemma {:induction false} FeedBitsLinear(a: Word, x: seq<bool>, b: Word, y: seq<bool>)
    requires |x| == |y|
    ensures Mix(FeedBits(a, x), FeedBits(b, y)) == FeedBits(Mix(a, b), XorBits(x, y))
    decreases |x|
  {
    hide Mix, Feed;
    if x != [] {
      FeedLinear(a, x[0], b, y[0]);
      FeedBitsLinear(Feed(a, x[0]), x[1..], Feed(b, y[0]), y[1..]);
      assert XorBits(x, y)[1..] == XorBits(x[1..], y[1..]);
    }
  }

  /* ---- burst detection ---- */

  ghost predicate Zeros(bits: seq<bool>) {
    forall i :: 0 <= i < |bits| ==> !bits[i]
  }

  lemma {:induction false} FeedZeros(c: Word, bits: seq<bool>)
    requires Zeros(bits)
    ensures FeedBits(c, bits) == Shifts(c, |bits|)
    decreases |bits|
  {
    hide Mix, Double, Top;
    if bits != [] {
      FeedZeros(Feed(c, false), bits[1..]);
    }
  }

  /** An error pattern confined to 32 consecutive bits that leaves no trace in the register is no
      error at all. */
  lemma BurstLeavesTrace(e: seq<bool>, p: nat)
    requires p + 32 <= |e| && Zeros(e[..p]) && Zeros(e[p + 32..])
    requires FeedBits(0, e) == 0
    ensures Zeros(e)
  {
    hide Mix, FeedBits, Shifts, Bits, Word4, Bit;
    var window := e[p..p + 32];
    var b := Pack(window);
    BitsOfPack(window);
    assert e == e[..p] + (window + e[p + 32..]);
    FeedConcat(0, e[..p], window + e[p + 32..]);
    FeedZeros(0, e[..p]);
    ShiftsOfZero(p);
    FeedConcat(0, window, e[p + 32..]);
    FeedFour(0, b);
    var after := Shifts(Mix(0, Word4(b)), 32);
    FeedZeros(after, e[p + 32..]);
    ShiftsToZero(after, |e| - p - 32);
    ShiftsToZero(Mix(0, Word4(b)), 32);
    MixToZero(0, Word4(b));
    NoBitsInZero(b);
    assert forall i :: p <= i < p + 32 ==> e[i] == window[i - p];
  }

  lemma NoBitsInZero(b: seq<Byte>)
    requires |b| == 4 && Word4(b) == 0
    ensures Zeros(Bits(b))
  {
    Bytes4OfWord4(b);
    forall i | 0 <= i < 32
      ensures !Bits(b)[i]
    {
      assert BitAt(b, i) == Bits(b)[i];
    }
  }

  /** The two differ in no bit outside `[p, p + 32)`. */
  ghost predicate DifferWithin(s: seq<Byte>, t: seq<Byte>, p: nat) {
    |s| == |t| && forall i :: 0 <= i < 8 * |s| && !(p <= i < p + 32) ==> Bits(s)[i] == Bits(t)[i]
  }

  /** Any error burst of at most 32 consecutive bits, at any bit position, trailer included, makes
      an accepted section refused. */
  lemma BurstRefused(s: seq<Byte>, t: seq<Byte>, p: nat)
    requires Accepts(s) && s != t && p + 32 <= 8 * |s| && DifferWithin(s, t, p)
    ensures !Accepts(t)
  {
    hide Mix, FeedBits, Bits, Accepts;
    if Accepts(t) {
      assert |s| >= 4 by { AcceptsIsLong(s); }
      AcceptsIffResidueZero(s);
      AcceptsIffResidueZero(t);
      var e := XorBits(Bits(s), Bits(t));
      FeedBitsLinear(0xffffffff, Bits(s), 0xffffffff, Bits(t));
      MixLaws(0xffffffff, 0xffffffff, 0);
      MixLaws(0, 0, 0);
      BurstLeavesTrace(e, p);
      assert Bits(s) == Bits(t);
      BitsInjective(s, t);
    }
  }

  lemma AcceptsIsLong(s: seq<Byte>)
    requires Accepts(s)
    ensures |s| >= 4
  {
  }

  lemma OnlyFourBytesDiffer(s: seq<Byte>, t: seq<Byte>, k: nat)
    requires |t| == |s| && k + 4 <= |s| && s[..k] == t[..k] && s[k + 4..] == t[k + 4..]
    ensures DifferWithin(s, t, 8 * k)
  {
    hide Bit, Bits;
    forall i | 0 <= i < 8 * |s| && !(8 * k <= i < 8 * k + 32)
      ensures Bits(s)[i] == Bits(t)[i]
    {
      assert BitAt(s, i) == Bits(s)[i] && BitAt(t, i) == Bits(t)[i];
      assert s[i / 8] == t[i / 8] by {
        if i < 8 * k {
          assert s[..k][i / 8] == t[..k][i / 8];
        } else {
          assert s[k + 4..][i / 8 - k - 4] == t[k + 4..][i / 8 - k - 4];
        }
      }
    }
  }

  /** In particular an accepted section changed only inside four consecutive bytes is refused. */
  lemma FourBytesRefused(s: seq<Byte>, t: seq<Byte>, k: nat)
    requires Accepts(s) && |t| == |s| && s != t && k + 4 <= |s|
    requires s[..k] == t[..k] && s[k + 4..] == t[k + 4..]
    ensures !Accepts(t)
  {
    hide Accepts, DifferWithin;
    OnlyFourBytesDiffer(s, t, k);
    BurstRefused(s, t, 8 * k);
  }

  /* ---- the code ---- */

  /** One byte of the source's loop: mixed into the top of the register, then eight shifts. */
  method FeedByte(c: Word, b: Byte) returns (crc: Word)
    ensures crc == FeedBits(c, Bits([b]))
  {
    hide Shift, FeedBits, Mix;
    crc := Mix(c, (b as Word) << 24);
    ghost var mixed := crc;
    for bit := 0 to 8
      invariant Shifts(crc, 8 - bit) == Shifts(mixed, 8)
    {
      crc := Shift(crc);
    }
    FeedOneByte(c, b);
  }

  lemma FeedOneByte(c: Word, b: Byte)
    ensures FeedBits(c, Bits([b])) == Shifts(Mix(c, (b as Word) << 24), 8)
  {
    hide Shift, FeedBits, Mix;
    var w := (b as Word) << 24;
    FeedWord(c, w, 8);
    TopByte(w);
    ShiftedOut8(w);
    TopByteOfShifted(b);
    MixUnits(FeedBits(c, Bits([b])));
  }

  lemma TopByteOfShifted(b: Byte)
    ensures FirstByte((b as Word) << 24) == b && Left8((b as Word) << 24) == 0
  {
  }

  /** mpeg_crc32 and mpeg2_crc32. */
  method ComputeCrc(data: seq<Byte>) returns (crc: Word)
    ensures crc == Crc(data)
  {
    hide FeedBits, Bits;
    crc := 0xffffffff;
    assert Bits([]) == [] && FeedBits(crc, []) == crc by { FeedNothing(crc); }
    for i := 0 to |data|
      invariant crc == Crc(data[..i])
    {
      crc := FeedByte(crc, data[i]);
      assert data[..i + 1] == data[..i] + [data[i]];
      BitsOfConcat(data[..i], [data[i]]);
      FeedConcat(0xffffffff, Bits(data[..i]), Bits([data[i]]));
    }
    assert data[..|data|] == data;
  }

  lemma FeedNothing(c: Word)
    ensures Bits([]) == [] && FeedBits(c, []) == c
  {
  }

  /** The check at the head of every section entry point. */
  method Check(section: seq<Byte>) returns (ok: bool)
    ensures ok == Accepts(section)
  {
    hide Crc;
    if |section| < 4 { return false; }
    var crc := ComputeCrc(section[..|section| - 4]);
    ok := crc == Word4(section[|section| - 4..]);
  }
}
