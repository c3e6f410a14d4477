/** The bytes of the packets' blocks into the columns of the registers and back,
    third_party/libdvbcsa/dvbcsa_bs_transpose.c: of each packet a byte in every eighth word, at the same place
    in all of them. */
module DvbCsaBlockTranspose {
  import opened Bytes
  import opened DvbCsaWords
  import opened DvbCsaTranspose

  /** The words and the byte of them that packet `k` has. */
  function Group(k: nat): (g: nat)
    ensures g < 8
  {
    k / 4 % 8
  }

  function Column(k: nat): (c: nat)
    requires k < BITS
    ensures c < 16
  {
    4 * (k % 4) + k / 32
  }

  /** The eight bytes of a packet in the rows. */
  function ColumnOf(rows: seq<Word>, k: nat): (b: seq<Byte>)
    requires |rows| == 64 && k < BITS
    ensures |b| == 8
  {
    seq(8, n requires 0 <= n < 8 => ByteOf(rows[8 * n + Group(k)], Column(k)))
  }

  /** The block of packet `k` as it is loaded: its halves 32 rows apart. */
  function DoubleWords(rows: seq<Word>, k: nat): (b: seq<Byte>)
    requires |rows| == 64 && k < BITS
    ensures |b| == 8
  {
    seq(8, n requires 0 <= n < 8 => ByteOf(rows[32 * (n / 4) + k / 4], 4 * (k % 4) + n % 4))
  }

  /* ---- loading and storing ---- */

  /** Four bytes of a word set. */
  function WithFour(w: Word, c: nat, b: seq<Byte>): Word
    requires c + 4 <= 16 && |b| == 4
  {
    seq(BITS, i requires 0 <= i < BITS => if c <= i / 8 < c + 4 then BitOf(b[i / 8 - c], i % 8) else w[i])
  }

  lemma ByteOfFour(w: Word, c: nat, b: seq<Byte>, d: nat)
    requires c + 4 <= 16 && |b| == 4 && d < 16
    ensures ByteOf(WithFour(w, c, b), d) == if c <= d < c + 4 then b[d - c] else ByteOf(w, d)
  {
    hide BitOf, OfBits;
    forall k | 0 <= k < 8
      ensures BitIn(WithFour(w, c, b), d, k) == if c <= d < c + 4 then BitOf(b[d - c], k) else BitIn(w, d, k)
    {
      BitNumber(d, k);
    }
    if c <= d < c + 4 {
      ByteIs(WithFour(w, c, b), d, b[d - c]);
    } else {
      SameByte(WithFour(w, c, b), d, w, d);
    }
  }

  /** A block in the rows, if there is a whole one. */
  ghost predicate HasBlock(x: seq<Byte>, at: nat, b: seq<Byte>)
    requires |b| == 8
  {
    at + 8 <= |x| ==> b == x[at..at + 8]
  }

  method LoadBlocks(rows: array<Word>, lo: nat, slots: array<seq<Byte>>, at: nat)
    requires lo + 64 == rows.Length && slots.Length <= BITS
    modifies rows
    ensures forall k :: 0 <= k < slots.Length ==> HasBlock(slots[k], at, DoubleWords(rows[lo..], k))
  {
    hide HasBlock, DoubleWords;
    for i := 0 to slots.Length
      invariant forall k :: 0 <= k < i ==> HasBlock(slots[k], at, DoubleWords(rows[lo..], k))
    {
      ghost var s := rows[lo..];
      ghost var x := slots[i];
      if at + 8 <= |slots[i]| {
        rows[lo + i / 4] := WithFour(rows[lo + i / 4], 4 * (i % 4), slots[i][at..at + 4]);
        rows[lo + 32 + i / 4] := WithFour(rows[lo + 32 + i / 4], 4 * (i % 4), slots[i][at + 4..at + 8]);
        assert x[at..at + 8][..4] == x[at..at + 4] && x[at..at + 8][4..] == x[at + 4..at + 8];
        assert rows[lo..] == WithBlock(s, i, x[at..at + 8]);
        LoadedIs(x, at, s, i);
      } else {
        NothingLoaded(x, at, DoubleWords(s, i));
      }
      forall k | 0 <= k < i
        ensures HasBlock(slots[k], at, DoubleWords(rows[lo..], k))
      {
        if at + 8 <= |x| { OthersStay(s, i, x[at..at + 8], k); }
      }
    }
  }

  lemma NothingLoaded(x: seq<Byte>, at: nat, b: seq<Byte>)
    requires |b| == 8 && at + 8 > |x|
    ensures HasBlock(x, at, b)
  {
  }

  ghost function WithBlock(s: seq<Word>, i: nat, b: seq<Byte>): (t: seq<Word>)
    requires |s| == 64 && i < BITS && |b| == 8
    ensures |t| == 64
  {
    var u := s[i / 4 := WithFour(s[i / 4], 4 * (i % 4), b[..4])];
    u[32 + i / 4 := WithFour(u[32 + i / 4], 4 * (i % 4), b[4..])]
  }

  lemma WithBlockRow(s: seq<Word>, i: nat, b: seq<Byte>, r: nat)
    requires |s| == 64 && i < BITS && |b| == 8 && r < 64
    ensures WithBlock(s, i, b)[r] == if r == i / 4 then WithFour(s[r], 4 * (i % 4), b[..4])
                                     else if r == 32 + i / 4 then WithFour(s[r], 4 * (i % 4), b[4..]) else s[r]
  {
    hide WithFour;
  }

  lemma LoadedIs(x: seq<Byte>, at: nat, s: seq<Word>, i: nat)
    requires |s| == 64 && i < BITS && at + 8 <= |x|
    ensures HasBlock(x, at, DoubleWords(WithBlock(s, i, x[at..at + 8]), i))
  {
    hide WithFour, WithBlock;
    var b := x[at..at + 8];
    var t := WithBlock(s, i, b);
    forall n | 0 <= n < 8
      ensures DoubleWords(t, i)[n] == b[n]
    {
      var r := 32 * (n / 4) + i / 4;
      WithBlockRow(s, i, b, r);
      ByteOfFour(s[r], 4 * (i % 4), if n < 4 then b[..4] else b[4..], 4 * (i % 4) + n % 4);
    }
    assert DoubleWords(t, i) == b;
  }

  lemma OthersStay(s: seq<Word>, i: nat, b: seq<Byte>, k: nat)
    requires |s| == 64 && i < BITS && |b| == 8 && k < i
    ensures DoubleWords(WithBlock(s, i, b), k) == DoubleWords(s, k)
  {
    hide WithFour, WithBlock;
    var t := WithBlock(s, i, b);
    forall n | 0 <= n < 8
      ensures DoubleWords(t, k)[n] == DoubleWords(s, k)[n]
    {
      OtherByteStays(s, i, b, k, n / 4, n % 4);
    }
  }

  lemma OtherByteStays(s: seq<Word>, i: nat, b: seq<Byte>, k: nat, h: nat, m: nat)
    requires |s| == 64 && i < BITS && |b| == 8 && k < i && h < 2 && m < 4
    ensures ByteOf(WithBlock(s, i, b)[32 * h + k / 4], 4 * (k % 4) + m) == ByteOf(s[32 * h + k / 4], 4 * (k % 4) + m)
  {
    hide WithFour, WithBlock, ByteOf;
    var r, c := 32 * h + k / 4, 4 * (k % 4) + m;
    WithBlockRow(s, i, b, r);
    if k / 4 == i / 4 {
      assert k % 4 != i % 4;
      ByteOfFour(s[r], 4 * (i % 4), b[..4], c);
      ByteOfFour(s[r], 4 * (i % 4), b[4..], c);
    }
  }

  /* ---- the exchanges ---- */

  ghost function MovedIn(s: seq<Word>): (t: seq<Word>)
    requires |s| == 64
    ensures |t| == 64
  {
    RowsPair();
    Exchanged(Exchanged(s, 16, 16), 8, 8)
  }

  ghost function MovedOut(s: seq<Word>): (t: seq<Word>)
    requires |s| == 64
    ensures |t| == 64
  {
    RowsPair();
    Exchanged(Exchanged(s, 8, 8), 16, 16)
  }

  lemma RowsPair()
    ensures InPairs(64, 16) && InPairs(64, 8)
  {
  }

  /** Bit `z` of byte `p.bit` in the `g`th of the words in group `p.row`. */
  function Spot(p: Place, g: int, z: int): Place { Place(8 * p.row + g, 8 * p.bit + z) }

  lemma BeforeSpot(p: Place, g: int, z: int, d: nat)
    requires 0 <= g < 8 && 0 <= z < 8 && (d == 1 || d == 2)
    ensures Power(8 * d) && Before(Spot(p, g, z), 8 * d, 8 * d) == Spot(Before(p, d, d), g, z)
  {
    hide Odd;
    OddOfByte(p.row, 8 * p.row + g, d);
    OddOfByte(p.bit, 8 * p.bit + z, d);
  }

  /** The two digits do not get in each other's way. */
  lemma EitherOrder(p: Place)
    ensures Power(4) && Before(Before(p, 1, 1), 2, 2) == Where(p, 4) == Before(Before(p, 2, 2), 1, 1)
  {
    hide Before;
    WhereStep(p, 1);
    WhereStep(p, 2);
    OtherOrder(p);
  }

  lemma OtherOrder(p: Place)
    ensures Before(Before(p, 2, 2), 1, 1) == Before(Before(p, 1, 1), 2, 2)
  {
    var q, c, z := Place(p.row / 2, p.bit / 2), p.row % 2, p.bit % 2;
    BeforeLowest(q, c, z);
    BeforeBelow(q, c, z, 1, 1);
    BeforeLowest(Before(q, 1, 1), c, z);
    BeforeBelow(q, z, c, 1, 1);
    assert p == Below(q, c, z);
  }

  lemma BeforeLowest(q: Place, c: int, z: int)
    requires 0 <= c < 2 && 0 <= z < 2
    ensures Before(Below(q, c, z), 1, 1) == Below(q, z, c)
  {
    HalfOf(q.row, c);
    HalfOf(q.bit, z);
  }

  lemma WhereIn4(a: nat, x: nat, b: nat, y: nat)
    requires x < 4 && y < 4
    ensures Power(4) && Where(Place(4 * a + x, 4 * b + y), 4) == Place(4 * a + y, 4 * b + x)
  {
    hide Where, Rem, InPairs;
    assert Power(4);
    WhereIs(Place(4 * a + x, 4 * b + y), 4);
    Fours(a);
    Fours(b);
    RemIs(x, 4 * a, 2);
    RemIs(y, 4 * b, 2);
  }

  lemma SpotAmong(s: seq<Word>, p: Place, g: int, z: int)
    requires |s| == 64 && 0 <= g < 8 && 0 <= z < 8 && 0 <= p.row < 8 && 0 <= p.bit < 16
    ensures Among(s, Spot(p, g, z))
  {
  }

  lemma MovedBit(s: seq<Word>, p: Place, g: int, z: int)
    requires |s| == 64 && 0 <= g < 8 && 0 <= z < 8 && 0 <= p.row < 8 && 0 <= p.bit < 16
    ensures Power(4) && Among(s, Spot(Where(p, 4), g, z))
    ensures Held(MovedIn(s), Spot(p, g, z)) == Held(s, Spot(Where(p, 4), g, z))
    ensures Held(MovedOut(s), Spot(p, g, z)) == Held(s, Spot(Where(p, 4), g, z))
  {
    hide Exchanged, Before, Where, InPairs, Held, Spot;
    RowsPair();
    SpotAmong(s, p, g, z);
    EitherOrder(p);
    BeforeSpot(p, g, z, 1);
    BeforeSpot(p, g, z, 2);
    BeforeSpot(Before(p, 1, 1), g, z, 2);
    BeforeSpot(Before(p, 2, 2), g, z, 1);
    var u, v := Exchanged(s, 16, 16), Exchanged(s, 8, 8);
    ExchangedBit(u, 8, 8, Spot(p, g, z));
    ExchangedBit(s, 16, 16, Spot(Before(p, 1, 1), g, z));
    ExchangedBit(v, 16, 16, Spot(p, g, z));
    ExchangedBit(s, 8, 8, Spot(Before(p, 2, 2), g, z));
  }

  lemma MovedByte(s: seq<Word>, a: nat, x: nat, b: nat, y: nat, g: nat)
    requires |s| == 64 && a < 2 && x < 4 && b < 4 && y < 4 && g < 8
    ensures ByteOf(MovedIn(s)[32 * a + 8 * x + g], 4 * b + y) == ByteOf(s[32 * a + 8 * y + g], 4 * b + x)
    ensures ByteOf(MovedOut(s)[32 * a + 8 * x + g], 4 * b + y) == ByteOf(s[32 * a + 8 * y + g], 4 * b + x)
  {
    hide MovedIn, MovedOut, Where, ByteOf, BitIn;
    var p, q := Place(4 * a + x, 4 * b + y), Place(4 * a + y, 4 * b + x);
    WhereIn4(a, x, b, y);
    forall z | 0 <= z < 8
      ensures ByteBit(MovedIn(s), p, g, z) == ByteBit(s, q, g, z) == ByteBit(MovedOut(s), p, g, z)
    {
      MovedBit(s, p, g, z);
      HeldIsBit(MovedIn(s), p, g, z);
      HeldIsBit(MovedOut(s), p, g, z);
      HeldIsBit(s, q, g, z);
    }
    SameByteBits(MovedIn(s), p, s, q, g);
    SameByteBits(MovedOut(s), p, s, q, g);
  }

  function ByteBit(s: seq<Word>, p: Place, g: int, z: int): bv1
    requires |s| == 64 && 0 <= g < 8 && 0 <= z < 8 && 0 <= p.row < 8 && 0 <= p.bit < 16
  {
    BitIn(s[8 * p.row + g], p.bit, z)
  }

  lemma HeldIsBit(s: seq<Word>, p: Place, g: int, z: int)
    requires |s| == 64 && 0 <= g < 8 && 0 <= z < 8 && 0 <= p.row < 8 && 0 <= p.bit < 16
    ensures Among(s, Spot(p, g, z)) && Held(s, Spot(p, g, z)) == ByteBit(s, p, g, z)
  {
  }

  lemma SameByteBits(s: seq<Word>, p: Place, t: seq<Word>, q: Place, g: int)
    requires |s| == 64 && |t| == 64 && 0 <= g < 8 && 0 <= p.row < 8 && 0 <= p.bit < 16 && 0 <= q.row < 8
    requires 0 <= q.bit < 16 && forall z :: 0 <= z < 8 ==> ByteBit(s, p, g, z) == ByteBit(t, q, g, z)
    ensures ByteOf(s[8 * p.row + g], p.bit) == ByteOf(t[8 * q.row + g], q.bit)
  {
    hide BitIn, ByteOf;
    var v, w := s[8 * p.row + g], t[8 * q.row + g];
    forall z | 0 <= z < 8
      ensures BitIn(v, p.bit, z) == BitIn(w, q.bit, z)
    {
      assert ByteBit(s, p, g, z) == ByteBit(t, q, g, z);
    }
    SameByte(v, p.bit, w, q.bit);
  }

  /** The blocks loaded come into the columns, and from the columns into the blocks stored. */
  lemma Columns(s: seq<Word>, k: nat)
    requires |s| == 64 && k < BITS
    ensures ColumnOf(MovedIn(s), k) == DoubleWords(s, k)
    ensures DoubleWords(MovedOut(s), k) == ColumnOf(s, k)
  {
    hide MovedIn, MovedOut, ByteOf;
    var b, y, g := k % 4, k / 32, k / 4 % 8;
    assert k / 4 == 8 * y + g;
    forall n | 0 <= n < 8
      ensures ColumnOf(MovedIn(s), k)[n] == DoubleWords(s, k)[n] && DoubleWords(MovedOut(s), k)[n] == ColumnOf(s, k)[n]
    {
      ColumnByte(s, n / 4, n % 4, b, y, g, k);
    }
  }

  /** Out undoes in: the blocks stored are those loaded. */
  lemma BlocksComeBack(s: seq<Word>, k: nat)
    requires |s| == 64 && k < BITS
    ensures DoubleWords(MovedOut(MovedIn(s)), k) == DoubleWords(s, k)
  {
    hide MovedIn, MovedOut, DoubleWords, ColumnOf;
    Columns(s, k);
    Columns(MovedIn(s), k);
  }

  lemma QuarterOf(q: nat, r: nat)
    requires r < 4
    ensures (4 * q + r) / 4 == q && (4 * q + r) % 4 == r
  {
  }

  lemma GroupOf(y: nat, g: nat)
    requires g < 8
    ensures (8 * y + g) % 8 == g
  {
  }

  lemma EighthOf(y: nat, r: nat)
    requires r < 32
    ensures (32 * y + r) / 32 == y
  {
  }

  lemma InColumn(s: seq<Word>, n: nat, b: nat, y: nat, g: nat, k: nat)
    requires |s| == 64 && n < 8 && b < 4 && y < 4 && g < 8 && k == 32 * y + 4 * g + b
    ensures ColumnOf(s, k)[n] == ByteOf(s[8 * n + g], 4 * b + y)
  {
    hide ByteOf;
    QuarterOf(8 * y + g, b);
    GroupOf(y, g);
    EighthOf(y, 4 * g + b);
  }

  lemma InDoubleWords(s: seq<Word>, a: nat, x: nat, b: nat, r: nat, k: nat)
    requires |s| == 64 && a < 2 && x < 4 && b < 4 && r < 32 && k == 4 * r + b
    ensures DoubleWords(s, k)[4 * a + x] == ByteOf(s[32 * a + r], 4 * b + x)
  {
    hide ByteOf;
    QuarterOf(a, x);
    QuarterOf(r, b);
  }

  lemma ColumnByte(s: seq<Word>, a: nat, x: nat, b: nat, y: nat, g: nat, k: nat)
    requires |s| == 64 && a < 2 && x < 4 && b < 4 && y < 4 && g < 8 && k == 32 * y + 4 * g + b
    ensures ColumnOf(MovedIn(s), k)[4 * a + x] == DoubleWords(s, k)[4 * a + x]
    ensures DoubleWords(MovedOut(s), k)[4 * a + x] == ColumnOf(s, k)[4 * a + x]
  {
    hide MovedIn, MovedOut, ByteOf, ColumnOf, DoubleWords;
    InColumn(MovedIn(s), 4 * a + x, b, y, g, k);
    InColumn(s, 4 * a + x, b, y, g, k);
    InDoubleWords(MovedOut(s), a, x, b, 8 * y + g, k);
    InDoubleWords(s, a, x, b, 8 * y + g, k);
    MovedByte(s, a, x, b, y, g);
    MovedByte(s, a, y, b, x, g);
  }

  /* ---- dvbcsa_bs_block_transpose_in and dvbcsa_bs_block_transpose_out ---- */

  method BlockIn(rows: array<Word>, lo: nat, slots: array<seq<Byte>>, at: nat)
    requires lo + 64 == rows.Length && slots.Length <= BITS
    modifies rows
    ensures forall k :: 0 <= k < slots.Length ==> HasBlock(slots[k], at, ColumnOf(rows[lo..], k))
  {
    hide Exchanged, HasBlock, ColumnOf, DoubleWords, InPairs;
    LoadBlocks(rows, lo, slots, at);
    ghost var s := rows[lo..];
    RowsPair();
    assert rows[lo..lo + 64] == rows[lo..];
    Exchange(rows, lo, 64, 16, 16);
    assert rows[lo..lo + 64] == rows[lo..];
    Exchange(rows, lo, 64, 8, 8);
    assert rows[lo..lo + 64] == rows[lo..] == MovedIn(s);
    forall k | 0 <= k < slots.Length
      ensures HasBlock(slots[k], at, ColumnOf(rows[lo..], k))
    {
      Columns(s, k);
    }
  }

  /** A packet with the block at `at` replaced, if it has a whole one there. */
  function WithBlockAt(x: seq<Byte>, at: nat, b: seq<Byte>): seq<Byte> {
    if at + 8 <= |x| then x[..at] + b + x[at + 8..] else x
  }

  method BlockOut(rows: array<Word>, slots: array<seq<Byte>>, at: nat)
    requires rows.Length >= 64 && slots.Length <= BITS && rows as object != slots
    modifies rows, slots
    ensures forall k :: 0 <= k < slots.Length ==>
      slots[k] == WithBlockAt(old(slots[k]), at, ColumnOf(old(rows[..64]), k))
  {
    hide Exchanged, ColumnOf, DoubleWords, InPairs, WithBlockAt;
    ghost var s := rows[..64];
    RowsPair();
    assert rows[0..64] == rows[..64];
    Exchange(rows, 0, 64, 8, 8);
    assert rows[0..64] == rows[..64];
    Exchange(rows, 0, 64, 16, 16);
    assert rows[0..64] == rows[..64] == MovedOut(s);
    for i := 0 to slots.Length
      invariant rows[..64] == MovedOut(s)
      invariant forall k :: 0 <= k < slots.Length ==>
        slots[k] == if k < i then WithBlockAt(old(slots[k]), at, ColumnOf(s, k)) else old(slots[k])
    {
      Columns(s, i);
      StoreBlock(rows, slots, i, at);
    }
  }

  method StoreBlock(rows: array<Word>, slots: array<seq<Byte>>, i: nat, at: nat)
    requires rows.Length >= 64 && i < slots.Length <= BITS && rows as object != slots
    modifies slots
    ensures forall k :: 0 <= k < slots.Length ==>
      slots[k] == if k == i then WithBlockAt(old(slots[k]), at, DoubleWords(rows[..64], k)) else old(slots[k])
  {
    hide FourOf, DoubleWords;
    if at + 8 <= |slots[i]| {
      var low, high := FourOf(rows[i / 4], 4 * (i % 4)), FourOf(rows[32 + i / 4], 4 * (i % 4));
      HalvesAre(rows[..64], i);
      BothHalves(slots[i], at, low, high);
      slots[i] := slots[i][..at] + low + slots[i][at + 4..];
      slots[i] := slots[i][..at + 4] + high + slots[i][at + 8..];
    }
  }

  lemma HalvesAre(s: seq<Word>, i: nat)
    requires |s| == 64 && i < BITS
    ensures FourOf(s[i / 4], 4 * (i % 4)) + FourOf(s[32 + i / 4], 4 * (i % 4)) == DoubleWords(s, i)
  {
    hide ByteOf;
  }

  lemma BothHalves(x: seq<Byte>, at: nat, low: seq<Byte>, high: seq<Byte>)
    requires at + 8 <= |x| && |low| == |high| == 4
    ensures var u := x[..at] + low + x[at + 4..];
            |u| == |x| && u[..at + 4] + high + u[at + 8..] == x[..at] + (low + high) + x[at + 8..]
  {
  }

  function FourOf(w: Word, c: nat): (b: seq<Byte>)
    requires c + 4 <= 16
    ensures |b| == 4
  {
    [ByteOf(w, c), ByteOf(w, c + 1), ByteOf(w, c + 2), ByteOf(w, c + 3)]
  }
}
