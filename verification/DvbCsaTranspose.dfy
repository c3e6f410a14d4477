/** Bringing the bits and bytes of 128 packets into the lanes of words and back,
    third_party/libdvbcsa/dvbcsa_bs_transpose.c and dvbcsa_bs_transpose128.c. Each step exchanges halves of
    blocks between rows of words; all it does is to exchange a binary digit of the row's number with one of
    the bit's, and so the steps together turn rows into columns. */
module DvbCsaTranspose {
  import opened Bytes
  import opened DvbCsaWords

  /* ---- binary digits ---- */

  predicate Power(e: int)
    decreases e
  {
    e == 1 || (e > 1 && e % 2 == 0 && Power(e / 2))
  }

  /** The digit worth `e`. */
  predicate Odd(n: int, e: int)
    requires Power(e)
    decreases e
  {
    if e == 1 then n % 2 == 1 else Odd(n / 2, e / 2)
  }

  /** A multiple of `2 * e`. */
  predicate InPairs(n: int, e: int)
    requires Power(e)
    decreases e
  {
    n % 2 == 0 && (e == 1 || InPairs(n / 2, e / 2))
  }

  lemma HalfOf(n: int, c: int)
    requires 0 <= c < 2
    ensures (2 * n + c) / 2 == n && (2 * n + c) % 2 == c
  {
  }

  lemma HalfOfSum(i: int, n: int)
    requires n % 2 == 0
    ensures (i + n) / 2 == i / 2 + n / 2 && (i - n) / 2 == i / 2 - n / 2
  {
  }

  lemma Double(e: int)
    requires Power(e)
    ensures Power(2 * e) && 2 * e / 2 == e && e > 0
  {
    HalfOf(e, 0);
  }

  lemma {:induction false} Flips(i: int, e: int)
    requires Power(e)
    ensures Odd(i + e, e) == !Odd(i, e) && Odd(i - e, e) == !Odd(i, e)
    decreases e
  {
    if e > 1 {
      HalfOfSum(i, e);
      Flips(i / 2, e / 2);
    }
  }

  lemma {:induction false} OddIsAbove(i: int, e: int)
    requires Power(e) && i >= 0 && Odd(i, e)
    ensures i >= e
    decreases e
  {
    if e > 1 { OddIsAbove(i / 2, e / 2); }
  }

  lemma {:induction false} EvenIsBelow(i: int, n: int, e: int)
    requires Power(e) && InPairs(n, e) && i < n && !Odd(i, e)
    ensures i + e < n
    decreases e
  {
    if e > 1 { EvenIsBelow(i / 2, n / 2, e / 2); }
  }

  lemma {:induction false} Past(i: int, n: int, e: int)
    requires Power(e) && InPairs(n, e)
    ensures Odd(i + n, e) == Odd(i, e)
    decreases e
  {
    if e > 1 {
      HalfOfSum(i, n);
      Past(i / 2, n / 2, e / 2);
    }
  }

  lemma {:induction false} FirstOfPairs(i: int, e: int)
    requires Power(e) && 0 <= i < e
    ensures !Odd(i, e)
    decreases e
  {
    if e > 1 { FirstOfPairs(i / 2, e / 2); }
  }

  lemma {:induction false} NextPairs(j: int, n: int, e: int)
    requires Power(e) && InPairs(j, e) && InPairs(n, e)
    ensures InPairs(j + 2 * e, e) && (j < n ==> j + 2 * e <= n)
    decreases e
  {
    if e > 1 {
      HalfOfSum(j, 2 * e);
      HalfOf(e, 0);
      NextPairs(j / 2, n / 2, e / 2);
    }
  }

  lemma PairsInWord(e: nat)
    requires IsWidth(e)
    ensures InPairs(64, e) && InPairs(0, e)
  {
  }

  /** The digit in either half of a word. */
  lemma DigitOfBit(i: nat, e: nat)
    requires IsWidth(e) && i < BITS
    ensures Odd(i, e) ==> i % 64 >= e
    ensures !Odd(i, e) ==> i % 64 + e < 64
  {
    hide IsWidth, Odd, InPairs;
    var m := i % 64;
    PairsInWord(e);
    Past(m, if i < 64 then 0 else 64, e);
    if Odd(i, e) { OddIsAbove(m, e); } else { EvenIsBelow(m, 64, e); }
  }

  /* ---- one pair of rows ---- */

  predicate IsWidth(e: nat)
    ensures IsWidth(e) ==> Power(e)
  {
    e == 32 || e == 16 || e == 8 || e == 4 || e == 2 || e == 1
  }

  /** The bits of a word whose number has an even, or an odd, digit worth `e`. */
  function EvenMask(e: nat): Word
    requires IsWidth(e)
  {
    if e == 32 then OfBytes([0xff, 0xff, 0xff, 0xff, 0, 0, 0, 0])
    else if e == 16 then OfBytes([0xff, 0xff, 0, 0])
    else if e == 8 then OfBytes([0xff, 0])
    else if e == 4 then OfBytes([0x0f])
    else if e == 2 then OfBytes([0x33])
    else OfBytes([0x55])
  }

  function OddMask(e: nat): Word
    requires IsWidth(e)
  {
    if e == 32 then OfBytes([0, 0, 0, 0, 0xff, 0xff, 0xff, 0xff])
    else if e == 16 then OfBytes([0, 0, 0xff, 0xff])
    else if e == 8 then OfBytes([0, 0xff])
    else if e == 4 then OfBytes([0xf0])
    else if e == 2 then OfBytes([0xcc])
    else OfBytes([0xaa])
  }

  function Up(x: Word, e: nat): Word { if e >= 8 then Shl8(x, e / 8) else Shl(x, e) }

  function Down(x: Word, e: nat): Word { if e >= 8 then Shr8(x, e / 8) else Shr(x, e) }

  /** The two rows after the exchange. */
  function Lower(t: Word, b: Word, e: nat): Word
    requires IsWidth(e)
  {
    Or(And(t, EvenMask(e)), Up(And(b, EvenMask(e)), e))
  }

  function Upper(t: Word, b: Word, e: nat): Word
    requires IsWidth(e)
  {
    Or(And(b, OddMask(e)), Down(And(t, OddMask(e)), e))
  }

  lemma BitsOfMasks(k: nat)
    requires k < 8
    ensures BitOf(0xff, k) == 1 && BitOf(0, k) == 0
    ensures BitOf(0x0f, k) == (if Odd(k, 4) then 0 else 1) && BitOf(0xf0, k) == (if Odd(k, 4) then 1 else 0)
    ensures BitOf(0x33, k) == (if Odd(k, 2) then 0 else 1) && BitOf(0xcc, k) == (if Odd(k, 2) then 1 else 0)
    ensures BitOf(0x55, k) == (if Odd(k, 1) then 0 else 1) && BitOf(0xaa, k) == (if Odd(k, 1) then 1 else 0)
  {
    assert Odd(k, 4) == Odd(k / 2, 2) == Odd(k / 2 / 2, 1);
    assert Odd(k, 2) == Odd(k / 2, 1);
  }

  lemma Eights(q: int)
    ensures InPairs(8 * q, 4) && InPairs(8 * q, 2) && InPairs(8 * q, 1)
  {
    HalfOf(4 * q, 0);
    HalfOf(2 * q, 0);
    HalfOf(q, 0);
  }

  lemma Fours(q: int)
    ensures InPairs(4 * q, 2)
  {
    HalfOf(2 * q, 0);
    HalfOf(q, 0);
  }

  lemma OddInByte(i: nat, e: nat)
    requires e == 4 || e == 2 || e == 1
    ensures Odd(i, e) == Odd(i % 8, e)
  {
    hide InPairs, Odd;
    Eights(i / 8);
    Past(i % 8, 8 * (i / 8), e);
  }

  /** Masks of whole bytes that alternate between two values, `e` bytes of each. */
  lemma Alternating(bytes: seq<Byte>, lo: Byte, hi: Byte, e: nat, i: nat)
    requires e == 4 || e == 2 || e == 1
    requires |bytes| == 2 * e && i < BITS
    requires forall c: nat {:trigger bytes[c]} :: c < 2 * e ==> bytes[c] == if c < e then lo else hi
    ensures Power(8 * e) && OfBytes(bytes)[i] == BitOf(if Odd(i, 8 * e) then hi else lo, i % 8)
  {
    hide BitOf, Odd;
    OddOfByte(i / 8, i, e);
    HighDigit(i / 8, e);
  }

  lemma OddOfByte(c: int, i: int, e: int)
    requires Power(e) && c == i / 8
    ensures Power(8 * e) && Odd(i, 8 * e) == Odd(c, e)
  {
    Double(e);
    Double(2 * e);
    Double(4 * e);
    assert i / 2 / 2 / 2 == c;
    assert Odd(i, 8 * e) == Odd(i / 2, 4 * e) == Odd(i / 2 / 2, 2 * e) == Odd(i / 2 / 2 / 2, e);
  }

  lemma HighDigit(c: nat, e: nat)
    requires e == 4 || e == 2 || e == 1
    ensures Odd(c, e) <==> c % (2 * e) >= e
  {
    hide Odd;
    if e == 4 {
      Multiple4(c);
    } else if e == 2 {
      Multiple2(c);
    } else {
      Multiple1(c);
    }
  }

  lemma Multiple4(c: nat)
    ensures Odd(c, 4) <==> c % 8 >= 4
  {
    hide Odd, InPairs;
    Eights(c / 8);
    Past(c % 8, 8 * (c / 8), 4);
    UpperHalf(c % 8, 4);
  }

  lemma Multiple2(c: nat)
    ensures Odd(c, 2) <==> c % 4 >= 2
  {
    hide Odd, InPairs;
    Fours(c / 4);
    Past(c % 4, 4 * (c / 4), 2);
    UpperHalf(c % 4, 2);
  }

  lemma Multiple1(c: nat)
    ensures Odd(c, 1) <==> c % 2 >= 1
  {
  }

  lemma UpperHalf(m: nat, e: nat)
    requires Power(e) && m < 2 * e
    ensures Odd(m, e) <==> m >= e
  {
    hide Odd;
    if m < e {
      FirstOfPairs(m, e);
    } else {
      FirstOfPairs(m - e, e);
      Flips(m, e);
    }
  }

  lemma MaskBits(e: nat, i: nat)
    requires IsWidth(e) && i < BITS
    ensures EvenMask(e)[i] == (if Odd(i, e) then 0 else 1) && OddMask(e)[i] == (if Odd(i, e) then 1 else 0)
  {
    hide OfBytes, BitOf, Odd;
    BitsOfMasks(i % 8);
    if e == 32 {
      Alternating([0xff, 0xff, 0xff, 0xff, 0, 0, 0, 0], 0xff, 0, 4, i);
      Alternating([0, 0, 0, 0, 0xff, 0xff, 0xff, 0xff], 0, 0xff, 4, i);
    } else if e == 16 {
      Alternating([0xff, 0xff, 0, 0], 0xff, 0, 2, i);
      Alternating([0, 0, 0xff, 0xff], 0, 0xff, 2, i);
    } else if e == 8 {
      Alternating([0xff, 0], 0xff, 0, 1, i);
      Alternating([0, 0xff], 0, 0xff, 1, i);
    } else {
      EveryByte(e, i);
    }
  }

  lemma EveryByte(e: nat, i: nat)
    requires (e == 4 || e == 2 || e == 1) && i < BITS
    ensures EvenMask(e)[i] == (if Odd(i, e) then 0 else 1) && OddMask(e)[i] == (if Odd(i, e) then 1 else 0)
  {
    hide BitOf, Odd;
    BitsOfMasks(i % 8);
    OddInByte(i, e);
  }

  /** What the exchange of a pair of rows does to each bit. */
  lemma PairBits(t: Word, b: Word, e: nat, i: nat)
    requires IsWidth(e) && i < BITS
    ensures Odd(i, e) ==> i >= e && Lower(t, b, e)[i] == b[i - e] && Upper(t, b, e)[i] == b[i]
    ensures !Odd(i, e) ==> i + e < BITS && Lower(t, b, e)[i] == t[i] && Upper(t, b, e)[i] == t[i + e]
  {
    hide And, Or, Up, Down, EvenMask, OddMask, Odd, IsWidth;
    Flips(i, e);
    DigitOfBit(i, e);
    MaskBits(e, i);
    if i >= e { MaskBits(e, i - e); }
    if i + e < BITS { MaskBits(e, i + e); }
    UpDown(And(b, EvenMask(e)), e, i);
    UpDown(And(t, OddMask(e)), e, i);
  }

  /** A shifted bit comes from where it should, or is none at all. */
  lemma UpDown(x: Word, e: nat, i: nat)
    requires IsWidth(e) && i < BITS
    ensures Up(x, e)[i] == 0 || (i >= e && Up(x, e)[i] == x[i - e])
    ensures Down(x, e)[i] == 0 || (i + e < BITS && Down(x, e)[i] == x[i + e])
    ensures i % 64 >= e ==> i >= e && Up(x, e)[i] == x[i - e]
    ensures i % 64 + e < 64 ==> i + e < BITS && Down(x, e)[i] == x[i + e]
  {
    hide Shl, Shr, Shl8, Shr8;
    if e >= 8 { assert 8 * (e / 8) == e; }
  }

  /* ---- all rows ---- */

  lemma PairOf(n: nat, d: nat, r: nat)
    requires Power(d) && InPairs(n, d) && r < n
    ensures if Odd(r, d) then r >= d && !Odd(r - d, d) else r + d < n && Odd(r + d, d)
  {
    Flips(r, d);
    if Odd(r, d) { OddIsAbove(r, d); } else { EvenIsBelow(r, n, d); }
  }

  /** Every pair of rows exchanged. */
  function Exchanged(s: seq<Word>, d: nat, e: nat): (t: seq<Word>)
    requires IsWidth(d) && IsWidth(e) && InPairs(|s|, d)
    ensures |t| == |s|
  {
    seq(|s|, r requires 0 <= r < |s| => ExchangedRow(s, d, e, r))
  }

  function ExchangedRow(s: seq<Word>, d: nat, e: nat, r: nat): Word
    requires IsWidth(d) && IsWidth(e) && InPairs(|s|, d) && r < |s|
  {
    PairOf(|s|, d, r);
    if Odd(r, d) then Upper(s[r - d], s[r], e) else Lower(s[r], s[r + d], e)
  }

  /** The loops over the pairs of `n` rows from `lo` on. */
  method Exchange(rows: array<Word>, lo: nat, n: nat, d: nat, e: nat)
    requires IsWidth(d) && IsWidth(e) && InPairs(n, d) && lo + n <= rows.Length
    modifies rows
    ensures rows[lo..lo + n] == Exchanged(old(rows[lo..lo + n]), d, e)
    ensures forall k :: 0 <= k < rows.Length && !(lo <= k < lo + n) ==> rows[k] == old(rows[k])
  {
    hide Odd, Lower, Upper, ExchangedRow, InPairs;
    ghost var s := rows[lo..lo + n];
    var j := 0;
    assert InPairs(0, d) by { NoPairs(d); }
    while j < n
      invariant j <= n && InPairs(j, d)
      invariant forall k :: lo <= k < lo + n ==>
        rows[k] == if k < lo + j then ExchangedRow(s, d, e, k - lo) else s[k - lo]
      invariant forall k :: 0 <= k < rows.Length && !(lo <= k < lo + n) ==> rows[k] == old(rows[k])
    {
      NextPairs(j, n, d);
      ExchangeBlock(rows, lo, j, d, e, s);
      j := j + 2 * d;
    }
  }

  lemma {:induction false} NoPairs(d: int)
    requires Power(d)
    ensures InPairs(0, d)
    decreases d
  {
    if d > 1 { NoPairs(d / 2); }
  }

  /** The pairs of one block. */
  method ExchangeBlock(rows: array<Word>, lo: nat, j: nat, d: nat, e: nat, ghost s: seq<Word>)
    requires IsWidth(d) && IsWidth(e) && InPairs(|s|, d) && lo + |s| <= rows.Length
    requires InPairs(j, d) && j + 2 * d <= |s|
    requires forall k :: lo + j <= k < lo + j + 2 * d ==> rows[k] == s[k - lo]
    modifies rows
    ensures forall k :: 0 <= k < rows.Length ==>
      rows[k] == if lo + j <= k < lo + j + 2 * d then ExchangedRow(s, d, e, k - lo) else old(rows[k])
  {
    hide Odd, Lower, Upper, IsWidth, InPairs;
    for i := 0 to d
      invariant forall k :: 0 <= k < rows.Length ==>
        rows[k] == if lo + j <= k < lo + j + i || lo + j + d <= k < lo + j + d + i then ExchangedRow(s, d, e, k - lo)
                   else old(rows[k])
    {
      FirstOfPairs(i, d);
      Past(i, j, d);
      Flips(j + i, d);
      var t, b := rows[lo + j + i], rows[lo + j + d + i];
      assert t == s[j + i] && b == s[j + d + i];
      rows[lo + j + i] := Lower(t, b, e);
      rows[lo + j + d + i] := Upper(t, b, e);
    }
  }

  /* ---- where a bit comes from ---- */

  datatype Place = Place(row: int, bit: int)

  /** A bit stays where it is if the two digits are the same, and otherwise comes from where they are the
      other way round. */
  function Before(p: Place, d: int, e: int): Place
    requires Power(d) && Power(e)
  {
    if Odd(p.row, d) == Odd(p.bit, e) then p
    else if Odd(p.row, d) then Place(p.row - d, p.bit + e) else Place(p.row + d, p.bit - e)
  }

  predicate Among(s: seq<Word>, p: Place) { 0 <= p.row < |s| && 0 <= p.bit < BITS }

  function Held(s: seq<Word>, p: Place): bv1
    requires Among(s, p)
  {
    s[p.row][p.bit]
  }

  lemma RowOfExchanged(s: seq<Word>, d: nat, e: nat, r: nat)
    requires IsWidth(d) && IsWidth(e) && InPairs(|s|, d) && r < |s|
    ensures Exchanged(s, d, e)[r] == ExchangedRow(s, d, e, r)
  {
    hide ExchangedRow;
  }

  lemma ExchangedBit(s: seq<Word>, d: nat, e: nat, p: Place)
    requires IsWidth(d) && IsWidth(e) && InPairs(|s|, d) && Among(s, p)
    ensures Among(s, Before(p, d, e)) && Held(Exchanged(s, d, e), p) == Held(s, Before(p, d, e))
  {
    hide Odd, Lower, Upper, Exchanged, InPairs;
    var r, i := p.row, p.bit;
    RowOfExchanged(s, d, e, r);
    PairOf(|s|, d, r);
    if Odd(r, d) {
      PairBits(s[r - d], s[r], e, i);
    } else {
      PairBits(s[r], s[r + d], e, i);
    }
  }

  /** Digits below the one exchanged go with their place. */
  function Below(p: Place, c: int, z: int): Place { Place(2 * p.row + c, 2 * p.bit + z) }

  lemma BeforeBelow(p: Place, c: int, z: int, d: int, e: int)
    requires Power(d) && Power(e) && 0 <= c < 2 && 0 <= z < 2
    ensures Power(2 * d) && Power(2 * e) && Before(Below(p, c, z), 2 * d, 2 * e) == Below(Before(p, d, e), c, z)
  {
    hide Odd, Power;
    OddBelow(p.row, c, d);
    OddBelow(p.bit, z, e);
  }

  lemma OddBelow(n: int, c: int, d: int)
    requires Power(d) && 0 <= c < 2
    ensures Power(2 * d) && Odd(2 * n + c, 2 * d) == Odd(n, d)
  {
    Double(d);
    HalfOf(n, c);
  }

  /** The exchanges from `m / 2` down to 1, of rows and of units of bits. */
  ghost predicate Halving(n: nat, m: nat, w: nat)
    decreases m
  {
    || m == 1
    || (m > 1 && m == 2 * (m / 2) && IsWidth(m / 2) && IsWidth(w * (m / 2)) && InPairs(n, m / 2)
        && Halving(n, m / 2, w))
  }

  ghost function Crossed(s: seq<Word>, m: nat, w: nat): (t: seq<Word>)
    requires Halving(|s|, m, w)
    ensures |t| == |s|
    decreases m
  {
    if m <= 1 then s else Crossed(Exchanged(s, m / 2, w * (m / 2)), m / 2, w)
  }

  /** Row and bit with their digits below `m` the other way round. */
  function Where(p: Place, m: int): Place
    requires Power(m)
    decreases m
  {
    if m == 1 then p else Below(Where(Place(p.row / 2, p.bit / 2), m / 2), p.bit % 2, p.row % 2)
  }

  lemma {:induction false} WhereStep(p: Place, m: int)
    requires Power(m)
    ensures Power(2 * m) && Before(Where(p, m), m, m) == Where(p, 2 * m)
    decreases m
  {
    Double(m);
    if m > 1 {
      var q := Place(p.row / 2, p.bit / 2);
      WhereStep(q, m / 2);
      BeforeBelow(Where(q, m / 2), p.bit % 2, p.row % 2, m / 2, m / 2);
    }
  }

  /** The digits of a number below `m`. */
  function Rem(i: int, m: int): int
    requires Power(m)
    decreases m
  {
    if m == 1 then 0 else 2 * Rem(i / 2, m / 2) + i % 2
  }

  lemma {:induction false} WhereIs(p: Place, m: int)
    requires Power(m)
    ensures Where(p, m) == Place(p.row - Rem(p.row, m) + Rem(p.bit, m), p.bit - Rem(p.bit, m) + Rem(p.row, m))
    decreases m
  {
    if m > 1 { WhereIs(Place(p.row / 2, p.bit / 2), m / 2); }
  }

  lemma {:induction false} RemIs(n: int, j: int, e: int)
    requires Power(e) && InPairs(j, e) && 0 <= n < 2 * e
    ensures Power(2 * e) && Rem(j + n, 2 * e) == n
    decreases e
  {
    Double(e);
    if e > 1 {
      HalfOfSum(n, j);
      HalfOf(e / 2, 0);
      RemIs(n / 2, j / 2, e / 2);
      assert Rem(j + n, 2 * e) == 2 * Rem((j + n) / 2, 2 * e / 2) + (j + n) % 2;
    }
  }

  /** The `z`th bit of a unit of `w` bits. */
  function InUnit(p: Place, w: int, z: int): Place { Place(p.row, w * p.bit + z) }

  lemma BeforeInUnit(p: Place, w: nat, z: int, d: int)
    requires Power(d) && (w == 1 || w == 8) && 0 <= z < w
    ensures Power(w * d) && Before(InUnit(p, w, z), d, w * d) == InUnit(Before(p, d, d), w, z)
  {
    if w == 8 {
      hide Odd;
      OddOfByte(p.bit, 8 * p.bit + z, d);
    }
  }

  /** What the exchanges do to every bit. */
  lemma {:induction false} CrossedBit(s: seq<Word>, m: nat, w: nat, p: Place, z: nat)
    requires Power(m) && Halving(|s|, m, w) && (w == 1 || w == 8) && 0 <= z < w && Among(s, InUnit(p, w, z))
    ensures Among(s, InUnit(Where(p, m), w, z))
    ensures Held(Crossed(s, m, w), InUnit(p, w, z)) == Held(s, InUnit(Where(p, m), w, z))
    decreases m
  {
    if m > 1 {
      hide Exchanged, Before, IsWidth, InPairs, Where, Held, Among;
      var h: nat := m / 2;
      var t, q := Exchanged(s, h, w * h), Where(p, h);
      SameAmong(s, t, InUnit(p, w, z));
      CrossedBit(t, h, w, p, z);
      SameAmong(s, t, InUnit(q, w, z));
      ExchangedBit(s, h, w * h, InUnit(q, w, z));
      BeforeInUnit(q, w, z, h);
      WhereStep(p, h);
    }
  }

  lemma SameAmong(s: seq<Word>, t: seq<Word>, p: Place)
    requires |s| == |t|
    ensures Among(s, p) == Among(t, p)
  {
  }

  /* ---- the first blocks into the lanes of the stream ---- */

  /** Where the bits of a packet are in the words of the stream. */
  function StreamLane(k: nat): (n: nat)
    requires k < BITS
    ensures n < BITS
  {
    64 * (k % 2) + k / 2
  }

  type Block = b: seq<Byte> | |b| == 8 witness seq(8, _ => 0)

  /** The first eight bytes of a packet are in half `h` of a row, if it has so many. */
  ghost predicate InHalf(x: seq<Byte>, w: Word, h: nat)
    requires h < 2
  {
    |x| >= 8 ==> forall r :: 0 <= r < 64 ==> w[64 * h + r] == BitOf(x[r / 8], r % 8)
  }

  lemma HalvesOf(t: Block, b: Block)
    ensures var w := OfBytes(t + b); InHalf(t, w, 0) && InHalf(b, w, 1)
  {
    hide BitOf;
    var w := OfBytes(t + b);
    forall r | 0 <= r < 64
      ensures w[64 * 0 + r] == BitOf(t[r / 8], r % 8) && w[64 * 1 + r] == BitOf(b[r / 8], r % 8)
    {
      assert (64 + r) / 8 == 8 + r / 8 && (64 + r) % 8 == r % 8;
      assert (t + b)[r / 8] == t[r / 8] && (t + b)[8 + r / 8] == b[r / 8];
    }
  }

  /** A row for every two packets; what a short packet leaves is not determined. */
  method LoadRows(slots: array<seq<Byte>>, row: array<Word>)
    requires slots.Length <= BITS && row.Length == 64
    modifies row
    ensures forall k :: 0 <= k < slots.Length ==> InHalf(slots[k], row[k / 2], k % 2)
  {
    hide InHalf, OfBytes;
    var unset := new Block[slots.Length + 1];
    var i := 0;
    while 2 * i < slots.Length
      invariant i <= 64
      invariant forall k :: 0 <= k < slots.Length && k < 2 * i ==> InHalf(slots[k], row[k / 2], k % 2)
    {
      var t, b := unset[2 * i], unset[2 * i + 1];
      if |slots[2 * i]| >= 8 {
        t := slots[2 * i][..8];
      }
      if 2 * i + 1 < slots.Length && |slots[2 * i + 1]| >= 8 {
        b := slots[2 * i + 1][..8];
      }
      row[i] := OfBytes(t + b);
      HalvesOf(t, b);
      HalfOfPrefix(slots[2 * i], t, row[i], 0);
      if 2 * i + 1 < slots.Length { HalfOfPrefix(slots[2 * i + 1], b, row[i], 1); }
      i := i + 1;
    }
  }

  lemma HalfOfPrefix(x: seq<Byte>, t: Block, w: Word, h: nat)
    requires h < 2 && InHalf(t, w, h) && (|x| >= 8 ==> t == x[..8])
    ensures InHalf(x, w, h)
  {
    hide BitOf;
  }

  lemma Halvings()
    ensures Halving(64, 64, 1) && Halving(64, 32, 1) && Halving(64, 16, 1) && Halving(64, 8, 1)
    ensures Halving(64, 4, 1) && Halving(64, 2, 1) && Halving(64, 1, 1)
    ensures Halving(8, 8, 8) && Halving(8, 4, 8) && Halving(8, 2, 8) && Halving(8, 1, 8)
  {
    assert Halving(64, 8, 1) by { assert Halving(64, 2, 1); }
    assert Halving(8, 8, 8) by { assert Halving(8, 2, 8); }
  }

  /** The six exchanges of the 64 rows. */
  method CrossIn(row: array<Word>)
    requires row.Length == 64
    modifies row
    ensures Halving(64, 64, 1) && row[..] == Crossed(old(row[..]), 64, 1)
  {
    hide Exchanged, Halving;
    Halvings();
    assert row[0..64] == row[..];
    Exchange(row, 0, 64, 32, 32);
    assert row[0..64] == row[..] && Crossed(row[..], 32, 1) == Crossed(old(row[..]), 64, 1);
    Exchange(row, 0, 64, 16, 16);
    assert row[0..64] == row[..] && Crossed(row[..], 16, 1) == Crossed(old(row[..]), 64, 1);
    Exchange(row, 0, 64, 8, 8);
    assert row[0..64] == row[..] && Crossed(row[..], 8, 1) == Crossed(old(row[..]), 64, 1);
    Exchange(row, 0, 64, 4, 4);
    assert row[0..64] == row[..] && Crossed(row[..], 4, 1) == Crossed(old(row[..]), 64, 1);
    Exchange(row, 0, 64, 2, 2);
    assert row[0..64] == row[..] && Crossed(row[..], 2, 1) == Crossed(old(row[..]), 64, 1);
    Exchange(row, 0, 64, 1, 1);
    assert row[0..64] == row[..];
  }

  /** Bit after bit of the first block of a packet is then in its lane of word after word. */
  ghost predicate InLane(x: seq<Byte>, row: seq<Word>, n: nat)
    requires |row| == 64 && n < BITS
  {
    |x| >= 8 ==> forall r :: 0 <= r < 64 ==> row[r][n] == BitOf(x[r / 8], r % 8)
  }

  /** Rows and bits of a half word change places. */
  lemma WhereIn64(r: nat, h: nat, n: nat)
    requires r < 64 && h < 2 && n < 64
    ensures Where(Place(r, 64 * h + n), 64) == Place(n, 64 * h + r)
  {
    hide Where, Rem, InPairs;
    assert Power(64);
    WhereIs(Place(r, 64 * h + n), 64);
    PairsInWord(32);
    RemIs(r, 0, 32);
    RemIs(n, 64 * h, 32);
  }

  lemma HalfCrossed(s: seq<Word>, x: seq<Byte>, k: nat)
    requires |s| == 64 && k < BITS && Halving(64, 64, 1) && InHalf(x, s[k / 2], k % 2)
    ensures InLane(x, Crossed(s, 64, 1), StreamLane(k))
  {
    hide Crossed, Halving, Where;
    assert Power(64);
    var t, n, h := Crossed(s, 64, 1), k / 2, k % 2;
    if |x| >= 8 {
      forall r | 0 <= r < 64
        ensures t[r][64 * h + n] == BitOf(x[r / 8], r % 8)
      {
        var p := Place(r, 64 * h + n);
        WhereIn64(r, h, n);
        CrossedBit(s, 64, 1, p, 0);
        assert InUnit(p, 1, 0) == p && InUnit(Place(n, 64 * h + r), 1, 0) == Place(n, 64 * h + r);
      }
    }
  }

  /** dvbcsa_bs_stream_transpose_in. */
  method StreamIn(slots: array<seq<Byte>>) returns (row: array<Word>)
    requires slots.Length <= BITS
    ensures fresh(row) && row.Length == 64
    ensures forall k :: 0 <= k < slots.Length ==> InLane(slots[k], row[..], StreamLane(k))
  {
    hide InHalf, InLane, Crossed, Halving;
    row := new Word[64];
    LoadRows(slots, row);
    ghost var s := row[..];
    CrossIn(row);
    forall k | 0 <= k < slots.Length
      ensures InLane(slots[k], row[..], StreamLane(k))
    {
      HalfCrossed(s, slots[k], k);
    }
  }

  /* ---- the bytes of the stream out of the lanes ---- */

  /** The bits that stay, go up and go down when two digits of a bit's number change places. */
  function KeepMask(e: nat): Word
    requires e == 4 || e == 2 || e == 1
  {
    if e == 4 then OfBytes([0x0f, 0x0f, 0x0f, 0x0f, 0xf0, 0xf0, 0xf0, 0xf0])
    else if e == 2 then OfBytes([0x33, 0x33, 0xcc, 0xcc]) else OfBytes([0x55, 0xaa])
  }

  function FallMask(e: nat): Word
    requires e == 4 || e == 2 || e == 1
  {
    if e == 4 then OfBytes([0, 0, 0, 0, 0x0f, 0x0f, 0x0f, 0x0f])
    else if e == 2 then OfBytes([0, 0, 0x33, 0x33]) else OfBytes([0, 0x55])
  }

  function RiseMask(e: nat): Word
    requires e == 4 || e == 2 || e == 1
  {
    if e == 4 then OfBytes([0xf0, 0xf0, 0xf0, 0xf0, 0, 0, 0, 0])
    else if e == 2 then OfBytes([0xcc, 0xcc, 0, 0]) else OfBytes([0xaa, 0])
  }

  function Shuffled(t: Word, e: nat): Word
    requires e == 4 || e == 2 || e == 1
  {
    Or(And(t, KeepMask(e)), Or(Shr(And(t, FallMask(e)), 7 * e), Shl(And(t, RiseMask(e)), 7 * e)))
  }

  lemma ShuffleMaskBits(e: nat, i: nat)
    requires (e == 4 || e == 2 || e == 1) && i < BITS
    ensures Power(8 * e)
    ensures KeepMask(e)[i] == (if Odd(i, 8 * e) == Odd(i, e) then 1 else 0)
    ensures FallMask(e)[i] == (if Odd(i, 8 * e) && !Odd(i, e) then 1 else 0)
    ensures RiseMask(e)[i] == (if !Odd(i, 8 * e) && Odd(i, e) then 1 else 0)
  {
    hide OfBytes, BitOf, Odd;
    BitsOfMasks(i % 8);
    OddInByte(i, e);
    if e == 4 {
      Alternating([0x0f, 0x0f, 0x0f, 0x0f, 0xf0, 0xf0, 0xf0, 0xf0], 0x0f, 0xf0, 4, i);
      Alternating([0, 0, 0, 0, 0x0f, 0x0f, 0x0f, 0x0f], 0, 0x0f, 4, i);
      Alternating([0xf0, 0xf0, 0xf0, 0xf0, 0, 0, 0, 0], 0xf0, 0, 4, i);
    } else if e == 2 {
      Alternating([0x33, 0x33, 0xcc, 0xcc], 0x33, 0xcc, 2, i);
      Alternating([0, 0, 0x33, 0x33], 0, 0x33, 2, i);
      Alternating([0xcc, 0xcc, 0, 0], 0xcc, 0, 2, i);
    } else {
      Alternating([0x55, 0xaa], 0x55, 0xaa, 1, i);
      Alternating([0, 0x55], 0, 0x55, 1, i);
      Alternating([0xaa, 0], 0xaa, 0, 1, i);
    }
  }

  lemma {:induction false} Unchanged(n: int, e: int, f: int)
    requires Power(e) && Power(f) && e < f && !Odd(n, e)
    ensures Odd(n + e, f) == Odd(n, f)
    decreases e
  {
    if e > 1 {
      HalfOfSum(n, e);
      Unchanged(n / 2, e / 2, f / 2);
    } else {
      HalfOf(n / 2, 1);
    }
  }

  /** The digit worth `8 * e` is set and the one worth `e` not, or the other way round. */
  predicate Falls(i: int, e: nat)
    requires e == 4 || e == 2 || e == 1
  {
    assert IsWidth(8 * e);
    Odd(i, 8 * e) && !Odd(i, e)
  }

  predicate Rises(i: int, e: nat)
    requires e == 4 || e == 2 || e == 1
  {
    assert IsWidth(8 * e);
    !Odd(i, 8 * e) && Odd(i, e)
  }

  lemma SevenAway(i: int, e: nat)
    requires e == 4 || e == 2 || e == 1
    ensures Falls(i + 7 * e, e) == Rises(i, e)
  {
    assert IsWidth(8 * e);
    hide Odd;
    Flips(i, 8 * e);
    Flips(i + 8 * e, e);
    Flips(i + 7 * e, e);
    SixteenthsPass(i, e);
    if !Odd(i + 7 * e, e) { Unchanged(i + 7 * e, e, 8 * e); }
  }

  lemma SixteenthsPass(i: int, e: int)
    requires Power(e)
    ensures Odd(i + 8 * e, e) == Odd(i, e)
  {
    hide Odd;
    MultiplesPair(e);
    Past(i, 8 * e, e);
  }

  lemma {:induction false} MultiplesPair(e: int)
    requires Power(e)
    ensures InPairs(8 * e, e)
    decreases e
  {
    HalfOf(4 * e, 0);
    if e > 1 { MultiplesPair(e / 2); }
  }

  lemma SevenInHalf(i: nat, e: nat)
    requires (e == 4 || e == 2 || e == 1) && i < BITS
    ensures Falls(i, e) ==> i % 64 >= 7 * e
    ensures Rises(i, e) ==> i % 64 + 7 * e < 64
    ensures i + 7 * e < BITS ==> Falls(i + 7 * e, e) == Rises(i, e)
    ensures i >= 7 * e ==> Rises(i - 7 * e, e) == Falls(i, e)
  {
    hide Odd;
    assert IsWidth(8 * e);
    DigitOfBit(i, 8 * e);
    SevenAway(i, e);
    SevenAway(i - 7 * e, e);
  }

  lemma KeepMaskBit(e: nat, i: nat)
    requires (e == 4 || e == 2 || e == 1) && i < BITS
    ensures KeepMask(e)[i] == if Falls(i, e) || Rises(i, e) then 0 else 1
  {
    hide KeepMask, Odd;
    ShuffleMaskBits(e, i);
  }

  lemma MovingMaskBits(e: nat, i: nat)
    requires (e == 4 || e == 2 || e == 1) && i < BITS
    ensures FallMask(e)[i] == (if Falls(i, e) then 1 else 0) && RiseMask(e)[i] == (if Rises(i, e) then 1 else 0)
  {
    hide FallMask, RiseMask, Odd;
    ShuffleMaskBits(e, i);
  }

  lemma FallenBit(t: Word, e: nat, i: nat)
    requires (e == 4 || e == 2 || e == 1) && i < BITS
    ensures Rises(i, e) ==> i + 7 * e < BITS
    ensures Shr(And(t, FallMask(e)), 7 * e)[i] == if Rises(i, e) then t[i + 7 * e] else 0
  {
    hide FallMask, RiseMask, And, Shr, Falls, Rises;
    SevenInHalf(i, e);
    if i % 64 + 7 * e < 64 { MovingMaskBits(e, i + 7 * e); }
  }

  lemma RisenBit(t: Word, e: nat, i: nat)
    requires (e == 4 || e == 2 || e == 1) && i < BITS
    ensures Falls(i, e) ==> i >= 7 * e
    ensures Shl(And(t, RiseMask(e)), 7 * e)[i] == if Falls(i, e) then t[i - 7 * e] else 0
  {
    hide FallMask, RiseMask, And, Shl, Falls, Rises;
    SevenInHalf(i, e);
    if i % 64 >= 7 * e { MovingMaskBits(e, i - 7 * e); }
  }

  lemma NotBoth(i: nat, e: nat)
    requires e == 4 || e == 2 || e == 1
    ensures !(Falls(i, e) && Rises(i, e))
  {
    hide Odd;
  }

  lemma ShuffledBit(t: Word, e: nat, i: nat)
    requires (e == 4 || e == 2 || e == 1) && i < BITS
    ensures Falls(i, e) ==> i >= 7 * e && Shuffled(t, e)[i] == t[i - 7 * e]
    ensures Rises(i, e) ==> i + 7 * e < BITS && Shuffled(t, e)[i] == t[i + 7 * e]
    ensures !Falls(i, e) && !Rises(i, e) ==> Shuffled(t, e)[i] == t[i]
  {
    hide KeepMask, FallMask, RiseMask, And, Or, Shl, Shr, Falls, Rises;
    KeepMaskBit(e, i);
    FallenBit(t, e, i);
    RisenBit(t, e, i);
    NotBoth(i, e);
  }

  function Shuffle(t: Word): Word { Shuffled(Shuffled(Shuffled(t, 4), 2), 1) }

  /** Bytes and bits as rows and columns. */
  function BitAt(p: Place): int { 8 * p.bit + p.row }

  predicate InWord(p: Place) { 0 <= p.row < 8 && 0 <= p.bit < 16 }

  lemma BeforeInByte(p: Place, e: nat)
    requires InWord(p) && (e == 4 || e == 2 || e == 1)
    ensures var b := Before(p, e, e);
            && InWord(b) && (if Falls(BitAt(p), e) then BitAt(b) == BitAt(p) - 7 * e
                             else if Rises(BitAt(p), e) then BitAt(b) == BitAt(p) + 7 * e else b == p)
  {
    hide Odd;
    OddInByte(BitAt(p), e);
    OddOfByte(p.bit, BitAt(p), e);
    assert BitAt(p) % 8 == p.row;
    UpperBound(p.row, 8, e);
    UpperBound(p.bit, 16, e);
  }

  lemma UpperBound(i: nat, n: nat, e: nat)
    requires (e == 4 || e == 2 || e == 1) && (n == 8 || n == 16) && i < n
    ensures if Odd(i, e) then i >= e else i + e < n
  {
    hide Odd;
    Eights(n / 8);
    if Odd(i, e) { OddIsAbove(i, e); } else { EvenIsBelow(i, n, e); }
  }

  lemma ShuffledAt(t: Word, e: nat, p: Place)
    requires InWord(p) && (e == 4 || e == 2 || e == 1)
    ensures var b := Before(p, e, e); InWord(b) && Shuffled(t, e)[BitAt(p)] == t[BitAt(b)]
  {
    hide Odd, Before, Shuffled;
    BeforeInByte(p, e);
    ShuffledBit(t, e, BitAt(p));
  }

  /** In each half of a word bytes and bits change places. */
  lemma ShuffleAt(t: Word, h: nat, m: nat, b: nat)
    requires h < 2 && m < 8 && b < 8
    ensures Shuffle(t)[64 * h + 8 * m + b] == t[64 * h + 8 * b + m]
  {
    hide Shuffled, Before, Where;
    var p := Place(b, 8 * h + m);
    assert Power(8);
    ThreeSteps(p);
    WhereIn8(b, h, m);
    ShuffledAt(Shuffled(Shuffled(t, 4), 2), 1, p);
    ShuffledAt(Shuffled(t, 4), 2, Before(p, 1, 1));
    ShuffledAt(t, 4, Before(Before(p, 1, 1), 2, 2));
  }

  lemma ThreeSteps(p: Place)
    ensures Power(8) && Before(Before(Before(p, 1, 1), 2, 2), 4, 4) == Where(p, 8)
  {
    hide Before;
    assert Power(8);
    WhereStep(p, 1);
    WhereStep(p, 2);
    WhereStep(p, 4);
  }

  lemma WhereIn8(r: nat, h: nat, n: nat)
    requires r < 8 && h < 2 && n < 8
    ensures Where(Place(r, 8 * h + n), 8) == Place(n, 8 * h + r)
  {
    hide Where, Rem, InPairs;
    assert Power(8);
    WhereIs(Place(r, 8 * h + n), 8);
    Eights(0);
    Eights(h);
    RemIs(r, 0, 4);
    RemIs(n, 8 * h, 4);
  }

  /** The order in which the bytes of a row are handed to the packets. */
  function ByteOrder(i: nat): (c: nat)
    requires i < 16
    ensures c < 16
  {
    [0, 8, 1, 9, 2, 10, 3, 11, 4, 12, 5, 13, 6, 14, 7, 15][i]
  }

  lemma ByteOrderIs(i: nat)
    requires i < 16
    ensures ByteOrder(i) == 8 * (i % 2) + i / 2
  {
  }

  /** A lane of eight words as a byte. */
  function ByteAcross(rows: seq<Word>, n: nat): Byte
    requires |rows| == 8 && n < BITS
  {
    OfBits(rows[0][n], rows[1][n], rows[2][n], rows[3][n], rows[4][n], rows[5][n], rows[6][n], rows[7][n])
  }

  lemma BitAcross(rows: seq<Word>, n: nat, b: nat)
    requires |rows| == 8 && n < BITS && b < 8
    ensures BitOf(ByteAcross(rows, n), b) == rows[b][n]
  {
    hide OfBits, BitOf;
    BitOfBits(rows[0][n], rows[1][n], rows[2][n], rows[3][n], rows[4][n], rows[5][n], rows[6][n], rows[7][n]);
  }

  /** The three exchanges of the eight rows. */
  method CrossOut(row: array<Word>)
    requires row.Length == 8
    modifies row
    ensures Halving(8, 8, 8) && row[..] == Crossed(old(row[..]), 8, 8)
  {
    hide Exchanged, Halving;
    Halvings();
    assert row[0..8] == row[..];
    Exchange(row, 0, 8, 4, 32);
    assert row[0..8] == row[..] && Crossed(row[..], 4, 8) == Crossed(old(row[..]), 8, 8);
    Exchange(row, 0, 8, 2, 16);
    assert row[0..8] == row[..] && Crossed(row[..], 2, 8) == Crossed(old(row[..]), 8, 8);
    Exchange(row, 0, 8, 1, 8);
    assert row[0..8] == row[..];
  }

  lemma CrossedByte(s: seq<Word>, j: nat, h: nat, m: nat, z: nat)
    requires |s| == 8 && Halving(8, 8, 8) && j < 8 && h < 2 && m < 8 && z < 8
    ensures Crossed(s, 8, 8)[j][64 * h + 8 * m + z] == s[m][64 * h + 8 * j + z]
  {
    hide Crossed, Halving, Where;
    assert Power(8);
    var p, q := Place(j, 8 * h + m), Place(m, 8 * h + j);
    WhereIn8(j, h, m);
    CrossedBit(s, 8, 8, p, z);
    assert InUnit(p, 8, z) == Place(j, 64 * h + 8 * m + z) && InUnit(q, 8, z) == Place(m, 64 * h + 8 * j + z);
  }

  lemma HandedOutAt(s: seq<Word>, j: nat, h: nat, m: nat)
    requires |s| == 8 && Halving(8, 8, 8) && j < 8 && h < 2 && m < 8
    ensures ByteOf(Shuffle(Crossed(s, 8, 8)[j]), 8 * h + m) == ByteAcross(s, 64 * h + 8 * j + m)
  {
    hide Crossed, Halving, Shuffle, ByteOf, ByteAcross, BitOf;
    var w, x := Shuffle(Crossed(s, 8, 8)[j]), ByteAcross(s, 64 * h + 8 * j + m);
    forall b | 0 <= b < 8
      ensures BitIn(w, 8 * h + m, b) == BitOf(x, b)
    {
      ShuffleAt(Crossed(s, 8, 8)[j], h, m, b);
      CrossedByte(s, j, h, b, m);
      BitAcross(s, 64 * h + 8 * j + m, b);
    }
    ByteIs(w, 8 * h + m, x);
  }

  /** The byte handed to packet `16 * j + i` is the one in its lane. */
  lemma HandedOut(s: seq<Word>, j: nat, i: nat)
    requires |s| == 8 && Halving(8, 8, 8) && j < 8 && i < 16
    ensures ByteOf(Shuffle(Crossed(s, 8, 8)[j]), ByteOrder(i)) == ByteAcross(s, StreamLane(16 * j + i))
  {
    hide Crossed, Halving, Shuffle, ByteOf, ByteAcross, ByteOrder;
    ByteOrderIs(i);
    assert StreamLane(16 * j + i) == 64 * (i % 2) + 8 * j + i / 2;
    HandedOutAt(s, j, i % 2, i / 2);
  }

  /** One more byte of the stream mixed into a packet, if it reaches so far. */
  function WithByte(x: seq<Byte>, h: nat, b: Byte): seq<Byte> {
    if h < |x| then x[h := x[h] ^ b] else x
  }

  /** dvbcsa_bs_stream_transpose_out. */
  method StreamOut(slots: array<seq<Byte>>, index: nat, row: array<Word>)
    requires slots.Length <= BITS && row.Length == 8 && slots as object != row
    modifies slots, row
    ensures forall k :: 0 <= k < slots.Length ==>
      slots[k] == WithByte(old(slots[k]), index, ByteAcross(old(row[..]), StreamLane(k)))
  {
    hide Crossed, Halving, Shuffle, ByteOf, ByteAcross, WithByte, ByteOrder, StreamLane;
    ghost var s := row[..];
    CrossOut(row);
    for j := 0 to 8
      invariant row[..] == Crossed(s, 8, 8)
      invariant forall k :: 0 <= k < slots.Length ==>
        slots[k] == if k < 16 * j then WithByte(old(slots[k]), index, ByteAcross(s, StreamLane(k))) else old(slots[k])
    {
      var t := Shuffle(row[j]);
      for i := 0 to 16
        invariant row[..] == Crossed(s, 8, 8)
        invariant forall k :: 0 <= k < slots.Length ==>
          slots[k] == if k < 16 * j + i then WithByte(old(slots[k]), index, ByteAcross(s, StreamLane(k)))
                      else old(slots[k])
      {
        var k := 16 * j + i;
        if k >= slots.Length {
          return;
        }
        HandedOut(s, j, i);
        MixByte(slots, k, index, ByteOf(t, ByteOrder(i)));
      }
    }
  }

  method MixByte(slots: array<seq<Byte>>, k: nat, index: nat, b: Byte)
    requires k < slots.Length
    modifies slots
    ensures forall j :: 0 <= j < slots.Length ==>
      slots[j] == if j == k then WithByte(old(slots[j]), index, b) else old(slots[j])
  {
    if index < |slots[k]| {
      slots[k] := slots[k][index := slots[k][index] ^ b];
    }
  }

  /** What the one brings into the rows the other hands out: eight rows give back their byte of every packet. */
  lemma BlocksComeBack(x: seq<Byte>, rows: seq<Word>, n: nat, i: nat)
    requires |rows| == 64 && n < BITS && i < 8 && |x| >= 8 && InLane(x, rows, n)
    ensures ByteAcross(rows[8 * i..8 * i + 8], n) == x[i]
  {
    hide BitOf, OfBits;
    forall b | 0 <= b < 8
      ensures rows[8 * i..8 * i + 8][b][n] == BitOf(x[i], b)
    {
      BitNumber(i, b);
    }
    BitsOfByte(x[i]);
  }
}
