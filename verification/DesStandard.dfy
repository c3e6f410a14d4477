/** DES enciphers a published test vector to what the standard says. The cipher is read off by digits: rows of
    nibbles for the halves of block and key, rows of six bits for the subkeys, and the permutations as sums of
    single bits of those. That this reading is the cipher of module Des is proved for all blocks and keys; the
    sixteen rounds of the vector are then one equation each. */
module DesStandard {
  import opened Bytes
  import opened Des
  import opened DesBoxes
  import opened DesTables
  import opened TripleDes

  /* ---- bits by nibbles and by sixes ---- */

  function NibbleMask(j: nat): Byte { if j == 0 then 8 else if j == 1 then 4 else if j == 2 then 2 else 1 }

  function SixMask(j: nat): Byte {
    if j == 0 then 32 else if j == 1 then 16 else if j == 2 then 8 else if j == 3 then 4 else if j == 4 then 2 else 1
  }

  /** The bits of a row of hexadecimal digits. */
  function Hex(n: seq<Byte>): (s: seq<bool>)
    ensures |s| == 4 * |n|
  {
    seq(4 * |n|, i requires 0 <= i < 4 * |n| => n[i / 4] & NibbleMask(i % 4) != 0)
  }

  /** The bits of a subkey, six to a box. */
  function Sixes(k: seq<Byte>): (s: seq<bool>)
    requires |k| == 8
    ensures |s| == 48
  {
    seq(48, i requires 0 <= i < 48 => k[i / 6] & SixMask(i % 6) != 0)
  }

  lemma HexAt(n: seq<Byte>, b: nat, j: nat)
    requires b < |n| && j < 4
    ensures Hex(n)[4 * b + j] == (n[b] & NibbleMask(j) != 0)
  {
    hide NibbleMask;
    assert (4 * b + j) / 4 == b && (4 * b + j) % 4 == j;
  }

  lemma SixesAt(k: seq<Byte>, b: nat, j: nat)
    requires |k| == 8 && b < 8 && j < 6
    ensures Sixes(k)[6 * b + j] == (k[b] & SixMask(j) != 0)
  {
    hide SixMask;
    assert (6 * b + j) / 6 == b && (6 * b + j) % 6 == j;
  }

  /** The bit at place `j` of digit `b`. */
  predicate Has(n: seq<Byte>, b: nat, j: nat)
    requires b < |n|
  {
    n[b] & NibbleMask(j) != 0
  }

  lemma HexHas(n: seq<Byte>, b: nat, j: nat)
    requires b < |n| && j < 4
    ensures Hex(n)[4 * b + j] == Has(n, b, j)
  {
    hide NibbleMask, Hex;
    HexAt(n, b, j);
  }

  /** Bit by bit, a sequence is what a row of digits says. */
  predicate Digits(s: seq<bool>, n: seq<Byte>)
    requires |s| == 4 * |n|
  {
    forall b, j :: 0 <= b < |n| && 0 <= j < 4 ==> s[4 * b + j] == Has(n, b, j)
  }

  lemma DigitsAreHex(s: seq<bool>, n: seq<Byte>)
    requires |s| == 4 * |n| && Digits(s, n)
    ensures s == Hex(n)
  {
    hide Has, Hex;
    forall i | 0 <= i < |s|
      ensures s[i] == Hex(n)[i]
    {
      HexHas(n, i / 4, i % 4);
      assert s[4 * (i / 4) + i % 4] == Has(n, i / 4, i % 4);
    }
  }

  /* ---- the cipher function ---- */

  /** What goes into a box: a nibble between the last bit of the one before and the first of the one behind. */
  function Inside(n: seq<Byte>, k: seq<Byte>, b: nat): Byte
    requires |n| == |k| == 8 && b < 8
  {
    (((n[(b + 7) % 8] & 1) << 5) | (n[b] << 1) | (n[(b + 1) % 8] >> 3)) ^ k[b]
  }

  lemma SixBits(before: Byte, n: Byte, behind: Byte, k: Byte, j: nat)
    requires before < 16 && n < 16 && behind < 16 && j < 6
    ensures var x := (((before & 1) << 5) | (n << 1) | (behind >> 3)) ^ k;
            (x & SixMask(j) != 0) ==
            ((if j == 0 then before & 1 != 0 else if j == 5 then behind & 8 != 0 else n & NibbleMask(j - 1) != 0)
              != (k & SixMask(j) != 0))
  {
    if j == 0 {
    } else if j == 1 {
    } else if j == 2 {
    } else if j == 3 {
    } else if j == 4 {
    } else {
    }
  }

  predicate Nibbles(n: seq<Byte>) { forall i :: 0 <= i < |n| ==> n[i] < 16 }

  lemma ExpansionIs(b: nat, j: nat)
    requires b < 8 && j < 6
    ensures Expansion(6 * b + j) == (4 * b + j + 31) % 32 + 1
  {
    if b == 0 {
    } else if b == 1 {
    } else if b == 2 {
    } else if b == 3 {
    } else if b == 4 {
    } else if b == 5 {
    } else if b == 6 {
    } else {
    }
  }

  /** The bit of a half that comes to place `j` of box `b`. */
  predicate Expanded(n: seq<Byte>, b: nat, j: nat)
    requires |n| == 8 && b < 8 && j < 6
  {
    if j == 0 then n[(b + 7) % 8] & 1 != 0 else if j == 5 then n[(b + 1) % 8] & 8 != 0
    else n[b] & NibbleMask(j - 1) != 0
  }

  lemma ExpandedAt(n: seq<Byte>, b: nat, j: nat)
    requires |n| == 8 && b < 8 && j < 6
    ensures Select(Hex(n), E)[6 * b + j] == Expanded(n, b, j)
  {
    hide Hex, Expansion;
    ExpansionIs(b, j);
    if j == 0 {
      HexAt(n, (b + 7) % 8, 3);
      assert (4 * b + j + 31) % 32 == 4 * ((b + 7) % 8) + 3;
    } else if j == 5 {
      HexAt(n, (b + 1) % 8, 0);
      assert (4 * b + j + 31) % 32 == 4 * ((b + 1) % 8);
    } else {
      HexAt(n, b, j - 1);
      assert (4 * b + j + 31) % 32 == 4 * b + (j - 1);
    }
  }

  predicate HasSix(k: seq<Byte>, b: nat, j: nat)
    requires b < |k|
  {
    k[b] & SixMask(j) != 0
  }

  lemma InsideBit(n: seq<Byte>, k: seq<Byte>, b: nat, j: nat)
    requires |n| == |k| == 8 && Nibbles(n) && b < 8 && j < 6
    ensures (Inside(n, k, b) & SixMask(j) != 0) == (Expanded(n, b, j) != HasSix(k, b, j))
  {
    hide NibbleMask, SixMask;
    SixBits(n[(b + 7) % 8], n[b], n[(b + 1) % 8], k[b], j);
  }

  lemma InsideAt(n: seq<Byte>, k: seq<Byte>, b: nat, j: nat)
    requires |n| == |k| == 8 && Nibbles(n) && b < 8 && j < 6
    ensures XorBits(Select(Hex(n), E), Sixes(k))[6 * b + j] == (Inside(n, k, b) & SixMask(j) != 0)
  {
    hide Hex, Sixes, SixMask, Select, Inside, Expanded, HasSix, Nibbles;
    ExpandedAt(n, b, j);
    SixesHave(k, b, j);
    InsideBit(n, k, b, j);
  }

  lemma SixesHave(k: seq<Byte>, b: nat, j: nat)
    requires |k| == 8 && b < 8 && j < 6
    ensures Sixes(k)[6 * b + j] == HasSix(k, b, j)
  {
    hide SixMask, Sixes;
    SixesAt(k, b, j);
  }

  /** What a box puts out for six bits. */
  function Outside(box: nat, x: Byte): Byte
    requires box < 8
  {
    At(RowWord(box, if x & 32 != 0 then (if x & 1 != 0 then 3 else 2) else if x & 1 != 0 then 1 else 0),
       x & 16 != 0, x & 8 != 0, x & 4 != 0, x & 2 != 0) as Byte
  }

  function Outsides(n: seq<Byte>, k: seq<Byte>): (s: seq<Byte>)
    requires |n| == |k| == 8
    ensures |s| == 8
  {
    seq(8, b requires 0 <= b < 8 => Outside(b, Inside(n, k, b)))
  }

  lemma AddressIs(x: seq<bool>, box: nat, v: Byte)
    requires |x| == 48 && box < 8
    requires x[6 * box] == (v & 32 != 0) && x[6 * box + 1] == (v & 16 != 0) && x[6 * box + 2] == (v & 8 != 0)
    requires x[6 * box + 3] == (v & 4 != 0) && x[6 * box + 4] == (v & 2 != 0) && x[6 * box + 5] == (v & 1 != 0)
    ensures SBoxRow(x, box) == if v & 32 != 0 then (if v & 1 != 0 then 3 else 2) else if v & 1 != 0 then 1 else 0
    ensures SBoxColumn(x, box) == Column(v & 16 != 0, v & 8 != 0, v & 4 != 0, v & 2 != 0)
  {
  }

  lemma SubstituteBit(x: seq<bool>, box: nat, j: nat)
    requires |x| == 48 && box < 8 && j < 4
    ensures Substitute(x)[4 * box + j] == NibbleBit(SBox(box, SBoxRow(x, box), SBoxColumn(x, box)), j)
  {
    hide SBox, NibbleBit, SBoxRow, SBoxColumn;
    assert (4 * box + j) / 4 == box && (4 * box + j) % 4 == j;
  }

  lemma OutsideBit(box: nat, v: Byte, row: nat, j: nat)
    requires box < 8 && j < 4
    requires row == if v & 32 != 0 then (if v & 1 != 0 then 3 else 2) else if v & 1 != 0 then 1 else 0
    ensures NibbleBit(SBox(box, row, Column(v & 16 != 0, v & 8 != 0, v & 4 != 0, v & 2 != 0)), j) ==
            (Outside(box, v) & NibbleMask(j) != 0)
  {
    hide SBox, At, RowIs, RowWord, Value, NibbleBit, Column, NibbleMask;
    var b, c, d, e := v & 16 != 0, v & 8 != 0, v & 4 != 0, v & 2 != 0;
    var x := At(RowWord(box, row), b, c, d, e);
    RowsAre(box, row);
    RowAt(box, row, RowWord(box, row), b, c, d, e);
    AtIsNibble(RowWord(box, row), b, c, d, e);
    BitsOfValue(x);
    NarrowBits(x, j);
  }

  lemma SubstituteAt(x: seq<bool>, box: nat, v: Byte, j: nat)
    requires |x| == 48 && box < 8 && j < 4
    requires x[6 * box] == (v & 32 != 0) && x[6 * box + 1] == (v & 16 != 0) && x[6 * box + 2] == (v & 8 != 0)
    requires x[6 * box + 3] == (v & 4 != 0) && x[6 * box + 4] == (v & 2 != 0) && x[6 * box + 5] == (v & 1 != 0)
    ensures Substitute(x)[4 * box + j] == (Outside(box, v) & NibbleMask(j) != 0)
  {
    hide SBox, NibbleBit, SBoxRow, SBoxColumn, Column, NibbleMask, Outside, Substitute;
    SubstituteBit(x, box, j);
    AddressIs(x, box, v);
    OutsideBit(box, v, SBoxRow(x, box), j);
  }

  lemma NarrowBits(x: Line, j: nat)
    requires x < 16 && j < 4
    ensures (x as Byte & NibbleMask(j) != 0) ==
            (if j == 0 then x & 8 != 0 else if j == 1 then x & 4 != 0 else if j == 2 then x & 2 != 0 else x & 1 != 0)
  {
  }

  lemma SubstituteIn(n: seq<Byte>, k: seq<Byte>, b: nat, j: nat)
    requires |n| == |k| == 8 && Nibbles(n) && b < 8 && j < 4
    ensures Substitute(XorBits(Select(Hex(n), E), Sixes(k)))[4 * b + j] ==
            (Outside(b, Inside(n, k, b)) & NibbleMask(j) != 0)
  {
    hide Hex, Sixes, Inside, Outside, Select, Substitute, XorBits, NibbleMask;
    var x := XorBits(Select(Hex(n), E), Sixes(k));
    InsideAt(n, k, b, 0);
    InsideAt(n, k, b, 1);
    InsideAt(n, k, b, 2);
    InsideAt(n, k, b, 3);
    InsideAt(n, k, b, 4);
    InsideAt(n, k, b, 5);
    SubstituteAt(x, b, Inside(n, k, b), j);
  }

  lemma SubstituteHas(n: seq<Byte>, k: seq<Byte>, b: nat, j: nat)
    requires |n| == |k| == 8 && Nibbles(n) && b < 8 && j < 4
    ensures Substitute(XorBits(Select(Hex(n), E), Sixes(k)))[4 * b + j] == Has(Outsides(n, k), b, j)
  {
    hide Hex, Sixes, Inside, Outside, Select, Substitute, XorBits, NibbleMask, Nibbles;
    SubstituteIn(n, k, b, j);
  }

  lemma SubstituteIs(n: seq<Byte>, k: seq<Byte>)
    requires |n| == |k| == 8 && Nibbles(n)
    ensures Substitute(XorBits(Select(Hex(n), E), Sixes(k))) == Hex(Outsides(n, k))
  {
    hide Hex, Sixes, Outsides, Select, Substitute, XorBits, Has, Nibbles;
    var s := Substitute(XorBits(Select(Hex(n), E), Sixes(k)));
    forall b, j | 0 <= b < 8 && 0 <= j < 4
      ensures s[4 * b + j] == Has(Outsides(n, k), b, j)
    {
      SubstituteHas(n, k, b, j);
    }
    DigitsAreHex(s, Outsides(n, k));
  }

  /* ---- the round permutation ---- */

  /** A nibble from four bits of others. */
  function From(a: Byte, i: Byte, b: Byte, j: Byte, c: Byte, k: Byte, d: Byte, l: Byte): Byte {
    (if a & i != 0 then 8 else 0) | (if b & j != 0 then 4 else 0) | (if c & k != 0 then 2 else 0) |
    (if d & l != 0 then 1 else 0)
  }

  lemma FromBits(a: Byte, i: Byte, b: Byte, j: Byte, c: Byte, k: Byte, d: Byte, l: Byte)
    ensures var x := From(a, i, b, j, c, k, d, l);
            x < 16 && (x & 8 != 0) == (a & i != 0) && (x & 4 != 0) == (b & j != 0) && (x & 2 != 0) == (c & k != 0) &&
            (x & 1 != 0) == (d & l != 0)
  {
  }

  lemma SelectedAt(s: seq<Byte>, t: Table, i: nat, b: nat, j: nat)
    requires 4 * |s| == t.Source() && i < t.Size() && b < |s| && j < 4 && t.At(i) == 4 * b + j + 1
    ensures Select(Hex(s), t)[i] == (s[b] & NibbleMask(j) != 0)
  {
    hide Hex, NibbleMask, Table.At;
    HexAt(s, b, j);
  }

  function Permuted(s: seq<Byte>): (t: seq<Byte>)
    requires |s| == 8
    ensures |t| == 8
  {
    [From(s[3], 1, s[1], 2, s[4], 1, s[5], 8),
     From(s[7], 8, s[2], 1, s[6], 1, s[4], 8),
     From(s[0], 8, s[3], 2, s[5], 2, s[6], 4),
     From(s[1], 8, s[4], 4, s[7], 2, s[2], 4),
     From(s[0], 4, s[1], 1, s[5], 1, s[3], 4),
     From(s[7], 1, s[6], 2, s[0], 2, s[2], 8),
     From(s[4], 2, s[3], 8, s[7], 4, s[1], 4),
     From(s[5], 4, s[2], 2, s[0], 1, s[6], 8)]
  }

  lemma Permuted0(s: seq<Byte>, i: nat, j: nat)
    requires |s| == 8 && i == 0 && j < 4
    ensures Select(Hex(s), P)[4 * i + j] == (Permuted(s)[i] & NibbleMask(j) != 0)
  {
    hide Hex, Select, From;
    FromBits(s[3], 1, s[1], 2, s[4], 1, s[5], 8);
    SelectedAt(s, P, 0, 3, 3);
    SelectedAt(s, P, 1, 1, 2);
    SelectedAt(s, P, 2, 4, 3);
    SelectedAt(s, P, 3, 5, 0);
  }

  lemma Permuted1(s: seq<Byte>, i: nat, j: nat)
    requires |s| == 8 && i == 1 && j < 4
    ensures Select(Hex(s), P)[4 * i + j] == (Permuted(s)[i] & NibbleMask(j) != 0)
  {
    hide Hex, Select, From;
    FromBits(s[7], 8, s[2], 1, s[6], 1, s[4], 8);
    SelectedAt(s, P, 4, 7, 0);
    SelectedAt(s, P, 5, 2, 3);
    SelectedAt(s, P, 6, 6, 3);
    SelectedAt(s, P, 7, 4, 0);
  }

  lemma Permuted2(s: seq<Byte>, i: nat, j: nat)
    requires |s| == 8 && i == 2 && j < 4
    ensures Select(Hex(s), P)[4 * i + j] == (Permuted(s)[i] & NibbleMask(j) != 0)
  {
    hide Hex, Select, From;
    FromBits(s[0], 8, s[3], 2, s[5], 2, s[6], 4);
    SelectedAt(s, P, 8, 0, 0);
    SelectedAt(s, P, 9, 3, 2);
    SelectedAt(s, P, 10, 5, 2);
    SelectedAt(s, P, 11, 6, 1);
  }

  lemma Permuted3(s: seq<Byte>, i: nat, j: nat)
    requires |s| == 8 && i == 3 && j < 4
    ensures Select(Hex(s), P)[4 * i + j] == (Permuted(s)[i] & NibbleMask(j) != 0)
  {
    hide Hex, Select, From;
    FromBits(s[1], 8, s[4], 4, s[7], 2, s[2], 4);
    SelectedAt(s, P, 12, 1, 0);
    SelectedAt(s, P, 13, 4, 1);
    SelectedAt(s, P, 14, 7, 2);
    SelectedAt(s, P, 15, 2, 1);
  }

  lemma Permuted4(s: seq<Byte>, i: nat, j: nat)
    requires |s| == 8 && i == 4 && j < 4
    ensures Select(Hex(s), P)[4 * i + j] == (Permuted(s)[i] & NibbleMask(j) != 0)
  {
    hide Hex, Select, From;
    FromBits(s[0], 4, s[1], 1, s[5], 1, s[3], 4);
    SelectedAt(s, P, 16, 0, 1);
    SelectedAt(s, P, 17, 1, 3);
    SelectedAt(s, P, 18, 5, 3);
    SelectedAt(s, P, 19, 3, 1);
  }

  lemma Permuted5(s: seq<Byte>, i: nat, j: nat)
    requires |s| == 8 && i == 5 && j < 4
    ensures Select(Hex(s), P)[4 * i + j] == (Permuted(s)[i] & NibbleMask(j) != 0)
  {
    hide Hex, Select, From;
    FromBits(s[7], 1, s[6], 2, s[0], 2, s[2], 8);
    SelectedAt(s, P, 20, 7, 3);
    SelectedAt(s, P, 21, 6, 2);
    SelectedAt(s, P, 22, 0, 2);
    SelectedAt(s, P, 23, 2, 0);
  }

  lemma Permuted6(s: seq<Byte>, i: nat, j: nat)
    requires |s| == 8 && i == 6 && j < 4
    ensures Select(Hex(s), P)[4 * i + j] == (Permuted(s)[i] & NibbleMask(j) != 0)
  {
    hide Hex, Select, From;
    FromBits(s[4], 2, s[3], 8, s[7], 4, s[1], 4);
    SelectedAt(s, P, 24, 4, 2);
    SelectedAt(s, P, 25, 3, 0);
    SelectedAt(s, P, 26, 7, 1);
    SelectedAt(s, P, 27, 1, 1);
  }

  lemma Permuted7(s: seq<Byte>, i: nat, j: nat)
    requires |s| == 8 && i == 7 && j < 4
    ensures Select(Hex(s), P)[4 * i + j] == (Permuted(s)[i] & NibbleMask(j) != 0)
  {
    hide Hex, Select, From;
    FromBits(s[5], 4, s[2], 2, s[0], 1, s[6], 8);
    SelectedAt(s, P, 28, 5, 1);
    SelectedAt(s, P, 29, 2, 2);
    SelectedAt(s, P, 30, 0, 3);
    SelectedAt(s, P, 31, 6, 0);
  }

  lemma PermutedAt(s: seq<Byte>, i: nat, j: nat)
    requires |s| == 8 && i < 8 && j < 4
    ensures Select(Hex(s), P)[4 * i + j] == (Permuted(s)[i] & NibbleMask(j) != 0)
  {
    hide Hex, Select, From, Permuted, NibbleMask;
    if i == 0 {
      Permuted0(s, i, j);
    } else if i == 1 {
      Permuted1(s, i, j);
    } else if i == 2 {
      Permuted2(s, i, j);
    } else if i == 3 {
      Permuted3(s, i, j);
    } else if i == 4 {
      Permuted4(s, i, j);
    } else if i == 5 {
      Permuted5(s, i, j);
    } else if i == 6 {
      Permuted6(s, i, j);
    } else {
      Permuted7(s, i, j);
    }
  }

  lemma PermutedIs(s: seq<Byte>)
    requires |s| == 8
    ensures Select(Hex(s), P) == Hex(Permuted(s))
  {
    hide Hex, Select, Permuted, NibbleMask;
    forall b, j | 0 <= b < 8 && 0 <= j < 4
      ensures Select(Hex(s), P)[4 * b + j] == Has(Permuted(s), b, j)
    {
      PermutedAt(s, b, j);
    }
    DigitsAreHex(Select(Hex(s), P), Permuted(s));
  }

  /** The cipher function f(R, K), read off by digits. */
  lemma CipherFunctionIs(n: seq<Byte>, k: seq<Byte>)
    requires |n| == |k| == 8 && Nibbles(n)
    ensures F(Hex(n), Sixes(k)) == Hex(Permuted(Outsides(n, k)))
  {
    hide Hex, Sixes, Outsides, Permuted, Select, Substitute, XorBits, Nibbles;
    SubstituteIs(n, k);
    PermutedIs(Outsides(n, k));
  }

  /* ---- the permutations of bytes: one bit of four bytes, from the last to the first ---- */

  function Collected(b: seq<Byte>, place: nat, first: nat): Byte
    requires |b| == 8 && place < 8 && 3 <= first < 8
  {
    From(b[first], Mask(place), b[first - 1], Mask(place), b[first - 2], Mask(place), b[first - 3], Mask(place))
  }

  lemma BitTaken(b: seq<Byte>, t: Table, i: nat, k: nat, place: nat)
    requires |b| == 8 && t.Source() == 64 && i < t.Size() && k < 8 && place < 8 && t.At(i) == 8 * k + place + 1
    ensures Select(Bits(b), t)[i] == (b[k] & Mask(place) != 0)
  {
    hide Mask, Table.At, Bits;
    assert (8 * k + place) / 8 == k && (8 * k + place) % 8 == place;
    assert BitAt(b, 8 * k + place) == Bits(b)[8 * k + place];
  }

  lemma FromBit(a: Byte, i: Byte, b: Byte, j: Byte, c: Byte, k: Byte, d: Byte, l: Byte, at: nat)
    requires at < 4
    ensures (From(a, i, b, j, c, k, d, l) & NibbleMask(at) != 0) ==
            (if at == 0 then a & i != 0 else if at == 1 then b & j != 0 else if at == 2 then c & k != 0 else d & l != 0)
  {
    FromBits(a, i, b, j, c, k, d, l);
  }

  lemma CollectedBits(b: seq<Byte>, place: nat, first: nat, j: nat)
    requires |b| == 8 && place < 8 && 3 <= first < 8 && j < 4
    ensures (Collected(b, place, first) & NibbleMask(j) != 0) == (b[first - j] & Mask(place) != 0)
  {
    hide Mask, From, NibbleMask;
    FromBit(b[first], Mask(place), b[first - 1], Mask(place), b[first - 2], Mask(place), b[first - 3], Mask(place), j);
  }

  lemma CollectedAt(b: seq<Byte>, t: Table, i: nat, j: nat, place: nat, first: nat)
    requires |b| == 8 && t.Source() == 64 && 4 * i + 3 < t.Size() && j < 4 && place < 8 && 3 <= first < 8
    requires t.At(4 * i + j) == 8 * (first - j) + place + 1
    ensures Select(Bits(b), t)[4 * i + j] == (Collected(b, place, first) & NibbleMask(j) != 0)
  {
    hide Mask, Table.At, Bits, Collected, Select, NibbleMask;
    BitTaken(b, t, 4 * i + j, first - j, place);
    CollectedBits(b, place, first, j);
  }

  function InitialPlace(i: nat): nat { if i < 8 then i / 2 * 2 + 1 else (i / 2 - 4) * 2 }

  function First(i: nat): nat { if i % 2 == 0 then 7 else 3 }

  function Initial(b: seq<Byte>): (n: seq<Byte>)
    requires |b| == 8
    ensures |n| == 16
  {
    seq(16, i requires 0 <= i < 16 => Collected(b, InitialPlace(i), First(i)))
  }

  lemma InitialPermutationIs(i: nat, j: nat)
    requires i < 16 && j < 4
    ensures InitialPermutation(4 * i + j) == 8 * (First(i) - j) + InitialPlace(i) + 1
  {
    if j == 0 {
    } else if j == 1 {
    } else if j == 2 {
    } else {
    }
  }

  lemma InitialIs(b: seq<Byte>)
    requires |b| == 8
    ensures Select(Bits(b), IP) == Hex(Initial(b))
  {
    hide Bits, Select, Collected, NibbleMask, InitialPermutation, InitialPlace, First;
    forall i | 0 <= i < 64
      ensures Select(Bits(b), IP)[i] == Hex(Initial(b))[i]
    {
      InitialPermutationIs(i / 4, i % 4);
      PlacesFit(i / 4);
      CollectedAt(b, IP, i / 4, i % 4, InitialPlace(i / 4), First(i / 4));
    }
  }

  lemma PlacesFit(i: nat)
    requires i < 16
    ensures InitialPlace(i) < 8 && 3 <= First(i) < 8
  {
  }

  function KeyPlace(i: nat): nat {
    if i < 7 then i / 2 else if i < 13 then 6 - (i - 7) / 2 else 3
  }

  function KeyFirst(i: nat): nat {
    if i < 7 then First(i) else if i < 13 then First(i - 7) else 3
  }

  function KeyHalves(b: seq<Byte>): (n: seq<Byte>)
    requires |b| == 8
    ensures |n| == 14
  {
    seq(14, i requires 0 <= i < 14 => Collected(b, KeyPlace(i), KeyFirst(i)))
  }

  lemma KeyChoice1Is(i: nat, j: nat)
    requires i < 14 && j < 4
    ensures KeyChoice1(4 * i + j) == 8 * (KeyFirst(i) - j) + KeyPlace(i) + 1
  {
    if j == 0 {
    } else if j == 1 {
    } else if j == 2 {
    } else {
    }
  }

  lemma KeyHalvesAre(b: seq<Byte>)
    requires |b| == 8
    ensures Select(Bits(b), PC1) == Hex(KeyHalves(b))
  {
    hide Bits, Select, Collected, NibbleMask, KeyChoice1, KeyPlace, KeyFirst;
    forall i | 0 <= i < 56
      ensures Select(Bits(b), PC1)[i] == Hex(KeyHalves(b))[i]
    {
      KeyChoice1Is(i / 4, i % 4);
      KeyPlacesFit(i / 4);
      CollectedAt(b, PC1, i / 4, i % 4, KeyPlace(i / 4), KeyFirst(i / 4));
    }
  }

  lemma KeyPlacesFit(i: nat)
    requires i < 14
    ensures KeyPlace(i) < 8 && 3 <= KeyFirst(i) < 8
  {
  }

  /* ---- the key schedule ---- */

  function TurnedNibble(x: Byte, y: Byte): Byte { ((x << 1) & 15) | (y >> 3) }

  /** Seven nibbles turned left by one bit. */
  function Turn(c: seq<Byte>): (r: seq<Byte>)
    requires |c| == 7
    ensures |r| == 7
  {
    [TurnedNibble(c[0], c[1]), TurnedNibble(c[1], c[2]), TurnedNibble(c[2], c[3]), TurnedNibble(c[3], c[4]),
     TurnedNibble(c[4], c[5]), TurnedNibble(c[5], c[6]), TurnedNibble(c[6], c[0])]
  }

  function Turned(c: seq<Byte>, n: nat): (r: seq<Byte>)
    requires |c| == 7
    ensures |r| == 7
    decreases n
  {
    if n == 0 then c else Turn(Turned(c, n - 1))
  }

  lemma TurnBits(x: Byte, y: Byte, j: nat)
    requires x < 16 && y < 16 && j < 4
    ensures var v := TurnedNibble(x, y);
            v < 16 && (v & NibbleMask(j) != 0) == (if j == 3 then y & 8 != 0 else x & NibbleMask(j + 1) != 0)
  {
    if j == 0 {
    } else if j == 1 {
    } else if j == 2 {
    } else {
    }
  }

  lemma TurnDigit(c: seq<Byte>, b: nat)
    requires |c| == 7 && b < 7
    ensures Turn(c)[b] == TurnedNibble(c[b], c[(b + 1) % 7])
  {
    hide TurnedNibble;
    if b == 0 {
    } else if b == 1 {
    } else if b == 2 {
    } else if b == 3 {
    } else if b == 4 {
    } else if b == 5 {
    } else {
    }
  }

  lemma TurnKeepsNibbles(c: seq<Byte>)
    requires |c| == 7 && Nibbles(c)
    ensures Nibbles(Turn(c))
  {
    hide NibbleMask, TurnedNibble, Turn;
    forall i | 0 <= i < 7
      ensures Turn(c)[i] < 16
    {
      TurnDigit(c, i);
      TurnBits(c[i], c[(i + 1) % 7], 0);
    }
  }

  lemma TurnIs(c: seq<Byte>)
    requires |c| == 7 && Nibbles(c)
    ensures RotateLeft(Hex(c), 1) == Hex(Turn(c))
  {
    hide NibbleMask, TurnedNibble, RotateLeft, Nibbles, Hex, Turn;
    forall b, j | 0 <= b < 7 && 0 <= j < 4
      ensures RotateLeft(Hex(c), 1)[4 * b + j] == Has(Turn(c), b, j)
    {
      TurnDigit(c, b);
      TurnAt(c, b, j);
    }
    DigitsAreHex(RotateLeft(Hex(c), 1), Turn(c));
  }

  lemma TurnAt(c: seq<Byte>, b: nat, j: nat)
    requires |c| == 7 && Nibbles(c) && b < 7 && j < 4
    ensures RotateLeft(Hex(c), 1)[4 * b + j] == (TurnedNibble(c[b], c[(b + 1) % 7]) & NibbleMask(j) != 0)
  {
    hide Hex, NibbleMask, TurnedNibble;
    TurnBits(c[b], c[(b + 1) % 7], j);
    RotatedAt(Hex(c), 4 * b + j);
    if j < 3 {
      HexAt(c, b, j + 1);
    } else {
      HexStart(c, (b + 1) % 7);
      assert (4 * b + j + 1) % 28 == 4 * ((b + 1) % 7);
    }
  }

  lemma RotatedAt(h: seq<bool>, i: nat)
    requires |h| == 28 && i < 28
    ensures RotateLeft(h, 1)[i] == h[(i + 1) % 28]
  {
  }

  lemma HexStart(n: seq<Byte>, b: nat)
    requires b < |n|
    ensures Hex(n)[4 * b] == (n[b] & 8 != 0)
  {
  }

  lemma {:induction false} TurnedIs(c: seq<Byte>, n: nat)
    requires |c| == 7 && Nibbles(c) && n <= 28
    ensures Nibbles(Turned(c, n)) && RotateLeft(Hex(c), n) == Hex(Turned(c, n))
  {
    hide Hex, Turn, Nibbles;
    if n > 0 {
      TurnedIs(c, n - 1);
      TurnKeepsNibbles(Turned(c, n - 1));
      TurnIs(Turned(c, n - 1));
      RotateTwice(Hex(c), n - 1, 1);
    }
  }

  /** Six bits of a row of nibbles. */
  function SixFrom(a: Byte, i: Byte, b: Byte, j: Byte, c: Byte, k: Byte, d: Byte, l: Byte, e: Byte, m: Byte,
                   f: Byte, o: Byte): Byte
  {
    (if a & i != 0 then 32 else 0) | (if b & j != 0 then 16 else 0) | (if c & k != 0 then 8 else 0) |
    (if d & l != 0 then 4 else 0) | (if e & m != 0 then 2 else 0) | (if f & o != 0 then 1 else 0)
  }

  lemma SixFromBits(a: Byte, i: Byte, b: Byte, j: Byte, c: Byte, k: Byte, d: Byte, l: Byte, e: Byte, m: Byte,
                    f: Byte, o: Byte)
    ensures var x := SixFrom(a, i, b, j, c, k, d, l, e, m, f, o);
            (x & 32 != 0) == (a & i != 0) && (x & 16 != 0) == (b & j != 0) && (x & 8 != 0) == (c & k != 0) &&
            (x & 4 != 0) == (d & l != 0) && (x & 2 != 0) == (e & m != 0) && (x & 1 != 0) == (f & o != 0)
  {
  }

  function Chosen(n: seq<Byte>): (k: seq<Byte>)
    requires |n| == 14
    ensures |k| == 8
  {
    [SixFrom(n[3], 4, n[4], 8, n[2], 2, n[5], 1, n[0], 8, n[1], 8),
     SixFrom(n[0], 2, n[6], 1, n[3], 2, n[1], 4, n[5], 8, n[2], 4),
     SixFrom(n[5], 2, n[4], 2, n[2], 1, n[0], 1, n[6], 4, n[1], 1),
     SixFrom(n[3], 1, n[1], 2, n[6], 2, n[4], 1, n[3], 8, n[0], 4),
     SixFrom(n[10], 8, n[12], 1, n[7], 2, n[9], 8, n[11], 2, n[13], 2),
     SixFrom(n[7], 4, n[9], 1, n[12], 2, n[11], 8, n[8], 8, n[11], 1),
     SixFrom(n[10], 1, n[12], 8, n[9], 2, n[13], 1, n[8], 4, n[13], 8),
     SixFrom(n[11], 4, n[10], 4, n[12], 4, n[8], 1, n[7], 8, n[7], 1)]
  }

  lemma Chosen0(n: seq<Byte>, i: nat, j: nat)
    requires |n| == 14 && i == 0 && j < 6
    ensures Select(Hex(n), PC2)[6 * i + j] == (Chosen(n)[i] & SixMask(j) != 0)
  {
    hide Hex, Select, SixFrom;
    SixFromBits(n[3], 4, n[4], 8, n[2], 2, n[5], 1, n[0], 8, n[1], 8);
    SelectedAt(n, PC2, 0, 3, 1);
    SelectedAt(n, PC2, 1, 4, 0);
    SelectedAt(n, PC2, 2, 2, 2);
    SelectedAt(n, PC2, 3, 5, 3);
    SelectedAt(n, PC2, 4, 0, 0);
    SelectedAt(n, PC2, 5, 1, 0);
  }

  lemma Chosen1(n: seq<Byte>, i: nat, j: nat)
    requires |n| == 14 && i == 1 && j < 6
    ensures Select(Hex(n), PC2)[6 * i + j] == (Chosen(n)[i] & SixMask(j) != 0)
  {
    hide Hex, Select, SixFrom;
    SixFromBits(n[0], 2, n[6], 1, n[3], 2, n[1], 4, n[5], 8, n[2], 4);
    SelectedAt(n, PC2, 6, 0, 2);
    SelectedAt(n, PC2, 7, 6, 3);
    SelectedAt(n, PC2, 8, 3, 2);
    SelectedAt(n, PC2, 9, 1, 1);
    SelectedAt(n, PC2, 10, 5, 0);
    SelectedAt(n, PC2, 11, 2, 1);
  }

  lemma Chosen2(n: seq<Byte>, i: nat, j: nat)
    requires |n| == 14 && i == 2 && j < 6
    ensures Select(Hex(n), PC2)[6 * i + j] == (Chosen(n)[i] & SixMask(j) != 0)
  {
    hide Hex, Select, SixFrom;
    SixFromBits(n[5], 2, n[4], 2, n[2], 1, n[0], 1, n[6], 4, n[1], 1);
    SelectedAt(n, PC2, 12, 5, 2);
    SelectedAt(n, PC2, 13, 4, 2);
    SelectedAt(n, PC2, 14, 2, 3);
    SelectedAt(n, PC2, 15, 0, 3);
    SelectedAt(n, PC2, 16, 6, 1);
    SelectedAt(n, PC2, 17, 1, 3);
  }

  lemma Chosen3(n: seq<Byte>, i: nat, j: nat)
    requires |n| == 14 && i == 3 && j < 6
    ensures Select(Hex(n), PC2)[6 * i + j] == (Chosen(n)[i] & SixMask(j) != 0)
  {
    hide Hex, Select, SixFrom;
    SixFromBits(n[3], 1, n[1], 2, n[6], 2, n[4], 1, n[3], 8, n[0], 4);
    SelectedAt(n, PC2, 18, 3, 3);
    SelectedAt(n, PC2, 19, 1, 2);
    SelectedAt(n, PC2, 20, 6, 2);
    SelectedAt(n, PC2, 21, 4, 3);
    SelectedAt(n, PC2, 22, 3, 0);
    SelectedAt(n, PC2, 23, 0, 1);
  }

  lemma Chosen4(n: seq<Byte>, i: nat, j: nat)
    requires |n| == 14 && i == 4 && j < 6
    ensures Select(Hex(n), PC2)[6 * i + j] == (Chosen(n)[i] & SixMask(j) != 0)
  {
    hide Hex, Select, SixFrom;
    SixFromBits(n[10], 8, n[12], 1, n[7], 2, n[9], 8, n[11], 2, n[13], 2);
    SelectedAt(n, PC2, 24, 10, 0);
    SelectedAt(n, PC2, 25, 12, 3);
    SelectedAt(n, PC2, 26, 7, 2);
    SelectedAt(n, PC2, 27, 9, 0);
    SelectedAt(n, PC2, 28, 11, 2);
    SelectedAt(n, PC2, 29, 13, 2);
  }

  lemma Chosen5(n: seq<Byte>, i: nat, j: nat)
    requires |n| == 14 && i == 5 && j < 6
    ensures Select(Hex(n), PC2)[6 * i + j] == (Chosen(n)[i] & SixMask(j) != 0)
  {
    hide Hex, Select, SixFrom;
    SixFromBits(n[7], 4, n[9], 1, n[12], 2, n[11], 8, n[8], 8, n[11], 1);
    SelectedAt(n, PC2, 30, 7, 1);
    SelectedAt(n, PC2, 31, 9, 3);
    SelectedAt(n, PC2, 32, 12, 2);
    SelectedAt(n, PC2, 33, 11, 0);
    SelectedAt(n, PC2, 34, 8, 0);
    SelectedAt(n, PC2, 35, 11, 3);
  }

  lemma Chosen6(n: seq<Byte>, i: nat, j: nat)
    requires |n| == 14 && i == 6 && j < 6
    ensures Select(Hex(n), PC2)[6 * i + j] == (Chosen(n)[i] & SixMask(j) != 0)
  {
    hide Hex, Select, SixFrom;
    SixFromBits(n[10], 1, n[12], 8, n[9], 2, n[13], 1, n[8], 4, n[13], 8);
    SelectedAt(n, PC2, 36, 10, 3);
    SelectedAt(n, PC2, 37, 12, 0);
    SelectedAt(n, PC2, 38, 9, 2);
    SelectedAt(n, PC2, 39, 13, 3);
    SelectedAt(n, PC2, 40, 8, 1);
    SelectedAt(n, PC2, 41, 13, 0);
  }

  lemma Chosen7(n: seq<Byte>, i: nat, j: nat)
    requires |n| == 14 && i == 7 && j < 6
    ensures Select(Hex(n), PC2)[6 * i + j] == (Chosen(n)[i] & SixMask(j) != 0)
  {
    hide Hex, Select, SixFrom;
    SixFromBits(n[11], 4, n[10], 4, n[12], 4, n[8], 1, n[7], 8, n[7], 1);
    SelectedAt(n, PC2, 42, 11, 1);
    SelectedAt(n, PC2, 43, 10, 1);
    SelectedAt(n, PC2, 44, 12, 1);
    SelectedAt(n, PC2, 45, 8, 3);
    SelectedAt(n, PC2, 46, 7, 0);
    SelectedAt(n, PC2, 47, 7, 3);
  }

  lemma ChosenAt(n: seq<Byte>, i: nat, j: nat)
    requires |n| == 14 && i < 8 && j < 6
    ensures Select(Hex(n), PC2)[6 * i + j] == (Chosen(n)[i] & SixMask(j) != 0)
  {
    hide Hex, Select, SixFrom, Chosen, SixMask;
    if i == 0 {
      Chosen0(n, i, j);
    } else if i == 1 {
      Chosen1(n, i, j);
    } else if i == 2 {
      Chosen2(n, i, j);
    } else if i == 3 {
      Chosen3(n, i, j);
    } else if i == 4 {
      Chosen4(n, i, j);
    } else if i == 5 {
      Chosen5(n, i, j);
    } else if i == 6 {
      Chosen6(n, i, j);
    } else {
      Chosen7(n, i, j);
    }
  }

  lemma ChosenIs(n: seq<Byte>)
    requires |n| == 14
    ensures Select(Hex(n), PC2) == Sixes(Chosen(n))
  {
    hide Hex, Select, Chosen, SixMask;
    forall i | 0 <= i < 48
      ensures Select(Hex(n), PC2)[i] == Sixes(Chosen(n))[i]
    {
      ChosenAt(n, i / 6, i % 6);
    }
  }

  lemma HexOfConcat(c: seq<Byte>, d: seq<Byte>)
    ensures Hex(c) + Hex(d) == Hex(c + d)
  {
    hide NibbleMask;
  }

  /** A subkey in sixes, from the halves of the chosen key. */
  lemma SubkeyIs(key: seq<Byte>, round: nat, c: seq<Byte>, d: seq<Byte>)
    requires |key| == 8 && round < 16 && |c| == |d| == 7 && Nibbles(c) && Nibbles(d) && KeyHalves(key) == c + d
    ensures Subkey(Bits(key), round) ==
            Sixes(Chosen(Turned(c, ShiftsThrough(round)) + Turned(d, ShiftsThrough(round))))
  {
    hide Hex, Chosen, Turned, KeyHalves, Select, ShiftsThrough, Bits, Sixes, Nibbles;
    KeyHalvesAre(key);
    HexOfConcat(c, d);
    var n := ShiftsThrough(round);
    var chosen := Select(Bits(key), PC1);
    assert chosen[..28] == Hex(c) && chosen[28..] == Hex(d);
    TurnedIs(c, n);
    TurnedIs(d, n);
    HexOfConcat(Turned(c, n), Turned(d, n));
    ChosenIs(Turned(c, n) + Turned(d, n));
  }

  /* ---- the rounds ---- */

  function Eight(w: bv32): (n: seq<Byte>)
    ensures |n| == 8
  {
    [((w >> 28) & 15) as Byte, ((w >> 24) & 15) as Byte, ((w >> 20) & 15) as Byte, ((w >> 16) & 15) as Byte,
     ((w >> 12) & 15) as Byte, ((w >> 8) & 15) as Byte, ((w >> 4) & 15) as Byte, (w & 15) as Byte]
  }

  function Seven(w: bv32): (n: seq<Byte>)
    ensures |n| == 7
  {
    [((w >> 24) & 15) as Byte, ((w >> 20) & 15) as Byte, ((w >> 16) & 15) as Byte, ((w >> 12) & 15) as Byte,
     ((w >> 8) & 15) as Byte, ((w >> 4) & 15) as Byte, (w & 15) as Byte]
  }

  function Sextets(w: Line): (k: seq<Byte>)
    ensures |k| == 8
  {
    [((w >> 42) & 63) as Byte, ((w >> 36) & 63) as Byte, ((w >> 30) & 63) as Byte, ((w >> 24) & 63) as Byte,
     ((w >> 18) & 63) as Byte, ((w >> 12) & 63) as Byte, ((w >> 6) & 63) as Byte, (w & 63) as Byte]
  }

  lemma NibblesOfWords(w: bv32)
    ensures Nibbles(Eight(w)) && Nibbles(Seven(w))
  {
  }

  lemma HexOfXor(l: seq<Byte>, r: seq<Byte>)
    requires |l| == |r|
    ensures XorBits(Hex(l), Hex(r)) == Hex(XorBytes(l, r))
  {
    hide Has, Hex, XorBytes;
    forall b, j | 0 <= b < |l| && 0 <= j < 4
      ensures XorBits(Hex(l), Hex(r))[4 * b + j] == Has(XorBytes(l, r), b, j)
    {
      HexHas(l, b, j);
      HexHas(r, b, j);
      XorHas(l, r, b, j);
    }
    DigitsAreHex(XorBits(Hex(l), Hex(r)), XorBytes(l, r));
  }

  lemma XorHas(l: seq<Byte>, r: seq<Byte>, b: nat, j: nat)
    requires |l| == |r| && b < |l| && j < 4
    ensures Has(XorBytes(l, r), b, j) == (Has(l, b, j) != Has(r, b, j))
  {
    hide NibbleMask, XorBytes;
    XorMasked(l[b], r[b], j);
  }

  lemma XorMasked(x: Byte, y: Byte, j: nat)
    requires j < 4
    ensures ((x ^ y) & NibbleMask(j) != 0) == ((x & NibbleMask(j) != 0) != (y & NibbleMask(j) != 0))
  {
    if j == 0 {
    } else if j == 1 {
    } else if j == 2 {
    } else {
    }
  }

  /** The new right half of a round, in nibbles. */
  function Next(l: seq<Byte>, r: seq<Byte>, k: seq<Byte>): (n: seq<Byte>)
    requires |l| == |r| == |k| == 8
    ensures |n| == 8
  {
    XorBytes(l, Permuted(Outsides(r, k)))
  }

  const KEY: seq<Byte> := [0x01, 0x23, 0x45, 0x67, 0x89, 0xab, 0xcd, 0xef]

  /** From round `i` on, these halves lead to `end`. */
  ghost predicate Leads(i: nat, l: seq<Byte>, r: seq<Byte>, end: Halves)
    requires i <= 16 && |l| == |r| == 8
  {
    Rounds(Halves(Hex(l), Hex(r)), Subkeys(Bits(KEY))[i..]) == end
  }

  lemma RoundBefore(i: nat, l: seq<Byte>, r: seq<Byte>, k: seq<Byte>, next: seq<Byte>, end: Halves)
    requires i < 16 && |l| == |r| == |k| == |next| == 8 && Nibbles(r)
    requires Subkey(Bits(KEY), i) == Sixes(k) && next == Next(l, r, k) && Leads(i + 1, r, next, end)
    ensures Leads(i, l, r, end)
  {
    hide Hex, Sixes, F, Subkey, Permuted, Outsides, Bits, XorBits;
    var keys := Subkeys(Bits(KEY))[i..];
    assert keys[0] == Sixes(k) && keys[1..] == Subkeys(Bits(KEY))[i + 1..];
    CipherFunctionIs(r, k);
    HexOfXor(l, Permuted(Outsides(r, k)));
  }

  /** The halves of the key before round `i`, turned. */
  predicate KeyStands(i: nat, c: seq<Byte>, d: seq<Byte>)
    requires i < 16
  {
    && Turned(Seven(0xf0ccaa0), ShiftsThrough(i)) == c
    && Turned(Seven(0xaaccf00), ShiftsThrough(i)) == d
  }

  lemma OnceMore(c: seq<Byte>, n: nat)
    requires |c| == 7
    ensures Turned(c, n + 1) == Turn(Turned(c, n))
  {
  }

  lemma OutsidesOf(n: seq<Byte>, k: seq<Byte>)
    requires |n| == |k| == 8
    ensures Outsides(n, k) ==
            [Outside(0, Inside(n, k, 0)), Outside(1, Inside(n, k, 1)), Outside(2, Inside(n, k, 2)),
             Outside(3, Inside(n, k, 3)), Outside(4, Inside(n, k, 4)), Outside(5, Inside(n, k, 5)),
             Outside(6, Inside(n, k, 6)), Outside(7, Inside(n, k, 7))]
  {
    hide Outside, Inside;
  }

  lemma KeyStart()
    ensures KeyHalves(KEY) == Seven(0xf0ccaa0) + Seven(0xaaccf00)
  {
  }

  lemma SubkeyFrom(i: nat, c: seq<Byte>, d: seq<Byte>, k: seq<Byte>)
    requires i < 16 && |c| == |d| == 7 && |k| == 8 && KeyStands(i, c, d) && Chosen(c + d) == k
    ensures Subkey(Bits(KEY), i) == Sixes(k)
  {
    hide Turned, ShiftsThrough, Chosen, Sixes, Subkey, Bits, KeyHalves, Seven, Nibbles;
    KeyStart();
    NibblesOfWords(0xf0ccaa0);
    NibblesOfWords(0xaaccf00);
    SubkeyIs(KEY, i, Seven(0xf0ccaa0), Seven(0xaaccf00));
  }

  lemma KeyTurned(i: nat, c: seq<Byte>, d: seq<Byte>)
    requires i < 15 && |c| == |d| == 7 && KeyStands(i, c, d)
    ensures ShiftsThrough(i + 1) == ShiftsThrough(i) + 1 ==> KeyStands(i + 1, Turn(c), Turn(d))
    ensures ShiftsThrough(i + 1) == ShiftsThrough(i) + 2 ==> KeyStands(i + 1, Turn(Turn(c)), Turn(Turn(d)))
  {
    hide Turned, ShiftsThrough, Turn;
    var n := ShiftsThrough(i);
    OnceMore(Seven(0xf0ccaa0), n);
    OnceMore(Seven(0xaaccf00), n);
    OnceMore(Seven(0xf0ccaa0), n + 1);
    OnceMore(Seven(0xaaccf00), n + 1);
  }

  lemma Key0()
    ensures KeyStands(0, Seven(0xe199541), Seven(0x5599e01))
  {
    hide Turn;
    OnceMore(Seven(0xf0ccaa0), 0);
    OnceMore(Seven(0xaaccf00), 0);
    FirstTurns();
  }

  lemma FirstTurns()
    ensures Turn(Seven(0xf0ccaa0)) == Seven(0xe199541)
    ensures Turn(Seven(0xaaccf00)) == Seven(0x5599e01)
  {
  }

  lemma Key1()
    ensures KeyStands(1, Seven(0xc332a83), Seven(0xab33c02))
  {
    hide KeyStands;
    Key0();
    KeyTurned(0, Seven(0xe199541), Seven(0x5599e01));
  }

  lemma Key2()
    ensures KeyStands(2, Seven(0x0ccaa0f), Seven(0xaccf00a))
  {
    hide KeyStands;
    Key1();
    assert Turn(Seven(0xc332a83)) == Seven(0x8665507) && Turn(Seven(0xab33c02)) == Seven(0x5667805);
    KeyTurned(1, Seven(0xc332a83), Seven(0xab33c02));
  }

  lemma Key3()
    ensures KeyStands(3, Seven(0x332a83c), Seven(0xb33c02a))
  {
    hide KeyStands;
    Key2();
    assert Turn(Seven(0x0ccaa0f)) == Seven(0x199541e) && Turn(Seven(0xaccf00a)) == Seven(0x599e015);
    KeyTurned(2, Seven(0x0ccaa0f), Seven(0xaccf00a));
  }

  lemma Key4()
    ensures KeyStands(4, Seven(0xccaa0f0), Seven(0xccf00aa))
  {
    hide KeyStands;
    Key3();
    assert Turn(Seven(0x332a83c)) == Seven(0x6655078) && Turn(Seven(0xb33c02a)) == Seven(0x6678055);
    KeyTurned(3, Seven(0x332a83c), Seven(0xb33c02a));
  }

  lemma Key5()
    ensures KeyStands(5, Seven(0x32a83c3), Seven(0x33c02ab))
  {
    hide KeyStands;
    Key4();
    assert Turn(Seven(0xccaa0f0)) == Seven(0x99541e1) && Turn(Seven(0xccf00aa)) == Seven(0x99e0155);
    KeyTurned(4, Seven(0xccaa0f0), Seven(0xccf00aa));
  }

  lemma Key6()
    ensures KeyStands(6, Seven(0xcaa0f0c), Seven(0xcf00aac))
  {
    hide KeyStands;
    Key5();
    assert Turn(Seven(0x32a83c3)) == Seven(0x6550786) && Turn(Seven(0x33c02ab)) == Seven(0x6780556);
    KeyTurned(5, Seven(0x32a83c3), Seven(0x33c02ab));
  }

  lemma Key7()
    ensures KeyStands(7, Seven(0x2a83c33), Seven(0x3c02ab3))
  {
    hide KeyStands;
    Key6();
    assert Turn(Seven(0xcaa0f0c)) == Seven(0x9541e19) && Turn(Seven(0xcf00aac)) == Seven(0x9e01559);
    KeyTurned(6, Seven(0xcaa0f0c), Seven(0xcf00aac));
  }

  lemma Key8()
    ensures KeyStands(8, Seven(0x5507866), Seven(0x7805566))
  {
    hide KeyStands;
    Key7();
    KeyTurned(7, Seven(0x2a83c33), Seven(0x3c02ab3));
  }

  lemma Key9()
    ensures KeyStands(9, Seven(0x541e199), Seven(0xe015599))
  {
    hide KeyStands;
    Key8();
    assert Turn(Seven(0x5507866)) == Seven(0xaa0f0cc) && Turn(Seven(0x7805566)) == Seven(0xf00aacc);
    KeyTurned(8, Seven(0x5507866), Seven(0x7805566));
  }

  lemma Key10()
    ensures KeyStands(10, Seven(0x5078665), Seven(0x8055667))
  {
    hide KeyStands;
    Key9();
    assert Turn(Seven(0x541e199)) == Seven(0xa83c332) && Turn(Seven(0xe015599)) == Seven(0xc02ab33);
    KeyTurned(9, Seven(0x541e199), Seven(0xe015599));
  }

  lemma Key11()
    ensures KeyStands(11, Seven(0x41e1995), Seven(0x015599e))
  {
    hide KeyStands;
    Key10();
    assert Turn(Seven(0x5078665)) == Seven(0xa0f0cca) && Turn(Seven(0x8055667)) == Seven(0x00aaccf);
    KeyTurned(10, Seven(0x5078665), Seven(0x8055667));
  }

  lemma Key12()
    ensures KeyStands(12, Seven(0x0786655), Seven(0x0556678))
  {
    hide KeyStands;
    Key11();
    assert Turn(Seven(0x41e1995)) == Seven(0x83c332a) && Turn(Seven(0x015599e)) == Seven(0x02ab33c);
    KeyTurned(11, Seven(0x41e1995), Seven(0x015599e));
  }

  lemma Key13()
    ensures KeyStands(13, Seven(0x1e19954), Seven(0x15599e0))
  {
    hide KeyStands;
    Key12();
    assert Turn(Seven(0x0786655)) == Seven(0x0f0ccaa) && Turn(Seven(0x0556678)) == Seven(0x0aaccf0);
    KeyTurned(12, Seven(0x0786655), Seven(0x0556678));
  }

  lemma Key14()
    ensures KeyStands(14, Seven(0x7866550), Seven(0x5566780))
  {
    hide KeyStands;
    Key13();
    assert Turn(Seven(0x1e19954)) == Seven(0x3c332a8) && Turn(Seven(0x15599e0)) == Seven(0x2ab33c0);
    KeyTurned(13, Seven(0x1e19954), Seven(0x15599e0));
  }

  lemma Key15()
    ensures KeyStands(15, Seven(0xf0ccaa0), Seven(0xaaccf00))
  {
    hide KeyStands;
    Key14();
    KeyTurned(14, Seven(0x7866550), Seven(0x5566780));
  }

  const END := Halves(Hex(Eight(0x1a037d0d)), Hex(Eight(0x6091a7a1)))

  lemma Round16()
    ensures Leads(16, Eight(0x1a037d0d), Eight(0x6091a7a1), END)
  {
    hide Hex, Bits, Subkey;
  }

  lemma Made15()
    ensures Chosen(Seven(0xf0ccaa0) + Seven(0xaaccf00)) == Sextets(0xca3d03b87032)
    ensures Outsides(Eight(0x1a037d0d), Sextets(0xca3d03b87032)) == Eight(0xaa2be869)
  {
    OutsidesOf(Eight(0x1a037d0d), Sextets(0xca3d03b87032));
  }

  lemma NextOf15()
    ensures XorBytes(Eight(0xb94da965), Permuted(Eight(0xaa2be869))) == Eight(0x6091a7a1)
  {
  }

  lemma Round15()
    ensures Leads(15, Eight(0xb94da965), Eight(0x1a037d0d), END)
  {
    hide KeyStands, Leads, Hex, Subkey, Bits, Sixes, Chosen, Outsides, Permuted, Nibbles, Eight,
         Seven, Sextets;
    Round16();
    Key15();
    Made15();
    NextOf15();
    SubkeyFrom(15, Seven(0xf0ccaa0), Seven(0xaaccf00), Sextets(0xca3d03b87032));
    NibblesOfWords(0x1a037d0d);
    RoundBefore(15, Eight(0xb94da965), Eight(0x1a037d0d), Sextets(0xca3d03b87032), Eight(0x6091a7a1), END);
  }

  lemma Made14()
    ensures Chosen(Seven(0x7866550) + Seven(0x5566780)) == Sextets(0xb691050a16b5)
    ensures Outsides(Eight(0xb94da965), Sextets(0xb691050a16b5)) == Eight(0x998f9e88)
  {
    OutsidesOf(Eight(0xb94da965), Sextets(0xb691050a16b5));
  }

  lemma NextOf14()
    ensures XorBytes(Eight(0xa3eb2c46), Permuted(Eight(0x998f9e88))) == Eight(0x1a037d0d)
  {
  }

  lemma Round14()
    ensures Leads(14, Eight(0xa3eb2c46), Eight(0xb94da965), END)
  {
    hide KeyStands, Leads, Hex, Subkey, Bits, Sixes, Chosen, Outsides, Permuted, Nibbles, Eight,
         Seven, Sextets;
    Round15();
    Key14();
    Made14();
    NextOf14();
    SubkeyFrom(14, Seven(0x7866550), Seven(0x5566780), Sextets(0xb691050a16b5));
    NibblesOfWords(0xb94da965);
    RoundBefore(14, Eight(0xa3eb2c46), Eight(0xb94da965), Sextets(0xb691050a16b5), Eight(0x1a037d0d), END);
  }

  lemma Made13()
    ensures Chosen(Seven(0x1e19954) + Seven(0x15599e0)) == Sextets(0x5443b681dc8d)
    ensures Outsides(Eight(0xa3eb2c46), Sextets(0x5443b681dc8d)) == Eight(0x0dfa245d)
  {
    OutsidesOf(Eight(0xa3eb2c46), Sextets(0x5443b681dc8d));
  }

  lemma NextOf13()
    ensures XorBytes(Eight(0xb714e099), Permuted(Eight(0x0dfa245d))) == Eight(0xb94da965)
  {
  }

  lemma Round13()
    ensures Leads(13, Eight(0xb714e099), Eight(0xa3eb2c46), END)
  {
    hide KeyStands, Leads, Hex, Subkey, Bits, Sixes, Chosen, Outsides, Permuted, Nibbles, Eight,
         Seven, Sextets;
    Round14();
    Key13();
    Made13();
    NextOf13();
    SubkeyFrom(13, Seven(0x1e19954), Seven(0x15599e0), Sextets(0x5443b681dc8d));
    NibblesOfWords(0xa3eb2c46);
    RoundBefore(13, Eight(0xb714e099), Eight(0xa3eb2c46), Sextets(0x5443b681dc8d), Eight(0xb94da965), END);
  }

  lemma Made12()
    ensures Chosen(Seven(0x0786655) + Seven(0x0556678)) == Sextets(0x91c4d04980fc)
    ensures Outsides(Eight(0xb714e099), Sextets(0x91c4d04980fc)) == Eight(0xa84c6034)
  {
    OutsidesOf(Eight(0xb714e099), Sextets(0x91c4d04980fc));
  }

  lemma NextOf12()
    ensures XorBytes(Eight(0xa1663aa6), Permuted(Eight(0xa84c6034))) == Eight(0xa3eb2c46)
  {
  }

  lemma Round12()
    ensures Leads(12, Eight(0xa1663aa6), Eight(0xb714e099), END)
  {
    hide KeyStands, Leads, Hex, Subkey, Bits, Sixes, Chosen, Outsides, Permuted, Nibbles, Eight,
         Seven, Sextets;
    Round13();
    Key12();
    Made12();
    NextOf12();
    SubkeyFrom(12, Seven(0x0786655), Seven(0x0556678), Sextets(0x91c4d04980fc));
    NibblesOfWords(0xb714e099);
    RoundBefore(12, Eight(0xa1663aa6), Eight(0xb714e099), Sextets(0x91c4d04980fc), Eight(0xa3eb2c46), END);
  }

  lemma Made11()
    ensures Chosen(Seven(0x41e1995) + Seven(0x015599e)) == Sextets(0x7130e5455c54)
    ensures Outsides(Eight(0xa1663aa6), Sextets(0x7130e5455c54)) == Eight(0x2c7af9d0)
  {
    OutsidesOf(Eight(0xa1663aa6), Sextets(0x7130e5455c54));
  }

  lemma NextOf11()
    ensures XorBytes(Eight(0x8049c24c), Permuted(Eight(0x2c7af9d0))) == Eight(0xb714e099)
  {
  }

  lemma Round11()
    ensures Leads(11, Eight(0x8049c24c), Eight(0xa1663aa6), END)
  {
    hide KeyStands, Leads, Hex, Subkey, Bits, Sixes, Chosen, Outsides, Permuted, Nibbles, Eight,
         Seven, Sextets;
    Round12();
    Key11();
    Made11();
    NextOf11();
    SubkeyFrom(11, Seven(0x41e1995), Seven(0x015599e), Sextets(0x7130e5455c54));
    NibblesOfWords(0xa1663aa6);
    RoundBefore(11, Eight(0x8049c24c), Eight(0xa1663aa6), Sextets(0x7130e5455c54), Eight(0xb714e099), END);
  }

  lemma Made10()
    ensures Chosen(Seven(0x5078665) + Seven(0x8055667)) == Sextets(0x211f830d893a)
    ensures Outsides(Eight(0x8049c24c), Sextets(0x211f830d893a)) == Eight(0x5c3145a1)
  {
    OutsidesOf(Eight(0x8049c24c), Sextets(0x211f830d893a));
  }

  lemma NextOf10()
    ensures XorBytes(Eight(0x256a96b9), Permuted(Eight(0x5c3145a1))) == Eight(0xa1663aa6)
  {
  }

  lemma Round10()
    ensures Leads(10, Eight(0x256a96b9), Eight(0x8049c24c), END)
  {
    hide KeyStands, Leads, Hex, Subkey, Bits, Sixes, Chosen, Outsides, Permuted, Nibbles, Eight,
         Seven, Sextets;
    Round11();
    Key10();
    Made10();
    NextOf10();
    SubkeyFrom(10, Seven(0x5078665), Seven(0x8055667), Sextets(0x211f830d893a));
    NibblesOfWords(0x8049c24c);
    RoundBefore(10, Eight(0x256a96b9), Eight(0x8049c24c), Sextets(0x211f830d893a), Eight(0xa1663aa6), END);
  }

  lemma Made9()
    ensures Chosen(Seven(0x541e199) + Seven(0xe015599)) == Sextets(0x91e307631d72)
    ensures Outsides(Eight(0x256a96b9), Sextets(0x91e307631d72)) == Eight(0xe212a54d)
  {
    OutsidesOf(Eight(0x256a96b9), Sextets(0x91e307631d72));
  }

  lemma NextOf9()
    ensures XorBytes(Eight(0xcd9968e4), Permuted(Eight(0xe212a54d))) == Eight(0x8049c24c)
  {
  }

  lemma Round9()
    ensures Leads(9, Eight(0xcd9968e4), Eight(0x256a96b9), END)
  {
    hide KeyStands, Leads, Hex, Subkey, Bits, Sixes, Chosen, Outsides, Permuted, Nibbles, Eight,
         Seven, Sextets;
    Round10();
    Key9();
    Made9();
    NextOf9();
    SubkeyFrom(9, Seven(0x541e199), Seven(0xe015599), Sextets(0x91e307631d72));
    NibblesOfWords(0x256a96b9);
    RoundBefore(9, Eight(0xcd9968e4), Eight(0x256a96b9), Sextets(0x91e307631d72), Eight(0x8049c24c), END);
  }

  lemma Made8()
    ensures Chosen(Seven(0x5507866) + Seven(0x7805566)) == Sextets(0xc0c9e926b839)
    ensures Outsides(Eight(0xcd9968e4), Sextets(0xc0c9e926b839)) == Eight(0x4aca1d90)
  {
    OutsidesOf(Eight(0xcd9968e4), Sextets(0xc0c9e926b839));
  }

  lemma NextOf8()
    ensures XorBytes(Eight(0x572337f0), Permuted(Eight(0x4aca1d90))) == Eight(0x256a96b9)
  {
  }

  lemma Round8()
    ensures Leads(8, Eight(0x572337f0), Eight(0xcd9968e4), END)
  {
    hide KeyStands, Leads, Hex, Subkey, Bits, Sixes, Chosen, Outsides, Permuted, Nibbles, Eight,
         Seven, Sextets;
    Round9();
    Key8();
    Made8();
    NextOf8();
    SubkeyFrom(8, Seven(0x5507866), Seven(0x7805566), Sextets(0xc0c9e926b839));
    NibblesOfWords(0xcd9968e4);
    RoundBefore(8, Eight(0x572337f0), Eight(0xcd9968e4), Sextets(0xc0c9e926b839), Eight(0x256a96b9), END);
  }

  lemma Made7()
    ensures Chosen(Seven(0x2a83c33) + Seven(0x3c02ab3)) == Sextets(0x5788386ce581)
    ensures Outsides(Eight(0x572337f0), Sextets(0x5788386ce581)) == Eight(0x8d9454c2)
  {
    OutsidesOf(Eight(0x572337f0), Sextets(0x5788386ce581));
  }

  lemma NextOf7()
    ensures XorBytes(Eight(0xe90739fd), Permuted(Eight(0x8d9454c2))) == Eight(0xcd9968e4)
  {
  }

  lemma Round7()
    ensures Leads(7, Eight(0xe90739fd), Eight(0x572337f0), END)
  {
    hide KeyStands, Leads, Hex, Subkey, Bits, Sixes, Chosen, Outsides, Permuted, Nibbles, Eight,
         Seven, Sextets;
    Round8();
    Key7();
    Made7();
    NextOf7();
    SubkeyFrom(7, Seven(0x2a83c33), Seven(0x3c02ab3), Sextets(0x5788386ce581));
    NibblesOfWords(0x572337f0);
    RoundBefore(7, Eight(0xe90739fd), Eight(0x572337f0), Sextets(0x5788386ce581), Eight(0xcd9968e4), END);
  }

  lemma Made6()
    ensures Chosen(Seven(0xcaa0f0c) + Seven(0xcf00aac)) == Sextets(0x6c04950ae4c6)
    ensures Outsides(Eight(0xe90739fd), Sextets(0x6c04950ae4c6)) == Eight(0x871ac376)
  {
    OutsidesOf(Eight(0xe90739fd), Sextets(0x6c04950ae4c6));
  }

  lemma NextOf6()
    ensures XorBytes(Eight(0x10d55380), Permuted(Eight(0x871ac376))) == Eight(0x572337f0)
  {
  }

  lemma Round6()
    ensures Leads(6, Eight(0x10d55380), Eight(0xe90739fd), END)
  {
    hide KeyStands, Leads, Hex, Subkey, Bits, Sixes, Chosen, Outsides, Permuted, Nibbles, Eight,
         Seven, Sextets;
    Round7();
    Key6();
    Made6();
    NextOf6();
    SubkeyFrom(6, Seven(0xcaa0f0c), Seven(0xcf00aac), Sextets(0x6c04950ae4c6));
    NibblesOfWords(0xe90739fd);
    RoundBefore(6, Eight(0x10d55380), Eight(0xe90739fd), Sextets(0x6c04950ae4c6), Eight(0x572337f0), END);
  }

  lemma Made5()
    ensures Chosen(Seven(0x32a83c3) + Seven(0x33c02ab)) == Sextets(0x23251e3c8545)
    ensures Outsides(Eight(0x10d55380), Sextets(0x23251e3c8545)) == Eight(0xf053cadd)
  {
    OutsidesOf(Eight(0x10d55380), Sextets(0x23251e3c8545));
  }

  lemma NextOf5()
    ensures XorBytes(Eight(0x76f2b3de), Permuted(Eight(0xf053cadd))) == Eight(0xe90739fd)
  {
  }

  lemma Round5()
    ensures Leads(5, Eight(0x76f2b3de), Eight(0x10d55380), END)
  {
    hide KeyStands, Leads, Hex, Subkey, Bits, Sixes, Chosen, Outsides, Permuted, Nibbles, Eight,
         Seven, Sextets;
    Round6();
    Key5();
    Made5();
    NextOf5();
    SubkeyFrom(5, Seven(0x32a83c3), Seven(0x33c02ab), Sextets(0x23251e3c8545));
    NibblesOfWords(0x10d55380);
    RoundBefore(5, Eight(0x76f2b3de), Eight(0x10d55380), Sextets(0x23251e3c8545), Eight(0xe90739fd), END);
  }

  lemma Made4()
    ensures Chosen(Seven(0xccaa0f0) + Seven(0xccf00aa)) == Sextets(0x3ce80317a6c2)
    ensures Outsides(Eight(0x76f2b3de), Sextets(0x3ce80317a6c2)) == Eight(0x08700318)
  {
    OutsidesOf(Eight(0x76f2b3de), Sextets(0x3ce80317a6c2));
  }

  lemma NextOf4()
    ensures XorBytes(Eight(0x1efc7384), Permuted(Eight(0x08700318))) == Eight(0x10d55380)
  {
  }

  lemma Round4()
    ensures Leads(4, Eight(0x1efc7384), Eight(0x76f2b3de), END)
  {
    hide KeyStands, Leads, Hex, Subkey, Bits, Sixes, Chosen, Outsides, Permuted, Nibbles, Eight,
         Seven, Sextets;
    Round5();
    Key4();
    Made4();
    NextOf4();
    SubkeyFrom(4, Seven(0xccaa0f0), Seven(0xccf00aa), Sextets(0x3ce80317a6c2));
    NibblesOfWords(0x76f2b3de);
    RoundBefore(4, Eight(0x1efc7384), Eight(0x76f2b3de), Sextets(0x3ce80317a6c2), Eight(0x10d55380), END);
  }

  lemma Made3()
    ensures Chosen(Seven(0x332a83c) + Seven(0xb33c02a)) == Sextets(0x7289d2a58257)
    ensures Outsides(Eight(0x1efc7384), Sextets(0x7289d2a58257)) == Eight(0x815b7de2)
  {
    OutsidesOf(Eight(0x1efc7384), Sextets(0x7289d2a58257));
  }

  lemma NextOf3()
    ensures XorBytes(Eight(0xc225d717), Permuted(Eight(0x815b7de2))) == Eight(0x76f2b3de)
  {
  }

  lemma Round3()
    ensures Leads(3, Eight(0xc225d717), Eight(0x1efc7384), END)
  {
    hide KeyStands, Leads, Hex, Subkey, Bits, Sixes, Chosen, Outsides, Permuted, Nibbles, Eight,
         Seven, Sextets;
    Round4();
    Key3();
    Made3();
    NextOf3();
    SubkeyFrom(3, Seven(0x332a83c), Seven(0xb33c02a), Sextets(0x7289d2a58257));
    NibblesOfWords(0x1efc7384);
    RoundBefore(3, Eight(0xc225d717), Eight(0x1efc7384), Sextets(0x7289d2a58257), Eight(0x76f2b3de), END);
  }

  lemma Made2()
    ensures Chosen(Seven(0x0ccaa0f) + Seven(0xaccf00a)) == Sextets(0x45d48ab428d2)
    ensures Outsides(Eight(0xc225d717), Sextets(0x45d48ab428d2)) == Eight(0x467dacd6)
  {
    OutsidesOf(Eight(0xc225d717), Sextets(0x45d48ab428d2));
  }

  lemma NextOf2()
    ensures XorBytes(Eight(0xc9efe379), Permuted(Eight(0x467dacd6))) == Eight(0x1efc7384)
  {
  }

  lemma Round2()
    ensures Leads(2, Eight(0xc9efe379), Eight(0xc225d717), END)
  {
    hide KeyStands, Leads, Hex, Subkey, Bits, Sixes, Chosen, Outsides, Permuted, Nibbles, Eight,
         Seven, Sextets;
    Round3();
    Key2();
    Made2();
    NextOf2();
    SubkeyFrom(2, Seven(0x0ccaa0f), Seven(0xaccf00a), Sextets(0x45d48ab428d2));
    NibblesOfWords(0xc225d717);
    RoundBefore(2, Eight(0xc9efe379), Eight(0xc225d717), Sextets(0x45d48ab428d2), Eight(0x1efc7384), END);
  }

  lemma Made1()
    ensures Chosen(Seven(0xc332a83) + Seven(0xab33c02)) == Sextets(0x69a659256a26)
    ensures Outsides(Eight(0xc9efe379), Sextets(0x69a659256a26)) == Eight(0xcf430076)
  {
    OutsidesOf(Eight(0xc9efe379), Sextets(0x69a659256a26));
  }

  lemma NextOf1()
    ensures XorBytes(Eight(0x00fe1327), Permuted(Eight(0xcf430076))) == Eight(0xc225d717)
  {
  }

  lemma Round1()
    ensures Leads(1, Eight(0x00fe1327), Eight(0xc9efe379), END)
  {
    hide KeyStands, Leads, Hex, Subkey, Bits, Sixes, Chosen, Outsides, Permuted, Nibbles, Eight,
         Seven, Sextets;
    Round2();
    Key1();
    Made1();
    NextOf1();
    SubkeyFrom(1, Seven(0xc332a83), Seven(0xab33c02), Sextets(0x69a659256a26));
    NibblesOfWords(0xc9efe379);
    RoundBefore(1, Eight(0x00fe1327), Eight(0xc9efe379), Sextets(0x69a659256a26), Eight(0xc225d717), END);
  }

  lemma Made0()
    ensures Chosen(Seven(0xe199541) + Seven(0x5599e01)) == Sextets(0x0b02679b49a5)
    ensures Outsides(Eight(0x00fe1327), Sextets(0x0b02679b49a5)) == Eight(0x1b7a1dba)
  {
    OutsidesOf(Eight(0x00fe1327), Sextets(0x0b02679b49a5));
  }

  lemma NextOf0()
    ensures XorBytes(Eight(0xb7a48736), Permuted(Eight(0x1b7a1dba))) == Eight(0xc9efe379)
  {
  }

  lemma Round0()
    ensures Leads(0, Eight(0xb7a48736), Eight(0x00fe1327), END)
  {
    hide KeyStands, Leads, Hex, Subkey, Bits, Sixes, Chosen, Outsides, Permuted, Nibbles, Eight,
         Seven, Sextets;
    Round1();
    Key0();
    Made0();
    NextOf0();
    SubkeyFrom(0, Seven(0xe199541), Seven(0x5599e01), Sextets(0x0b02679b49a5));
    NibblesOfWords(0x00fe1327);
    RoundBefore(0, Eight(0xb7a48736), Eight(0x00fe1327), Sextets(0x0b02679b49a5), Eight(0xc9efe379), END);
  }

  lemma CipherOfVector()
    ensures Cipher(Bits([0x4e, 0x6f, 0x77, 0x20, 0x69, 0x73, 0x20, 0x74]),
                   Subkeys(Bits([0x01, 0x23, 0x45, 0x67, 0x89, 0xab, 0xcd, 0xef]))) ==
            Bits([0x3f, 0xa4, 0x0e, 0x8a, 0x98, 0x4d, 0x48, 0x15])
  {
    hide Bits, Hex, Rounds, Subkey, Select, Initial, Eight;
    var plain: seq<Byte> := [0x4e, 0x6f, 0x77, 0x20, 0x69, 0x73, 0x20, 0x74];
    var cipher: seq<Byte> := [0x3f, 0xa4, 0x0e, 0x8a, 0x98, 0x4d, 0x48, 0x15];
    var keys := Subkeys(Bits(KEY));
    InitialOfBoth();
    InitialIs(plain);
    InitialIs(cipher);
    var l, r := Eight(0xb7a48736), Eight(0x00fe1327);
    HexOfConcat(l, r);
    var permuted := Select(Bits(plain), IP);
    assert permuted[..32] == Hex(l) && permuted[32..] == Hex(r);
    Round0();
    assert keys[0..] == keys;
    HexOfConcat(Eight(0x6091a7a1), Eight(0x1a037d0d));
    PermutationsCancel(Bits(cipher));
  }

  lemma InitialOfBoth()
    ensures Initial([0x4e, 0x6f, 0x77, 0x20, 0x69, 0x73, 0x20, 0x74]) ==
            Eight(0xb7a48736) + Eight(0x00fe1327)
    ensures Initial([0x3f, 0xa4, 0x0e, 0x8a, 0x98, 0x4d, 0x48, 0x15]) ==
            Eight(0x6091a7a1) + Eight(0x1a037d0d)
  {
  }

  /** The vector itself: the key 0123456789abcdef turns 4e6f772069732074 into 3fa40e8a984d4815, and back. */
  lemma KnownAnswer()
    ensures Block([0x01, 0x23, 0x45, 0x67, 0x89, 0xab, 0xcd, 0xef],
                  [0x4e, 0x6f, 0x77, 0x20, 0x69, 0x73, 0x20, 0x74], true) ==
            [0x3f, 0xa4, 0x0e, 0x8a, 0x98, 0x4d, 0x48, 0x15]
    ensures Block([0x01, 0x23, 0x45, 0x67, 0x89, 0xab, 0xcd, 0xef],
                  [0x3f, 0xa4, 0x0e, 0x8a, 0x98, 0x4d, 0x48, 0x15], false) ==
            [0x4e, 0x6f, 0x77, 0x20, 0x69, 0x73, 0x20, 0x74]
  {
    hide Bits, Pack, Cipher, Subkeys;
    CipherOfVector();
    PackOfBits([0x3f, 0xa4, 0x0e, 0x8a, 0x98, 0x4d, 0x48, 0x15]);
    BlockInverse(KEY, [0x4e, 0x6f, 0x77, 0x20, 0x69, 0x73, 0x20, 0x74], true);
  }
}
