/** The S-boxes of DES against the criteria their designers published (D. Coppersmith, "The Data Encryption Standard
    (DES) and its strength against attacks", IBM Journal of Research and Development 38(3), 1994, criteria S-3 to S-6).

    A row of a box is held as one word, its sixteen values from left to right, so that a criterion for a whole row
    is one equation. */
module DesBoxes {
  import opened Des
  import opened DesTables

  type Line = bv64

  /** The number a nibble stands for. */
  function Value(x: Line): (v: nat)
    ensures v < 16
  {
    if x < 8 then
      if x < 4 then (if x < 2 then (if x == 0 then 0 else 1) else if x == 2 then 2 else 3)
      else (if x < 6 then (if x == 4 then 4 else 5) else if x == 6 then 6 else 7)
    else if x < 12 then (if x < 10 then (if x == 8 then 8 else 9) else if x == 10 then 10 else 11)
    else (if x < 14 then (if x == 12 then 12 else 13) else if x == 14 then 14 else 15)
  }

  predicate RowIs(box: nat, row: nat, w: Line)
    requires box < 8
  {
    SBox(box, row, 0) == Value((w >> 60) & 15) && SBox(box, row, 1) == Value((w >> 56) & 15) &&
    SBox(box, row, 2) == Value((w >> 52) & 15) && SBox(box, row, 3) == Value((w >> 48) & 15) &&
    SBox(box, row, 4) == Value((w >> 44) & 15) && SBox(box, row, 5) == Value((w >> 40) & 15) &&
    SBox(box, row, 6) == Value((w >> 36) & 15) && SBox(box, row, 7) == Value((w >> 32) & 15) &&
    SBox(box, row, 8) == Value((w >> 28) & 15) && SBox(box, row, 9) == Value((w >> 24) & 15) &&
    SBox(box, row, 10) == Value((w >> 20) & 15) && SBox(box, row, 11) == Value((w >> 16) & 15) &&
    SBox(box, row, 12) == Value((w >> 12) & 15) && SBox(box, row, 13) == Value((w >> 8) & 15) &&
    SBox(box, row, 14) == Value((w >> 4) & 15) && SBox(box, row, 15) == Value((w >> 0) & 15)
  }

  /** The nibble of a column, given by the bits of its number. */
  function At(w: Line, b: bool, c: bool, d: bool, e: bool): Line {
    var x := if b then w else w >> 32;
    var y := if c then x else x >> 16;
    var z := if d then y else y >> 8;
    (if e then z else z >> 4) & 15
  }

  function Column(b: bool, c: bool, d: bool, e: bool): nat {
    8 * BitValue(b) + 4 * BitValue(c) + 2 * BitValue(d) + BitValue(e)
  }

  lemma RowAt(box: nat, row: nat, w: Line, b: bool, c: bool, d: bool, e: bool)
    requires box < 8 && RowIs(box, row, w)
    ensures SBox(box, row, Column(b, c, d, e)) == Value(At(w, b, c, d, e))
  {
    hide SBox, Value;
    AtShifted(w, b, c, d, e);
  }

  lemma AtShifted(w: Line, b: bool, c: bool, d: bool, e: bool)
    ensures var k := Column(b, c, d, e); k < 16
    ensures At(w, b, c, d, e) == match Column(b, c, d, e)
            case 0 => (w >> 60) & 15
            case 1 => (w >> 56) & 15
            case 2 => (w >> 52) & 15
            case 3 => (w >> 48) & 15
            case 4 => (w >> 44) & 15
            case 5 => (w >> 40) & 15
            case 6 => (w >> 36) & 15
            case 7 => (w >> 32) & 15
            case 8 => (w >> 28) & 15
            case 9 => (w >> 24) & 15
            case 10 => (w >> 20) & 15
            case 11 => (w >> 16) & 15
            case 12 => (w >> 12) & 15
            case 13 => (w >> 8) & 15
            case 14 => (w >> 4) & 15
            case _ => (w >> 0) & 15
  {
  }

  /** The columns in the order that comes of changing one bit of their numbers, or the chosen ones. */
  function Flip8(w: Line): Line { (w << 32) | (w >> 32) }

  function Flip4(w: Line): Line { ((w & 0x0000_ffff_0000_ffff) << 16) | ((w >> 16) & 0x0000_ffff_0000_ffff) }

  function Flip2(w: Line): Line { ((w & 0x00ff_00ff_00ff_00ff) << 8) | ((w >> 8) & 0x00ff_00ff_00ff_00ff) }

  function Flip1(w: Line): Line { ((w & 0x0f0f_0f0f_0f0f_0f0f) << 4) | ((w >> 4) & 0x0f0f_0f0f_0f0f_0f0f) }

  function Changed(w: Line, b: bool, c: bool, d: bool, e: bool): Line {
    var x := if b then Flip8(w) else w;
    var y := if c then Flip4(x) else x;
    var z := if d then Flip2(y) else y;
    if e then Flip1(z) else z
  }

  lemma FlippedFirst(w: Line, b: bool, i: bool, j: bool, k: bool, l: bool)
    ensures At(if b then Flip8(w) else w, i, j, k, l) == At(w, i != b, j, k, l)
  {
  }

  lemma FlippedSecond(w: Line, c: bool, i: bool, j: bool, k: bool, l: bool)
    ensures At(if c then Flip4(w) else w, i, j, k, l) == At(w, i, j != c, k, l)
  {
  }

  lemma FlippedThird(w: Line, d: bool, i: bool, j: bool, k: bool, l: bool)
    ensures At(if d then Flip2(w) else w, i, j, k, l) == At(w, i, j, k != d, l)
  {
  }

  lemma FlippedFourth(w: Line, e: bool, i: bool, j: bool, k: bool, l: bool)
    ensures At(if e then Flip1(w) else w, i, j, k, l) == At(w, i, j, k, l != e)
  {
  }

  lemma ChangedAt(w: Line, b: bool, c: bool, d: bool, e: bool, i: bool, j: bool, k: bool, l: bool)
    ensures At(Changed(w, b, c, d, e), i, j, k, l) == At(w, i != b, j != c, k != d, l != e)
  {
    hide At, Flip8, Flip4, Flip2, Flip1;
    var x := if b then Flip8(w) else w;
    var y := if c then Flip4(x) else x;
    var z := if d then Flip2(y) else y;
    FlippedFourth(z, e, i, j, k, l);
    FlippedThird(y, d, i, j, k, l != e);
    FlippedSecond(x, c, i, j, k != d, l != e);
    FlippedFirst(w, b, i, j != c, k != d, l != e);
  }

  /** Every nibble has a bit, or two bits. */
  predicate Differs(d: Line) {
    (d | (d >> 1) | (d >> 2) | (d >> 3)) & 0x1111_1111_1111_1111 == 0x1111_1111_1111_1111
  }

  predicate DiffersTwice(d: Line) {
    var x, y, z := d >> 1, d >> 2, d >> 3;
    ((d & x) | (d & y) | (d & z) | (x & y) | (x & z) | (y & z)) & 0x1111_1111_1111_1111 == 0x1111_1111_1111_1111
  }

  predicate Apart(w: Line, v: Line) { Differs(w ^ v) }

  predicate FarApart(w: Line, v: Line) { DiffersTwice(w ^ v) }

  /* The published criteria, on the words of the four rows. */

  /** A word and those with the last bits of the columns changed. */
  predicate Quarter(w: Line, f: Line) {
    var g := ((f & 0x00ff_00ff_00ff_00ff) << 8) | ((f >> 8) & 0x00ff_00ff_00ff_00ff);
    && Apart(w, g)
    && Apart(w, ((f & 0x0f0f_0f0f_0f0f_0f0f) << 4) | ((f >> 4) & 0x0f0f_0f0f_0f0f_0f0f))
    && Apart(w, ((g & 0x0f0f_0f0f_0f0f_0f0f) << 4) | ((g >> 4) & 0x0f0f_0f0f_0f0f_0f0f))
  }

  /** A row holds every value once, and a change of one bit of the column's number, or of the two in the middle,
      changes two bits. */
  predicate WellMadeRow(w: Line) {
    var f8 := (w << 32) | (w >> 32);
    var f4 := ((w & 0x0000_ffff_0000_ffff) << 16) | ((w >> 16) & 0x0000_ffff_0000_ffff);
    var f12 := ((f8 & 0x0000_ffff_0000_ffff) << 16) | ((f8 >> 16) & 0x0000_ffff_0000_ffff);
    && Quarter(w, w) && Quarter(w, f4) && Quarter(w, f8) && Quarter(w, f12)
    && Apart(w, f4) && Apart(w, f8) && Apart(w, f12) && FarApart(w, f8) && FarApart(w, f4)
    && FarApart(w, ((w & 0x00ff_00ff_00ff_00ff) << 8) | ((w >> 8) & 0x00ff_00ff_00ff_00ff))
    && FarApart(w, ((w & 0x0f0f_0f0f_0f0f_0f0f) << 4) | ((w >> 4) & 0x0f0f_0f0f_0f0f_0f0f))
    && FarApart(w, ((f4 & 0x00ff_00ff_00ff_00ff) << 8) | ((f4 >> 8) & 0x00ff_00ff_00ff_00ff))
  }

  /** A change of the first two input bits, whatever becomes of the next two, changes the value. */
  predicate WellMadePair(w: Line, v: Line) {
    var f8 := (v << 32) | (v >> 32);
    var f12 := ((f8 & 0x0000_ffff_0000_ffff) << 16) | ((f8 >> 16) & 0x0000_ffff_0000_ffff);
    var f10 := ((f8 & 0x00ff_00ff_00ff_00ff) << 8) | ((f8 >> 8) & 0x00ff_00ff_00ff_00ff);
    var f14 := ((f12 & 0x00ff_00ff_00ff_00ff) << 8) | ((f12 >> 8) & 0x00ff_00ff_00ff_00ff);
    Apart(w, f8) && Apart(w, f10) && Apart(w, f12) && Apart(w, f14)
  }

  /** And a change of the first or the last input bit changes two bits. */
  predicate WellMade(w0: Line, w1: Line, w2: Line, w3: Line) {
    && WellMadeRow(w0) && WellMadeRow(w1) && WellMadeRow(w2) && WellMadeRow(w3)
    && FarApart(w0, w1) && FarApart(w2, w3) && FarApart(w0, w2) && FarApart(w1, w3)
    && WellMadePair(w0, w2) && WellMadePair(w1, w3)
  }

  function Pick(row: nat, w0: Line, w1: Line, w2: Line, w3: Line): Line {
    if row == 0 then w0 else if row == 1 then w1 else if row == 2 then w2 else w3
  }

  function RowWord(box: nat, row: nat): Line
    requires box < 8
  {
    match box
    case 0 => Pick(row, 0xe4d12fb83a6c5907, 0x0f74e2d1a6cb9538, 0x41e8d62bfc973a50, 0xfc8249175b3ea06d)
    case 1 => Pick(row, 0xf18e6b34972dc05a, 0x3d47f28ec01a69b5, 0x0e7ba4d158c6932f, 0xd8a13f42b67c05e9)
    case 2 => Pick(row, 0xa09e63f51dc7b428, 0xd709346a285ecbf1, 0xd6498f30b12c5ae7, 0x1ad069874fe3b52c)
    case 3 => Pick(row, 0x7de3069a1285bc4f, 0xd8b56f03472c1ae9, 0xa690cb7df13e5284, 0x3f06a1d8945bc72e)
    case 4 => Pick(row, 0x2c417ab6853fd0e9, 0xeb2c47d150fa3986, 0x421bad78f9c5630e, 0xb8c71e2d6f09a453)
    case 5 => Pick(row, 0xc1af92680d34e75b, 0xaf427c9561de0b38, 0x9ef528c3704a1db6, 0x432c95fabe17608d)
    case 6 => Pick(row, 0x4b2ef08d3c975a61, 0xd0b7491ae35c2f86, 0x14bdc37eaf680592, 0x6bd814a7950fe23c)
    case _ => Pick(row, 0xd2846fb1a93e50c7, 0x1fd8a374c56b0e92, 0x7b419ce206adf358, 0x21e74a8dfc90356b)
  }

  lemma Box1(row: nat)
    requires row < 4
    ensures RowIs(0, row, RowWord(0, row))
  {
    if row == 0 {
    } else if row == 1 {
    } else if row == 2 {
    } else {
    }
  }

  lemma Box1WellMade()
    ensures WellMade(0xe4d12fb83a6c5907, 0x0f74e2d1a6cb9538, 0x41e8d62bfc973a50, 0xfc8249175b3ea06d)
  {
  }

  lemma Box2(row: nat)
    requires row < 4
    ensures RowIs(1, row, RowWord(1, row))
  {
    if row == 0 {
    } else if row == 1 {
    } else if row == 2 {
    } else {
    }
  }

  lemma Box2WellMade()
    ensures WellMade(0xf18e6b34972dc05a, 0x3d47f28ec01a69b5, 0x0e7ba4d158c6932f, 0xd8a13f42b67c05e9)
  {
  }

  lemma Box3(row: nat)
    requires row < 4
    ensures RowIs(2, row, RowWord(2, row))
  {
    if row == 0 {
    } else if row == 1 {
    } else if row == 2 {
    } else {
    }
  }

  lemma Box3WellMade()
    ensures WellMade(0xa09e63f51dc7b428, 0xd709346a285ecbf1, 0xd6498f30b12c5ae7, 0x1ad069874fe3b52c)
  {
  }

  lemma Box4(row: nat)
    requires row < 4
    ensures RowIs(3, row, RowWord(3, row))
  {
    if row == 0 {
    } else if row == 1 {
    } else if row == 2 {
    } else {
    }
  }

  lemma Box4WellMade()
    ensures WellMade(0x7de3069a1285bc4f, 0xd8b56f03472c1ae9, 0xa690cb7df13e5284, 0x3f06a1d8945bc72e)
  {
  }

  lemma Box5(row: nat)
    requires row < 4
    ensures RowIs(4, row, RowWord(4, row))
  {
    if row == 0 {
    } else if row == 1 {
    } else if row == 2 {
    } else {
    }
  }

  lemma Box5WellMade()
    ensures WellMade(0x2c417ab6853fd0e9, 0xeb2c47d150fa3986, 0x421bad78f9c5630e, 0xb8c71e2d6f09a453)
  {
  }

  lemma Box6(row: nat)
    requires row < 4
    ensures RowIs(5, row, RowWord(5, row))
  {
    if row == 0 {
    } else if row == 1 {
    } else if row == 2 {
    } else {
    }
  }

  lemma Box6WellMade()
    ensures WellMade(0xc1af92680d34e75b, 0xaf427c9561de0b38, 0x9ef528c3704a1db6, 0x432c95fabe17608d)
  {
  }

  lemma Box7(row: nat)
    requires row < 4
    ensures RowIs(6, row, RowWord(6, row))
  {
    if row == 0 {
    } else if row == 1 {
    } else if row == 2 {
    } else {
    }
  }

  lemma Box7WellMade()
    ensures WellMade(0x4b2ef08d3c975a61, 0xd0b7491ae35c2f86, 0x14bdc37eaf680592, 0x6bd814a7950fe23c)
  {
  }

  lemma Box8(row: nat)
    requires row < 4
    ensures RowIs(7, row, RowWord(7, row))
  {
    if row == 0 {
    } else if row == 1 {
    } else if row == 2 {
    } else {
    }
  }

  lemma Box8WellMade()
    ensures WellMade(0xd2846fb1a93e50c7, 0x1fd8a374c56b0e92, 0x7b419ce206adf358, 0x21e74a8dfc90356b)
  {
  }

  lemma RowsAre(box: nat, row: nat)
    requires box < 8 && row < 4
    ensures RowIs(box, row, RowWord(box, row))
  {
    hide RowIs, RowWord;
    if box == 0 {
      Box1(row);
    } else if box == 1 {
      Box2(row);
    } else if box == 2 {
      Box3(row);
    } else if box == 3 {
      Box4(row);
    } else if box == 4 {
      Box5(row);
    } else if box == 5 {
      Box6(row);
    } else if box == 6 {
      Box7(row);
    } else {
      Box8(row);
    }
  }

  lemma BoxWellMade(box: nat)
    requires box < 8
    ensures WellMade(RowWord(box, 0), RowWord(box, 1), RowWord(box, 2), RowWord(box, 3))
  {
    hide WellMade;
    if box == 0 {
      Box1WellMade();
    } else if box == 1 {
      Box2WellMade();
    } else if box == 2 {
      Box3WellMade();
    } else if box == 3 {
      Box4WellMade();
    } else if box == 4 {
      Box5WellMade();
    } else if box == 5 {
      Box6WellMade();
    } else if box == 6 {
      Box7WellMade();
    } else {
      Box8WellMade();
    }
  }

  lemma AtOfXor(w: Line, v: Line, i: bool, j: bool, k: bool, l: bool)
    ensures At(w ^ v, i, j, k, l) == At(w, i, j, k, l) ^ At(v, i, j, k, l)
  {
  }

  lemma AtIsNibble(w: Line, i: bool, j: bool, k: bool, l: bool)
    ensures At(w, i, j, k, l) < 16
  {
  }

  lemma DiffersAt(d: Line, i: bool, j: bool, k: bool, l: bool)
    requires Differs(d)
    ensures At(d, i, j, k, l) != 0
  {
    if i {
    }
  }

  lemma DiffersTwiceAt(d: Line, i: bool, j: bool, k: bool, l: bool)
    requires DiffersTwice(d)
    ensures TwoBits(At(d, i, j, k, l))
  {
    if i {
    }
  }

  lemma ApartAt(w: Line, v: Line, i: bool, j: bool, k: bool, l: bool)
    ensures Apart(w, v) ==> At(w, i, j, k, l) ^ At(v, i, j, k, l) != 0
    ensures FarApart(w, v) ==> TwoBits(At(w, i, j, k, l) ^ At(v, i, j, k, l))
  {
    hide Differs, DiffersTwice, At, TwoBits;
    AtOfXor(w, v, i, j, k, l);
    if Apart(w, v) {
      DiffersAt(w ^ v, i, j, k, l);
    }
    if FarApart(w, v) {
      DiffersTwiceAt(w ^ v, i, j, k, l);
    }
  }

  predicate TwoBits(x: Line) { x & (x - 1) != 0 }

  /** In how many of its four bits a value changes. */
  function Changes(u: nat, v: nat): nat {
    BitValue(NibbleBit(u, 0) != NibbleBit(v, 0)) + BitValue(NibbleBit(u, 1) != NibbleBit(v, 1)) +
    BitValue(NibbleBit(u, 2) != NibbleBit(v, 2)) + BitValue(NibbleBit(u, 3) != NibbleBit(v, 3))
  }

  lemma BitsOfValue(x: Line)
    requires x < 16
    ensures NibbleBit(Value(x), 0) == (x & 8 != 0) && NibbleBit(Value(x), 1) == (x & 4 != 0)
    ensures NibbleBit(Value(x), 2) == (x & 2 != 0) && NibbleBit(Value(x), 3) == (x & 1 != 0)
  {
  }

  lemma ValuesDiffer(x: Line, y: Line)
    requires x < 16 && y < 16
    ensures x ^ y != 0 ==> Value(x) != Value(y)
    ensures TwoBits(x ^ y) ==> Changes(Value(x), Value(y)) >= 2
  {
    hide Value, NibbleBit;
    BitsOfValue(x);
    BitsOfValue(y);
  }

  /** What the words of two rows say of a value in each. */
  lemma Compared(box: nat, row: nat, other: nat, w: Line, v: Line, b: bool, c: bool, d: bool, e: bool,
                 i: bool, j: bool, k: bool, l: bool)
    requires box < 8 && RowIs(box, row, w) && RowIs(box, other, v)
    ensures var u := Changed(v, b != i, c != j, d != k, e != l);
            var s, t := SBox(box, row, Column(b, c, d, e)), SBox(box, other, Column(i, j, k, l));
            (Apart(w, u) ==> s != t) && (FarApart(w, u) ==> Changes(s, t) >= 2)
  {
    hide RowIs, At, Changed, Apart, FarApart, SBox, Value, Changes, TwoBits, Column;
    var u := Changed(v, b != i, c != j, d != k, e != l);
    RowAt(box, row, w, b, c, d, e);
    RowAt(box, other, v, i, j, k, l);
    ChangedBack(v, b, c, d, e, i, j, k, l);
    AtIsNibble(w, b, c, d, e);
    AtIsNibble(v, i, j, k, l);
    ApartAt(w, u, b, c, d, e);
    ValuesDiffer(At(w, b, c, d, e), At(v, i, j, k, l));
  }

  lemma ChangedBack(w: Line, b: bool, c: bool, d: bool, e: bool, i: bool, j: bool, k: bool, l: bool)
    ensures At(Changed(w, b != i, c != j, d != k, e != l), b, c, d, e) == At(w, i, j, k, l)
  {
    hide At, Changed;
    ChangedAt(w, b != i, c != j, d != k, e != l, b, c, d, e);
    assert (b != (b != i)) == i && (c != (c != j)) == j && (d != (d != k)) == k && (e != (e != l)) == l;
  }

  /** What a box makes of six bits: the outer two choose the row, the inner four the column. */
  function Output(box: nat, a: bool, b: bool, c: bool, d: bool, e: bool, f: bool): nat
    requires box < 8
  {
    SBox(box, 2 * BitValue(a) + BitValue(f), Column(b, c, d, e))
  }

  lemma QuarterFlips(w: Line, f: Line)
    requires Quarter(w, f)
    ensures Apart(w, Flip2(f)) && Apart(w, Flip1(f)) && Apart(w, Flip1(Flip2(f)))
  {
    hide Apart;
  }

  lemma RowFlips(w: Line)
    requires WellMadeRow(w)
    ensures Quarter(w, w) && Quarter(w, Flip4(w)) && Quarter(w, Flip8(w)) && Quarter(w, Flip4(Flip8(w)))
    ensures Apart(w, Flip4(w)) && Apart(w, Flip8(w)) && Apart(w, Flip4(Flip8(w)))
    ensures FarApart(w, Flip8(w)) && FarApart(w, Flip4(w)) && FarApart(w, Flip2(w)) && FarApart(w, Flip1(w))
    ensures FarApart(w, Flip2(Flip4(w)))
  {
    hide Quarter, Apart, FarApart;
  }

  lemma DistinctInRow(w: Line, b: bool, c: bool, d: bool, e: bool)
    requires WellMadeRow(w) && (b || c || d || e)
    ensures Apart(w, Changed(w, b, c, d, e))
    ensures (b && !c && !d && !e) || (!b && c && !e) || (!b && !c && d != e) ==> FarApart(w, Changed(w, b, c, d, e))
  {
    hide Quarter, Apart, FarApart, WellMadeRow, Flip8, Flip4, Flip2, Flip1;
    RowFlips(w);
    QuarterFlips(w, w);
    QuarterFlips(w, Flip4(w));
    QuarterFlips(w, Flip8(w));
    QuarterFlips(w, Flip4(Flip8(w)));
    if b {
      if c {
        if d {
          if e {
          } else {
          }
        } else {
          if e {
          } else {
          }
        }
      } else {
        if d {
          if e {
          } else {
          }
        } else {
          if e {
          } else {
          }
        }
      }
    } else {
      if c {
        if d {
          if e {
          } else {
          }
        } else {
          if e {
          } else {
          }
        }
      } else {
        if d {
          if e {
          } else {
          }
        } else {
          if e {
          } else {
          }
        }
      }
    }
  }

  lemma RowWellMade(box: nat, row: nat)
    requires box < 8 && row < 4
    ensures WellMadeRow(RowWord(box, row))
  {
    hide WellMadeRow, WellMadePair, RowWord, FarApart;
    BoxWellMade(box);
  }

  /** With the outer bits fixed, different inner bits give different values, so each value comes once. */
  lemma RowsArePermutations(box: nat, a: bool, f: bool, b: bool, c: bool, d: bool, e: bool,
                            i: bool, j: bool, k: bool, l: bool)
    requires box < 8 && (b != i || c != j || d != k || e != l)
    ensures Output(box, a, b, c, d, e, f) != Output(box, a, i, j, k, l, f)
  {
    hide RowIs, SBox, Apart, FarApart, Changed, Changes, WellMadeRow, RowWord, Column;
    var row := 2 * BitValue(a) + BitValue(f);
    var w := RowWord(box, row);
    RowsAre(box, row);
    RowWellMade(box, row);
    DistinctInRow(w, b != i, c != j, d != k, e != l);
    Compared(box, row, row, w, w, b, c, d, e, i, j, k, l);
  }

  /** Changing one inner bit, or the middle two, changes at least two output bits. */
  lemma InnerBitChangesTwo(box: nat, a: bool, b: bool, c: bool, d: bool, e: bool, f: bool)
    requires box < 8
    ensures Changes(Output(box, a, b, c, d, e, f), Output(box, a, !b, c, d, e, f)) >= 2
    ensures Changes(Output(box, a, b, c, d, e, f), Output(box, a, b, !c, d, e, f)) >= 2
    ensures Changes(Output(box, a, b, c, d, e, f), Output(box, a, b, c, !d, e, f)) >= 2
    ensures Changes(Output(box, a, b, c, d, e, f), Output(box, a, b, c, d, !e, f)) >= 2
    ensures Changes(Output(box, a, b, c, d, e, f), Output(box, a, b, !c, !d, e, f)) >= 2
  {
    hide RowIs, SBox, Apart, FarApart, Changed, Changes, WellMadeRow, RowWord, Column;
    var row := 2 * BitValue(a) + BitValue(f);
    var w := RowWord(box, row);
    RowsAre(box, row);
    RowWellMade(box, row);
    DistinctInRow(w, true, false, false, false);
    DistinctInRow(w, false, true, false, false);
    DistinctInRow(w, false, false, true, false);
    DistinctInRow(w, false, false, false, true);
    DistinctInRow(w, false, true, true, false);
    Compared(box, row, row, w, w, b, c, d, e, !b, c, d, e);
    Compared(box, row, row, w, w, b, c, d, e, b, !c, d, e);
    Compared(box, row, row, w, w, b, c, d, e, b, c, !d, e);
    Compared(box, row, row, w, w, b, c, d, e, b, c, d, !e);
    Compared(box, row, row, w, w, b, c, d, e, b, !c, !d, e);
  }

  lemma TwiceBetweenRows(box: nat, row: nat, other: nat)
    requires box < 8 && row < 4 && other < 4 && (row / 2 == other / 2) != (row % 2 == other % 2)
    ensures FarApart(RowWord(box, row), RowWord(box, other))
  {
    hide FarApart, WellMadeRow, WellMadePair, RowWord;
    BoxWellMade(box);
    XorTurned(RowWord(box, row), RowWord(box, other));
  }

  lemma XorTurned(w: Line, v: Line)
    ensures FarApart(w, v) == FarApart(v, w)
  {
  }

  lemma NothingChanged(w: Line)
    ensures Changed(w, false, false, false, false) == w
  {
  }

  /** So does changing one of the outer bits. */
  lemma OuterBitChangesTwo(box: nat, a: bool, b: bool, c: bool, d: bool, e: bool, f: bool)
    requires box < 8
    ensures Changes(Output(box, a, b, c, d, e, f), Output(box, !a, b, c, d, e, f)) >= 2
    ensures Changes(Output(box, a, b, c, d, e, f), Output(box, a, b, c, d, e, !f)) >= 2
  {
    hide RowIs, SBox, Apart, FarApart, Changed, Changes, RowWord, Column;
    var row := 2 * BitValue(a) + BitValue(f);
    var first, last := 2 * BitValue(!a) + BitValue(f), 2 * BitValue(a) + BitValue(!f);
    RowsAre(box, row);
    RowsAre(box, first);
    RowsAre(box, last);
    TwiceBetweenRows(box, row, first);
    TwiceBetweenRows(box, row, last);
    NothingChanged(RowWord(box, first));
    NothingChanged(RowWord(box, last));
    Compared(box, row, first, RowWord(box, row), RowWord(box, first), b, c, d, e, b, c, d, e);
    Compared(box, row, last, RowWord(box, row), RowWord(box, last), b, c, d, e, b, c, d, e);
  }

  lemma PairFlips(w: Line, v: Line)
    requires WellMadePair(w, v)
    ensures Apart(w, Flip8(v)) && Apart(w, Flip2(Flip8(v)))
    ensures Apart(w, Flip4(Flip8(v))) && Apart(w, Flip2(Flip4(Flip8(v))))
  {
    hide Apart, FarApart;
  }

  lemma DifferBetweenRows(box: nat, row: nat, c: bool, d: bool)
    requires box < 8 && row < 2
    ensures Apart(RowWord(box, row), Changed(RowWord(box, row + 2), true, c, d, false))
  {
    hide Apart, FarApart, WellMadeRow, WellMadePair, RowWord, Flip8, Flip4, Flip2, Flip1;
    BoxWellMade(box);
    PairFlips(RowWord(box, row), RowWord(box, row + 2));
  }

  /** Changing the first two bits and not the last two changes the output, whatever becomes of the two between. */
  lemma FirstTwoChangeOutput(box: nat, a: bool, b: bool, c: bool, d: bool, e: bool, f: bool, j: bool, k: bool)
    requires box < 8
    ensures Output(box, a, b, c, d, e, f) != Output(box, !a, !b, j, k, e, f)
  {
    hide RowIs, SBox, Apart, FarApart, Changed, Changes, RowWord, Column;
    var low, high := BitValue(f), 2 + BitValue(f);
    RowsAre(box, low);
    RowsAre(box, high);
    DifferBetweenRows(box, low, c != j, d != k);
    if a {
      Compared(box, low, high, RowWord(box, low), RowWord(box, high), !b, j, k, e, b, c, d, e);
      assert (j != c) == (c != j) && (k != d) == (d != k);
    } else {
      Compared(box, low, high, RowWord(box, low), RowWord(box, high), b, c, d, e, !b, j, k, e);
    }
  }
}
