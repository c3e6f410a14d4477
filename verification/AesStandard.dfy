/** The AES of core/dtv_camd_crypt.c against FIPS 197 itself: its S-box is the affine image of the inverses in
    GF(2^8), and it enciphers the example of appendix C.1 to what is printed there. */
module AesStandard {
  import opened Bytes
  import opened GaloisField
  import opened AesTables
  import opened Aes

  /* ---- the S-box, section 5.1.1 ---- */

  function Turned(y: Byte, n: nat): Byte
    requires n <= 8
  {
    (y << n) | (y >> (8 - n))
  }

  /** The affine transformation undone. */
  function Back(y: Byte): Byte { Turned(y, 1) ^ Turned(y, 3) ^ Turned(y, 6) ^ 0x05 }

  /** The multiple of `a` for one bit of a factor. */
  function ForBit(a: Byte, b: Byte, bit: Byte): Byte { if b & bit != 0 then a else 0 }

  /** Multiplication of polynomials: for every bit of one factor the other, times x as often as its place says. */
  function Product(a: Byte, b: Byte): Byte {
    var a1 := XTime(a);
    var a2 := XTime(a1);
    var a3 := XTime(a2);
    var a4 := XTime(a3);
    var a5 := XTime(a4);
    var a6 := XTime(a5);
    ForBit(a, b, 0x01) ^ ForBit(a1, b, 0x02) ^ ForBit(a2, b, 0x04) ^ ForBit(a3, b, 0x08) ^
        ForBit(a4, b, 0x10) ^ ForBit(a5, b, 0x20) ^ ForBit(a6, b, 0x40) ^ ForBit(XTime(a6), b, 0x80)
  }

  /** Zero goes to the image of zero, every other byte to that of its inverse. */
  predicate AsPublished(x: Byte) {
    if x == 0 then Back(SBox(x)) == 0 else Product(Back(SBox(x)), x) == 1
  }

  lemma Row0(x: Byte)
    requires x & 0xf0 == 0x00
    ensures AsPublished(x)
  {
    if x & 0x0c == 0x00 {
    } else if x & 0x0c == 0x04 {
    } else if x & 0x0c == 0x08 {
    } else {
    }
  }

  lemma Row1(x: Byte)
    requires x & 0xf0 == 0x10
    ensures AsPublished(x)
  {
    if x & 0x0c == 0x00 {
    } else if x & 0x0c == 0x04 {
    } else if x & 0x0c == 0x08 {
    } else {
    }
  }

  lemma Row2(x: Byte)
    requires x & 0xf0 == 0x20
    ensures AsPublished(x)
  {
    if x & 0x0c == 0x00 {
    } else if x & 0x0c == 0x04 {
    } else if x & 0x0c == 0x08 {
    } else {
    }
  }

  lemma Row3(x: Byte)
    requires x & 0xf0 == 0x30
    ensures AsPublished(x)
  {
    if x & 0x0c == 0x00 {
    } else if x & 0x0c == 0x04 {
    } else if x & 0x0c == 0x08 {
    } else {
    }
  }

  lemma Row4(x: Byte)
    requires x & 0xf0 == 0x40
    ensures AsPublished(x)
  {
    if x & 0x0c == 0x00 {
    } else if x & 0x0c == 0x04 {
    } else if x & 0x0c == 0x08 {
    } else {
    }
  }

  lemma Row5(x: Byte)
    requires x & 0xf0 == 0x50
    ensures AsPublished(x)
  {
    if x & 0x0c == 0x00 {
    } else if x & 0x0c == 0x04 {
    } else if x & 0x0c == 0x08 {
    } else {
    }
  }

  lemma Row6(x: Byte)
    requires x & 0xf0 == 0x60
    ensures AsPublished(x)
  {
    if x & 0x0c == 0x00 {
    } else if x & 0x0c == 0x04 {
    } else if x & 0x0c == 0x08 {
    } else {
    }
  }

  lemma Row7(x: Byte)
    requires x & 0xf0 == 0x70
    ensures AsPublished(x)
  {
    if x & 0x0c == 0x00 {
    } else if x & 0x0c == 0x04 {
    } else if x & 0x0c == 0x08 {
    } else {
    }
  }

  lemma Row8(x: Byte)
    requires x & 0xf0 == 0x80
    ensures AsPublished(x)
  {
    if x & 0x0c == 0x00 {
    } else if x & 0x0c == 0x04 {
    } else if x & 0x0c == 0x08 {
    } else {
    }
  }

  lemma Row9(x: Byte)
    requires x & 0xf0 == 0x90
    ensures AsPublished(x)
  {
    if x & 0x0c == 0x00 {
    } else if x & 0x0c == 0x04 {
    } else if x & 0x0c == 0x08 {
    } else {
    }
  }

  lemma RowA(x: Byte)
    requires x & 0xf0 == 0xa0
    ensures AsPublished(x)
  {
    if x & 0x0c == 0x00 {
    } else if x & 0x0c == 0x04 {
    } else if x & 0x0c == 0x08 {
    } else {
    }
  }

  lemma RowB(x: Byte)
    requires x & 0xf0 == 0xb0
    ensures AsPublished(x)
  {
    if x & 0x0c == 0x00 {
    } else if x & 0x0c == 0x04 {
    } else if x & 0x0c == 0x08 {
    } else {
    }
  }

  lemma RowC(x: Byte)
    requires x & 0xf0 == 0xc0
    ensures AsPublished(x)
  {
    if x & 0x0c == 0x00 {
    } else if x & 0x0c == 0x04 {
    } else if x & 0x0c == 0x08 {
    } else {
    }
  }

  lemma RowD(x: Byte)
    requires x & 0xf0 == 0xd0
    ensures AsPublished(x)
  {
    if x & 0x0c == 0x00 {
    } else if x & 0x0c == 0x04 {
    } else if x & 0x0c == 0x08 {
    } else {
    }
  }

  lemma RowE(x: Byte)
    requires x & 0xf0 == 0xe0
    ensures AsPublished(x)
  {
    if x & 0x0c == 0x00 {
    } else if x & 0x0c == 0x04 {
    } else if x & 0x0c == 0x08 {
    } else {
    }
  }

  lemma RowF(x: Byte)
    requires x & 0xf0 == 0xf0
    ensures AsPublished(x)
  {
    if x & 0x0c == 0x00 {
    } else if x & 0x0c == 0x04 {
    } else if x & 0x0c == 0x08 {
    } else {
    }
  }

  lemma SBoxAsPublished(x: Byte)
    ensures AsPublished(x)
  {
    hide AsPublished;
    var row := x & 0xf0;
    if row == 0x00 {
      Row0(x);
    } else if row == 0x10 {
      Row1(x);
    } else if row == 0x20 {
      Row2(x);
    } else if row == 0x30 {
      Row3(x);
    } else if row == 0x40 {
      Row4(x);
    } else if row == 0x50 {
      Row5(x);
    } else if row == 0x60 {
      Row6(x);
    } else if row == 0x70 {
      Row7(x);
    } else if row == 0x80 {
      Row8(x);
    } else if row == 0x90 {
      Row9(x);
    } else if row == 0xa0 {
      RowA(x);
    } else if row == 0xb0 {
      RowB(x);
    } else if row == 0xc0 {
      RowC(x);
    } else if row == 0xd0 {
      RowD(x);
    } else if row == 0xe0 {
      RowE(x);
    } else {
      RowF(x);
    }
  }

  /* ---- the example of appendix C.1 ---- */

  const KEY: seq<Byte> :=
    [0x00, 0x01, 0x02, 0x03, 0x04, 0x05, 0x06, 0x07, 0x08, 0x09, 0x0a, 0x0b, 0x0c, 0x0d, 0x0e, 0x0f]
  const BLOCK: State :=
    [0x00, 0x11, 0x22, 0x33, 0x44, 0x55, 0x66, 0x77, 0x88, 0x99, 0xaa, 0xbb, 0xcc, 0xdd, 0xee, 0xff]

  /** One byte of a mixed column: twice the first, three times the second, and the others. */
  function MixedByte(a: Byte, b: Byte, c: Byte, d: Byte): Byte { XTime(a) ^ (XTime(b) ^ b) ^ (c ^ d) }

  function MixedFour(a: Byte, b: Byte, c: Byte, d: Byte): seq<Byte> {
    [MixedByte(a, b, c, d), MixedByte(b, c, d, a), MixedByte(c, d, a, b), MixedByte(d, a, b, c)]
  }

  lemma TwiceAndThrice(a: Byte)
    ensures Mul(a, 2) == XTime(a) && Mul(a, 3) == XTime(a) ^ a
  {
    hide XTime;
  }

  lemma MixedByteIs(a: Byte, b: Byte, c: Byte, d: Byte)
    ensures Mix(a, b, c, d) == MixedByte(a, b, c, d)
  {
    hide XTime, Mul;
    TwiceAndThrice(a);
    TwiceAndThrice(b);
  }

  lemma MixedColumnsAre(s: State)
    ensures MixColumns(s) == MixedFour(s[0], s[1], s[2], s[3]) + MixedFour(s[4], s[5], s[6], s[7])
                             + MixedFour(s[8], s[9], s[10], s[11]) + MixedFour(s[12], s[13], s[14], s[15])
  {
    hide Mix, MixedByte;
    forall a, b, c, d
      ensures Mix(a, b, c, d) == MixedByte(a, b, c, d)
    {
      MixedByteIs(a, b, c, d);
    }
  }

  function Added(a: State, b: State): State {
    [Add(a[0], b[0]), Add(a[1], b[1]), Add(a[2], b[2]), Add(a[3], b[3]), Add(a[4], b[4]), Add(a[5], b[5]),
     Add(a[6], b[6]), Add(a[7], b[7]), Add(a[8], b[8]), Add(a[9], b[9]), Add(a[10], b[10]), Add(a[11], b[11]),
     Add(a[12], b[12]), Add(a[13], b[13]), Add(a[14], b[14]), Add(a[15], b[15])]
  }

  lemma SumIs(a: State, b: State)
    ensures XorBytes(a, b) == Added(a, b)
  {
    forall k | 0 <= k < 16
      ensures XorBytes(a, b)[k] == Add(a[k], b[k])
    {
    }
    AddedOf(XorBytes(a, b), a, b);
  }

  lemma AddedOf(x: seq<Byte>, a: State, b: State)
    requires |x| == 16 && forall k :: 0 <= k < 16 ==> x[k] == Add(a[k], b[k])
    ensures x == Added(a, b)
  {
    hide Add;
  }

  /** A word as a column of the state. */
  function WordColumn(w: Word): seq<Byte> { [WordByte(w, 0), WordByte(w, 1), WordByte(w, 2), WordByte(w, 3)] }

  function Columns(c0: Word, c1: Word, c2: Word, c3: Word): State {
    WordColumn(c0) + WordColumn(c1) + WordColumn(c2) + WordColumn(c3)
  }

  lemma RoundKeyIs(schedule: seq<Word>, r: nat)
    requires |schedule| == 44 && r <= 10
    ensures RoundKey(schedule, r) ==
            Columns(schedule[4 * r], schedule[4 * r + 1], schedule[4 * r + 2], schedule[4 * r + 3])
  {
    hide WordColumn, RoundKey, Column;
    KeyColumn(schedule, r, 0);
    KeyColumn(schedule, r, 1);
    KeyColumn(schedule, r, 2);
    KeyColumn(schedule, r, 3);
    JoinOfColumns(RoundKey(schedule, r));
  }

  lemma KeyColumn(schedule: seq<Word>, r: nat, c: nat)
    requires |schedule| == 44 && r <= 10 && c < 4
    ensures Column(RoundKey(schedule, r), c) == WordColumn(schedule[4 * r + c])
  {
    hide WordByte, RoundKey;
    KeyByte(schedule, r, c, 0);
    KeyByte(schedule, r, c, 1);
    KeyByte(schedule, r, c, 2);
    KeyByte(schedule, r, c, 3);
  }

  lemma KeyByte(schedule: seq<Word>, r: nat, c: nat, row: nat)
    requires |schedule| == 44 && r <= 10 && c < 4 && row < 4
    ensures RoundKey(schedule, r)[4 * c + row] == WordByte(schedule[4 * r + c], row)
  {
    hide WordByte;
    assert (4 * c + row) / 4 == c && (4 * c + row) % 4 == row;
  }

  /** The four words of round key `r`, and the constant the next one begins with. */
  predicate KeyStands(r: nat, w0: Word, w1: Word, w2: Word, w3: Word, constant: Byte) {
    KeyWord(KEY, 4 * r) == w0 && KeyWord(KEY, 4 * r + 1) == w1 && KeyWord(KEY, 4 * r + 2) == w2 &&
    KeyWord(KEY, 4 * r + 3) == w3 && Rcon(r) == constant
  }

  lemma FirstWord(r: nat, before: Word, previous: Word, constant: Byte)
    requires KeyWord(KEY, 4 * r) == before && KeyWord(KEY, 4 * r + 3) == previous && Rcon(r) == constant
    ensures KeyWord(KEY, 4 * r + 4) == before ^ (SubWord(RotWord(previous)) ^ ((constant as Word) << 24))
    ensures Rcon(r + 1) == XTime(constant)
  {
    hide SubWord, RotWord, Rcon, KeyWord, XTime, Mul;
    KeyWordStep(KEY, 4 * r + 4);
    assert (4 * r + 4) / 4 - 1 == r && (4 * r + 4) % 4 == 0;
    TwiceAndThrice(constant);
  }

  lemma OtherWord(i: nat, before: Word, previous: Word)
    requires i >= 4 && i % 4 != 0 && KeyWord(KEY, i - 4) == before && KeyWord(KEY, i - 1) == previous
    ensures KeyWord(KEY, i) == before ^ previous
  {
    hide SubWord, RotWord, Rcon, KeyWord, Mul;
    KeyWordStep(KEY, i);
  }

  lemma KeyFollows(r: nat, w0: Word, w1: Word, w2: Word, w3: Word, constant: Byte,
                   v0: Word, v1: Word, v2: Word, v3: Word)
    requires KeyStands(r, w0, w1, w2, w3, constant)
    requires v0 == w0 ^ (SubWord(RotWord(w3)) ^ ((constant as Word) << 24))
    requires v1 == w1 ^ v0 && v2 == w2 ^ v1 && v3 == w3 ^ v2
    ensures KeyStands(r + 1, v0, v1, v2, v3, XTime(constant))
  {
    hide SubWord, RotWord, Rcon, KeyWord, XTime;
    FirstWord(r, w0, w3, constant);
    OtherWord(4 * r + 5, w1, v0);
    OtherWord(4 * r + 6, w2, v1);
    OtherWord(4 * r + 7, w3, v2);
  }

  lemma KeyAsBytes(r: nat, w0: Word, w1: Word, w2: Word, w3: Word, constant: Byte)
    requires r <= 10 && KeyStands(r, w0, w1, w2, w3, constant)
    ensures RoundKey(ExpandedKey(KEY), r) == Columns(w0, w1, w2, w3)
  {
    hide KeyWord, Rcon, Columns, RoundKey;
    RoundKeyIs(ExpandedKey(KEY), r);
  }

  lemma Key0()
    ensures KeyStands(0, 0x00010203, 0x04050607, 0x08090a0b, 0x0c0d0e0f, 0x01)
  {
    hide Pack4;
    FirstWords(KEY);
    FirstPacked();
  }

  lemma FirstWords(key: seq<Byte>)
    requires |key| == 16
    ensures KeyWord(key, 0) == Pack4(key[0], key[1], key[2], key[3])
    ensures KeyWord(key, 1) == Pack4(key[4], key[5], key[6], key[7])
    ensures KeyWord(key, 2) == Pack4(key[8], key[9], key[10], key[11])
    ensures KeyWord(key, 3) == Pack4(key[12], key[13], key[14], key[15])
  {
    hide Pack4;
  }

  lemma FirstPacked()
    ensures Pack4(0x00, 0x01, 0x02, 0x03) == 0x00010203 && Pack4(0x04, 0x05, 0x06, 0x07) == 0x04050607 &&
            Pack4(0x08, 0x09, 0x0a, 0x0b) == 0x08090a0b && Pack4(0x0c, 0x0d, 0x0e, 0x0f) == 0x0c0d0e0f
  {
  }

  lemma Key1()
    ensures KeyStands(1, 0xd6aa74fd, 0xd2af72fa, 0xdaa678f1, 0xd6ab76fe, 0x02)
  {
    hide KeyStands;
    Key0();
    KeyFollows(0, 0x00010203, 0x04050607, 0x08090a0b, 0x0c0d0e0f, 0x01,
               0xd6aa74fd, 0xd2af72fa, 0xdaa678f1, 0xd6ab76fe);
  }

  lemma Key2()
    ensures KeyStands(2, 0xb692cf0b, 0x643dbdf1, 0xbe9bc500, 0x6830b3fe, 0x04)
  {
    hide KeyStands;
    Key1();
    KeyFollows(1, 0xd6aa74fd, 0xd2af72fa, 0xdaa678f1, 0xd6ab76fe, 0x02,
               0xb692cf0b, 0x643dbdf1, 0xbe9bc500, 0x6830b3fe);
  }

  lemma Key3()
    ensures KeyStands(3, 0xb6ff744e, 0xd2c2c9bf, 0x6c590cbf, 0x0469bf41, 0x08)
  {
    hide KeyStands;
    Key2();
    KeyFollows(2, 0xb692cf0b, 0x643dbdf1, 0xbe9bc500, 0x6830b3fe, 0x04,
               0xb6ff744e, 0xd2c2c9bf, 0x6c590cbf, 0x0469bf41);
  }

  lemma Key4()
    ensures KeyStands(4, 0x47f7f7bc, 0x95353e03, 0xf96c32bc, 0xfd058dfd, 0x10)
  {
    hide KeyStands;
    Key3();
    KeyFollows(3, 0xb6ff744e, 0xd2c2c9bf, 0x6c590cbf, 0x0469bf41, 0x08,
               0x47f7f7bc, 0x95353e03, 0xf96c32bc, 0xfd058dfd);
  }

  lemma Key5()
    ensures KeyStands(5, 0x3caaa3e8, 0xa99f9deb, 0x50f3af57, 0xadf622aa, 0x20)
  {
    hide KeyStands;
    Key4();
    KeyFollows(4, 0x47f7f7bc, 0x95353e03, 0xf96c32bc, 0xfd058dfd, 0x10,
               0x3caaa3e8, 0xa99f9deb, 0x50f3af57, 0xadf622aa);
  }

  lemma Key6()
    ensures KeyStands(6, 0x5e390f7d, 0xf7a69296, 0xa7553dc1, 0x0aa31f6b, 0x40)
  {
    hide KeyStands;
    Key5();
    KeyFollows(5, 0x3caaa3e8, 0xa99f9deb, 0x50f3af57, 0xadf622aa, 0x20,
               0x5e390f7d, 0xf7a69296, 0xa7553dc1, 0x0aa31f6b);
  }

  lemma Key7()
    ensures KeyStands(7, 0x14f9701a, 0xe35fe28c, 0x440adf4d, 0x4ea9c026, 0x80)
  {
    hide KeyStands;
    Key6();
    KeyFollows(6, 0x5e390f7d, 0xf7a69296, 0xa7553dc1, 0x0aa31f6b, 0x40,
               0x14f9701a, 0xe35fe28c, 0x440adf4d, 0x4ea9c026);
  }

  lemma Key8()
    ensures KeyStands(8, 0x47438735, 0xa41c65b9, 0xe016baf4, 0xaebf7ad2, 0x1b)
  {
    hide KeyStands;
    Key7();
    KeyFollows(7, 0x14f9701a, 0xe35fe28c, 0x440adf4d, 0x4ea9c026, 0x80,
               0x47438735, 0xa41c65b9, 0xe016baf4, 0xaebf7ad2);
  }

  lemma Key9()
    ensures KeyStands(9, 0x549932d1, 0xf0855768, 0x1093ed9c, 0xbe2c974e, 0x36)
  {
    hide KeyStands;
    Key8();
    KeyFollows(8, 0x47438735, 0xa41c65b9, 0xe016baf4, 0xaebf7ad2, 0x1b,
               0x549932d1, 0xf0855768, 0x1093ed9c, 0xbe2c974e);
  }

  lemma Key10()
    ensures KeyStands(10, 0x13111d7f, 0xe3944a17, 0xf307a78b, 0x4d2b30c5, 0x6c)
  {
    hide KeyStands;
    Key9();
    KeyFollows(9, 0x549932d1, 0xf0855768, 0x1093ed9c, 0xbe2c974e, 0x36,
               0x13111d7f, 0xe3944a17, 0xf307a78b, 0x4d2b30c5);
  }

  lemma KeyBytes0()
    ensures RoundKey(ExpandedKey(KEY), 0) ==
            [0x00, 0x01, 0x02, 0x03, 0x04, 0x05, 0x06, 0x07, 0x08, 0x09, 0x0a, 0x0b, 0x0c, 0x0d, 0x0e, 0x0f]
  {
    hide KeyStands, RoundKey, ExpandedKey;
    Key0();
    KeyAsBytes(0, 0x00010203, 0x04050607, 0x08090a0b, 0x0c0d0e0f, 0x01);
  }

  lemma KeyBytes1()
    ensures RoundKey(ExpandedKey(KEY), 1) ==
            [0xd6, 0xaa, 0x74, 0xfd, 0xd2, 0xaf, 0x72, 0xfa, 0xda, 0xa6, 0x78, 0xf1, 0xd6, 0xab, 0x76, 0xfe]
  {
    hide KeyStands, RoundKey, ExpandedKey;
    Key1();
    KeyAsBytes(1, 0xd6aa74fd, 0xd2af72fa, 0xdaa678f1, 0xd6ab76fe, 0x02);
  }

  lemma KeyBytes2()
    ensures RoundKey(ExpandedKey(KEY), 2) ==
            [0xb6, 0x92, 0xcf, 0x0b, 0x64, 0x3d, 0xbd, 0xf1, 0xbe, 0x9b, 0xc5, 0x00, 0x68, 0x30, 0xb3, 0xfe]
  {
    hide KeyStands, RoundKey, ExpandedKey;
    Key2();
    KeyAsBytes(2, 0xb692cf0b, 0x643dbdf1, 0xbe9bc500, 0x6830b3fe, 0x04);
  }

  lemma KeyBytes3()
    ensures RoundKey(ExpandedKey(KEY), 3) ==
            [0xb6, 0xff, 0x74, 0x4e, 0xd2, 0xc2, 0xc9, 0xbf, 0x6c, 0x59, 0x0c, 0xbf, 0x04, 0x69, 0xbf, 0x41]
  {
    hide KeyStands, RoundKey, ExpandedKey;
    Key3();
    KeyAsBytes(3, 0xb6ff744e, 0xd2c2c9bf, 0x6c590cbf, 0x0469bf41, 0x08);
  }

  lemma KeyBytes4()
    ensures RoundKey(ExpandedKey(KEY), 4) ==
            [0x47, 0xf7, 0xf7, 0xbc, 0x95, 0x35, 0x3e, 0x03, 0xf9, 0x6c, 0x32, 0xbc, 0xfd, 0x05, 0x8d, 0xfd]
  {
    hide KeyStands, RoundKey, ExpandedKey;
    Key4();
    KeyAsBytes(4, 0x47f7f7bc, 0x95353e03, 0xf96c32bc, 0xfd058dfd, 0x10);
  }

  lemma KeyBytes5()
    ensures RoundKey(ExpandedKey(KEY), 5) ==
            [0x3c, 0xaa, 0xa3, 0xe8, 0xa9, 0x9f, 0x9d, 0xeb, 0x50, 0xf3, 0xaf, 0x57, 0xad, 0xf6, 0x22, 0xaa]
  {
    hide KeyStands, RoundKey, ExpandedKey;
    Key5();
    KeyAsBytes(5, 0x3caaa3e8, 0xa99f9deb, 0x50f3af57, 0xadf622aa, 0x20);
  }

  lemma KeyBytes6()
    ensures RoundKey(ExpandedKey(KEY), 6) ==
            [0x5e, 0x39, 0x0f, 0x7d, 0xf7, 0xa6, 0x92, 0x96, 0xa7, 0x55, 0x3d, 0xc1, 0x0a, 0xa3, 0x1f, 0x6b]
  {
    hide KeyStands, RoundKey, ExpandedKey;
    Key6();
    KeyAsBytes(6, 0x5e390f7d, 0xf7a69296, 0xa7553dc1, 0x0aa31f6b, 0x40);
  }

  lemma KeyBytes7()
    ensures RoundKey(ExpandedKey(KEY), 7) ==
            [0x14, 0xf9, 0x70, 0x1a, 0xe3, 0x5f, 0xe2, 0x8c, 0x44, 0x0a, 0xdf, 0x4d, 0x4e, 0xa9, 0xc0, 0x26]
  {
    hide KeyStands, RoundKey, ExpandedKey;
    Key7();
    KeyAsBytes(7, 0x14f9701a, 0xe35fe28c, 0x440adf4d, 0x4ea9c026, 0x80);
  }

  lemma KeyBytes8()
    ensures RoundKey(ExpandedKey(KEY), 8) ==
            [0x47, 0x43, 0x87, 0x35, 0xa4, 0x1c, 0x65, 0xb9, 0xe0, 0x16, 0xba, 0xf4, 0xae, 0xbf, 0x7a, 0xd2]
  {
    hide KeyStands, RoundKey, ExpandedKey;
    Key8();
    KeyAsBytes(8, 0x47438735, 0xa41c65b9, 0xe016baf4, 0xaebf7ad2, 0x1b);
  }

  lemma KeyBytes9()
    ensures RoundKey(ExpandedKey(KEY), 9) ==
            [0x54, 0x99, 0x32, 0xd1, 0xf0, 0x85, 0x57, 0x68, 0x10, 0x93, 0xed, 0x9c, 0xbe, 0x2c, 0x97, 0x4e]
  {
    hide KeyStands, RoundKey, ExpandedKey;
    Key9();
    KeyAsBytes(9, 0x549932d1, 0xf0855768, 0x1093ed9c, 0xbe2c974e, 0x36);
  }

  lemma KeyBytes10()
    ensures RoundKey(ExpandedKey(KEY), 10) ==
            [0x13, 0x11, 0x1d, 0x7f, 0xe3, 0x94, 0x4a, 0x17, 0xf3, 0x07, 0xa7, 0x8b, 0x4d, 0x2b, 0x30, 0xc5]
  {
    hide KeyStands, RoundKey, ExpandedKey;
    Key10();
    KeyAsBytes(10, 0x13111d7f, 0xe3944a17, 0xf307a78b, 0x4d2b30c5, 0x6c);
  }

  lemma ShiftedIs(s: State)
    ensures ShiftRows(SubBytes(s)) ==
            [SBox(s[0]), SBox(s[5]), SBox(s[10]), SBox(s[15]), SBox(s[4]), SBox(s[9]), SBox(s[14]), SBox(s[3]),
             SBox(s[8]), SBox(s[13]), SBox(s[2]), SBox(s[7]), SBox(s[12]), SBox(s[1]), SBox(s[6]), SBox(s[11])]
  {
    hide SBox;
  }

  lemma RoundDone(schedule: seq<Word>, r: nat, before: State, shifted: State, mixed: State, key: State)
    requires |schedule| == 44 && 0 < r <= 10 && EncryptRounds(BLOCK, schedule, r - 1) == before
    requires ShiftRows(SubBytes(before)) == shifted && (if r != 10 then MixColumns(shifted) else shifted) == mixed
    requires RoundKey(schedule, r) == key
    ensures EncryptRounds(BLOCK, schedule, r) == Added(mixed, key)
  {
    hide ShiftRows, SubBytes, MixColumns, RoundKey, XorBytes, Added;
    SumIs(mixed, key);
  }

  lemma Round0()
    ensures EncryptRounds(BLOCK, ExpandedKey(KEY), 0) ==
            [0x00, 0x10, 0x20, 0x30, 0x40, 0x50, 0x60, 0x70, 0x80, 0x90, 0xa0, 0xb0, 0xc0, 0xd0, 0xe0, 0xf0]
  {
    hide RoundKey, ExpandedKey, XorBytes;
    KeyBytes0();
    SumIs(BLOCK, [0x00, 0x01, 0x02, 0x03, 0x04, 0x05, 0x06, 0x07, 0x08, 0x09, 0x0a, 0x0b, 0x0c, 0x0d, 0x0e, 0x0f]);
  }

  lemma Substituted1()
    ensures ShiftRows(SubBytes(
                [0x00, 0x10, 0x20, 0x30, 0x40, 0x50, 0x60, 0x70, 0x80, 0x90, 0xa0, 0xb0, 0xc0, 0xd0, 0xe0, 0xf0])) ==
            [0x63, 0x53, 0xe0, 0x8c, 0x09, 0x60, 0xe1, 0x04, 0xcd, 0x70, 0xb7, 0x51, 0xba, 0xca, 0xd0, 0xe7]
  {
    hide ShiftRows, SubBytes;
    ShiftedIs(
        [0x00, 0x10, 0x20, 0x30, 0x40, 0x50, 0x60, 0x70, 0x80, 0x90, 0xa0, 0xb0, 0xc0, 0xd0, 0xe0, 0xf0]);
  }

  lemma Mixed1()
    ensures MixColumns(
                [0x63, 0x53, 0xe0, 0x8c, 0x09, 0x60, 0xe1, 0x04, 0xcd, 0x70, 0xb7, 0x51, 0xba, 0xca, 0xd0, 0xe7]) ==
            [0x5f, 0x72, 0x64, 0x15, 0x57, 0xf5, 0xbc, 0x92, 0xf7, 0xbe, 0x3b, 0x29, 0x1d, 0xb9, 0xf9, 0x1a]
  {
    MixedColumnsAre(
        [0x63, 0x53, 0xe0, 0x8c, 0x09, 0x60, 0xe1, 0x04, 0xcd, 0x70, 0xb7, 0x51, 0xba, 0xca, 0xd0, 0xe7]);
  }

  lemma Round1()
    ensures EncryptRounds(BLOCK, ExpandedKey(KEY), 1) ==
            [0x89, 0xd8, 0x10, 0xe8, 0x85, 0x5a, 0xce, 0x68, 0x2d, 0x18, 0x43, 0xd8, 0xcb, 0x12, 0x8f, 0xe4]
  {
    hide ShiftRows, SubBytes, MixColumns, EncryptRounds, ExpandedKey, RoundKey;
    Round0();
    Substituted1();
    Mixed1();
    KeyBytes1();
    RoundDone(ExpandedKey(KEY), 1,
        [0x00, 0x10, 0x20, 0x30, 0x40, 0x50, 0x60, 0x70, 0x80, 0x90, 0xa0, 0xb0, 0xc0, 0xd0, 0xe0, 0xf0],
        [0x63, 0x53, 0xe0, 0x8c, 0x09, 0x60, 0xe1, 0x04, 0xcd, 0x70, 0xb7, 0x51, 0xba, 0xca, 0xd0, 0xe7],
        [0x5f, 0x72, 0x64, 0x15, 0x57, 0xf5, 0xbc, 0x92, 0xf7, 0xbe, 0x3b, 0x29, 0x1d, 0xb9, 0xf9, 0x1a],
        [0xd6, 0xaa, 0x74, 0xfd, 0xd2, 0xaf, 0x72, 0xfa, 0xda, 0xa6, 0x78, 0xf1, 0xd6, 0xab, 0x76, 0xfe]);
  }

  lemma Substituted2()
    ensures ShiftRows(SubBytes(
                [0x89, 0xd8, 0x10, 0xe8, 0x85, 0x5a, 0xce, 0x68, 0x2d, 0x18, 0x43, 0xd8, 0xcb, 0x12, 0x8f, 0xe4])) ==
            [0xa7, 0xbe, 0x1a, 0x69, 0x97, 0xad, 0x73, 0x9b, 0xd8, 0xc9, 0xca, 0x45, 0x1f, 0x61, 0x8b, 0x61]
  {
    hide ShiftRows, SubBytes;
    ShiftedIs(
        [0x89, 0xd8, 0x10, 0xe8, 0x85, 0x5a, 0xce, 0x68, 0x2d, 0x18, 0x43, 0xd8, 0xcb, 0x12, 0x8f, 0xe4]);
  }

  lemma Mixed2()
    ensures MixColumns(
                [0xa7, 0xbe, 0x1a, 0x69, 0x97, 0xad, 0x73, 0x9b, 0xd8, 0xc9, 0xca, 0x45, 0x1f, 0x61, 0x8b, 0x61]) ==
            [0xff, 0x87, 0x96, 0x84, 0x31, 0xd8, 0x6a, 0x51, 0x64, 0x51, 0x51, 0xfa, 0x77, 0x3a, 0xd0, 0x09]
  {
    MixedColumnsAre(
        [0xa7, 0xbe, 0x1a, 0x69, 0x97, 0xad, 0x73, 0x9b, 0xd8, 0xc9, 0xca, 0x45, 0x1f, 0x61, 0x8b, 0x61]);
  }

  lemma Round2()
    ensures EncryptRounds(BLOCK, ExpandedKey(KEY), 2) ==
            [0x49, 0x15, 0x59, 0x8f, 0x55, 0xe5, 0xd7, 0xa0, 0xda, 0xca, 0x94, 0xfa, 0x1f, 0x0a, 0x63, 0xf7]
  {
    hide ShiftRows, SubBytes, MixColumns, EncryptRounds, ExpandedKey, RoundKey;
    Round1();
    Substituted2();
    Mixed2();
    KeyBytes2();
    RoundDone(ExpandedKey(KEY), 2,
        [0x89, 0xd8, 0x10, 0xe8, 0x85, 0x5a, 0xce, 0x68, 0x2d, 0x18, 0x43, 0xd8, 0xcb, 0x12, 0x8f, 0xe4],
        [0xa7, 0xbe, 0x1a, 0x69, 0x97, 0xad, 0x73, 0x9b, 0xd8, 0xc9, 0xca, 0x45, 0x1f, 0x61, 0x8b, 0x61],
        [0xff, 0x87, 0x96, 0x84, 0x31, 0xd8, 0x6a, 0x51, 0x64, 0x51, 0x51, 0xfa, 0x77, 0x3a, 0xd0, 0x09],
        [0xb6, 0x92, 0xcf, 0x0b, 0x64, 0x3d, 0xbd, 0xf1, 0xbe, 0x9b, 0xc5, 0x00, 0x68, 0x30, 0xb3, 0xfe]);
  }

  lemma Substituted3()
    ensures ShiftRows(SubBytes(
                [0x49, 0x15, 0x59, 0x8f, 0x55, 0xe5, 0xd7, 0xa0, 0xda, 0xca, 0x94, 0xfa, 0x1f, 0x0a, 0x63, 0xf7])) ==
            [0x3b, 0xd9, 0x22, 0x68, 0xfc, 0x74, 0xfb, 0x73, 0x57, 0x67, 0xcb, 0xe0, 0xc0, 0x59, 0x0e, 0x2d]
  {
    hide ShiftRows, SubBytes;
    ShiftedIs(
        [0x49, 0x15, 0x59, 0x8f, 0x55, 0xe5, 0xd7, 0xa0, 0xda, 0xca, 0x94, 0xfa, 0x1f, 0x0a, 0x63, 0xf7]);
  }

  lemma Mixed3()
    ensures MixColumns(
                [0x3b, 0xd9, 0x22, 0x68, 0xfc, 0x74, 0xfb, 0x73, 0x57, 0x67, 0xcb, 0xe0, 0xc0, 0x59, 0x0e, 0x2d]) ==
            [0x4c, 0x9c, 0x1e, 0x66, 0xf7, 0x71, 0xf0, 0x76, 0x2c, 0x3f, 0x86, 0x8e, 0x53, 0x4d, 0xf2, 0x56]
  {
    MixedColumnsAre(
        [0x3b, 0xd9, 0x22, 0x68, 0xfc, 0x74, 0xfb, 0x73, 0x57, 0x67, 0xcb, 0xe0, 0xc0, 0x59, 0x0e, 0x2d]);
  }

  lemma Round3()
    ensures EncryptRounds(BLOCK, ExpandedKey(KEY), 3) ==
            [0xfa, 0x63, 0x6a, 0x28, 0x25, 0xb3, 0x39, 0xc9, 0x40, 0x66, 0x8a, 0x31, 0x57, 0x24, 0x4d, 0x17]
  {
    hide ShiftRows, SubBytes, MixColumns, EncryptRounds, ExpandedKey, RoundKey;
    Round2();
    Substituted3();
    Mixed3();
    KeyBytes3();
    RoundDone(ExpandedKey(KEY), 3,
        [0x49, 0x15, 0x59, 0x8f, 0x55, 0xe5, 0xd7, 0xa0, 0xda, 0xca, 0x94, 0xfa, 0x1f, 0x0a, 0x63, 0xf7],
        [0x3b, 0xd9, 0x22, 0x68, 0xfc, 0x74, 0xfb, 0x73, 0x57, 0x67, 0xcb, 0xe0, 0xc0, 0x59, 0x0e, 0x2d],
        [0x4c, 0x9c, 0x1e, 0x66, 0xf7, 0x71, 0xf0, 0x76, 0x2c, 0x3f, 0x86, 0x8e, 0x53, 0x4d, 0xf2, 0x56],
        [0xb6, 0xff, 0x74, 0x4e, 0xd2, 0xc2, 0xc9, 0xbf, 0x6c, 0x59, 0x0c, 0xbf, 0x04, 0x69, 0xbf, 0x41]);
  }

  lemma Substituted4()
    ensures ShiftRows(SubBytes(
                [0xfa, 0x63, 0x6a, 0x28, 0x25, 0xb3, 0x39, 0xc9, 0x40, 0x66, 0x8a, 0x31, 0x57, 0x24, 0x4d, 0x17])) ==
            [0x2d, 0x6d, 0x7e, 0xf0, 0x3f, 0x33, 0xe3, 0x34, 0x09, 0x36, 0x02, 0xdd, 0x5b, 0xfb, 0x12, 0xc7]
  {
    hide ShiftRows, SubBytes;
    ShiftedIs(
        [0xfa, 0x63, 0x6a, 0x28, 0x25, 0xb3, 0x39, 0xc9, 0x40, 0x66, 0x8a, 0x31, 0x57, 0x24, 0x4d, 0x17]);
  }

  lemma Mixed4()
    ensures MixColumns(
                [0x2d, 0x6d, 0x7e, 0xf0, 0x3f, 0x33, 0xe3, 0x34, 0x09, 0x36, 0x02, 0xdd, 0x5b, 0xfb, 0x12, 0xc7]) ==
            [0x63, 0x85, 0xb7, 0x9f, 0xfc, 0x53, 0x8d, 0xf9, 0x97, 0xbe, 0x47, 0x8e, 0x75, 0x47, 0xd6, 0x91]
  {
    MixedColumnsAre(
        [0x2d, 0x6d, 0x7e, 0xf0, 0x3f, 0x33, 0xe3, 0x34, 0x09, 0x36, 0x02, 0xdd, 0x5b, 0xfb, 0x12, 0xc7]);
  }

  lemma Round4()
    ensures EncryptRounds(BLOCK, ExpandedKey(KEY), 4) ==
            [0x24, 0x72, 0x40, 0x23, 0x69, 0x66, 0xb3, 0xfa, 0x6e, 0xd2, 0x75, 0x32, 0x88, 0x42, 0x5b, 0x6c]
  {
    hide ShiftRows, SubBytes, MixColumns, EncryptRounds, ExpandedKey, RoundKey;
    Round3();
    Substituted4();
    Mixed4();
    KeyBytes4();
    RoundDone(ExpandedKey(KEY), 4,
        [0xfa, 0x63, 0x6a, 0x28, 0x25, 0xb3, 0x39, 0xc9, 0x40, 0x66, 0x8a, 0x31, 0x57, 0x24, 0x4d, 0x17],
        [0x2d, 0x6d, 0x7e, 0xf0, 0x3f, 0x33, 0xe3, 0x34, 0x09, 0x36, 0x02, 0xdd, 0x5b, 0xfb, 0x12, 0xc7],
        [0x63, 0x85, 0xb7, 0x9f, 0xfc, 0x53, 0x8d, 0xf9, 0x97, 0xbe, 0x47, 0x8e, 0x75, 0x47, 0xd6, 0x91],
        [0x47, 0xf7, 0xf7, 0xbc, 0x95, 0x35, 0x3e, 0x03, 0xf9, 0x6c, 0x32, 0xbc, 0xfd, 0x05, 0x8d, 0xfd]);
  }

  lemma Substituted5()
    ensures ShiftRows(SubBytes(
                [0x24, 0x72, 0x40, 0x23, 0x69, 0x66, 0xb3, 0xfa, 0x6e, 0xd2, 0x75, 0x32, 0x88, 0x42, 0x5b, 0x6c])) ==
            [0x36, 0x33, 0x9d, 0x50, 0xf9, 0xb5, 0x39, 0x26, 0x9f, 0x2c, 0x09, 0x2d, 0xc4, 0x40, 0x6d, 0x23]
  {
    hide ShiftRows, SubBytes;
    ShiftedIs(
        [0x24, 0x72, 0x40, 0x23, 0x69, 0x66, 0xb3, 0xfa, 0x6e, 0xd2, 0x75, 0x32, 0x88, 0x42, 0x5b, 0x6c]);
  }

  lemma Mixed5()
    ensures MixColumns(
                [0x36, 0x33, 0x9d, 0x50, 0xf9, 0xb5, 0x39, 0x26, 0x9f, 0x2c, 0x09, 0x2d, 0xc4, 0x40, 0x6d, 0x23]) ==
            [0xf4, 0xbc, 0xd4, 0x54, 0x32, 0xe5, 0x54, 0xd0, 0x75, 0xf1, 0xd6, 0xc5, 0x1d, 0xd0, 0x3b, 0x3c]
  {
    MixedColumnsAre(
        [0x36, 0x33, 0x9d, 0x50, 0xf9, 0xb5, 0x39, 0x26, 0x9f, 0x2c, 0x09, 0x2d, 0xc4, 0x40, 0x6d, 0x23]);
  }

  lemma Round5()
    ensures EncryptRounds(BLOCK, ExpandedKey(KEY), 5) ==
            [0xc8, 0x16, 0x77, 0xbc, 0x9b, 0x7a, 0xc9, 0x3b, 0x25, 0x02, 0x79, 0x92, 0xb0, 0x26, 0x19, 0x96]
  {
    hide ShiftRows, SubBytes, MixColumns, EncryptRounds, ExpandedKey, RoundKey;
    Round4();
    Substituted5();
    Mixed5();
    KeyBytes5();
    RoundDone(ExpandedKey(KEY), 5,
        [0x24, 0x72, 0x40, 0x23, 0x69, 0x66, 0xb3, 0xfa, 0x6e, 0xd2, 0x75, 0x32, 0x88, 0x42, 0x5b, 0x6c],
        [0x36, 0x33, 0x9d, 0x50, 0xf9, 0xb5, 0x39, 0x26, 0x9f, 0x2c, 0x09, 0x2d, 0xc4, 0x40, 0x6d, 0x23],
        [0xf4, 0xbc, 0xd4, 0x54, 0x32, 0xe5, 0x54, 0xd0, 0x75, 0xf1, 0xd6, 0xc5, 0x1d, 0xd0, 0x3b, 0x3c],
        [0x3c, 0xaa, 0xa3, 0xe8, 0xa9, 0x9f, 0x9d, 0xeb, 0x50, 0xf3, 0xaf, 0x57, 0xad, 0xf6, 0x22, 0xaa]);
  }

  lemma Substituted6()
    ensures ShiftRows(SubBytes(
                [0xc8, 0x16, 0x77, 0xbc, 0x9b, 0x7a, 0xc9, 0x3b, 0x25, 0x02, 0x79, 0x92, 0xb0, 0x26, 0x19, 0x96])) ==
            [0xe8, 0xda, 0xb6, 0x90, 0x14, 0x77, 0xd4, 0x65, 0x3f, 0xf7, 0xf5, 0xe2, 0xe7, 0x47, 0xdd, 0x4f]
  {
    hide ShiftRows, SubBytes;
    ShiftedIs(
        [0xc8, 0x16, 0x77, 0xbc, 0x9b, 0x7a, 0xc9, 0x3b, 0x25, 0x02, 0x79, 0x92, 0xb0, 0x26, 0x19, 0x96]);
  }

  lemma Mixed6()
    ensures MixColumns(
                [0xe8, 0xda, 0xb6, 0x90, 0x14, 0x77, 0xd4, 0x65, 0x3f, 0xf7, 0xf5, 0xe2, 0xe7, 0x47, 0xdd, 0x4f]) ==
            [0x98, 0x16, 0xee, 0x74, 0x00, 0xf8, 0x7f, 0x55, 0x6b, 0x2c, 0x04, 0x9c, 0x8e, 0x5a, 0xd0, 0x36]
  {
    MixedColumnsAre(
        [0xe8, 0xda, 0xb6, 0x90, 0x14, 0x77, 0xd4, 0x65, 0x3f, 0xf7, 0xf5, 0xe2, 0xe7, 0x47, 0xdd, 0x4f]);
  }

  lemma Round6()
    ensures EncryptRounds(BLOCK, ExpandedKey(KEY), 6) ==
            [0xc6, 0x2f, 0xe1, 0x09, 0xf7, 0x5e, 0xed, 0xc3, 0xcc, 0x79, 0x39, 0x5d, 0x84, 0xf9, 0xcf, 0x5d]
  {
    hide ShiftRows, SubBytes, MixColumns, EncryptRounds, ExpandedKey, RoundKey;
    Round5();
    Substituted6();
    Mixed6();
    KeyBytes6();
    RoundDone(ExpandedKey(KEY), 6,
        [0xc8, 0x16, 0x77, 0xbc, 0x9b, 0x7a, 0xc9, 0x3b, 0x25, 0x02, 0x79, 0x92, 0xb0, 0x26, 0x19, 0x96],
        [0xe8, 0xda, 0xb6, 0x90, 0x14, 0x77, 0xd4, 0x65, 0x3f, 0xf7, 0xf5, 0xe2, 0xe7, 0x47, 0xdd, 0x4f],
        [0x98, 0x16, 0xee, 0x74, 0x00, 0xf8, 0x7f, 0x55, 0x6b, 0x2c, 0x04, 0x9c, 0x8e, 0x5a, 0xd0, 0x36],
        [0x5e, 0x39, 0x0f, 0x7d, 0xf7, 0xa6, 0x92, 0x96, 0xa7, 0x55, 0x3d, 0xc1, 0x0a, 0xa3, 0x1f, 0x6b]);
  }

  lemma Substituted7()
    ensures ShiftRows(SubBytes(
                [0xc6, 0x2f, 0xe1, 0x09, 0xf7, 0x5e, 0xed, 0xc3, 0xcc, 0x79, 0x39, 0x5d, 0x84, 0xf9, 0xcf, 0x5d])) ==
            [0xb4, 0x58, 0x12, 0x4c, 0x68, 0xb6, 0x8a, 0x01, 0x4b, 0x99, 0xf8, 0x2e, 0x5f, 0x15, 0x55, 0x4c]
  {
    hide ShiftRows, SubBytes;
    ShiftedIs(
        [0xc6, 0x2f, 0xe1, 0x09, 0xf7, 0x5e, 0xed, 0xc3, 0xcc, 0x79, 0x39, 0x5d, 0x84, 0xf9, 0xcf, 0x5d]);
  }

  lemma Mixed7()
    ensures MixColumns(
                [0xb4, 0x58, 0x12, 0x4c, 0x68, 0xb6, 0x8a, 0x01, 0x4b, 0x99, 0xf8, 0x2e, 0x5f, 0x15, 0x55, 0x4c]) ==
            [0xc5, 0x7e, 0x1c, 0x15, 0x9a, 0x9b, 0xd2, 0x86, 0xf0, 0x5f, 0x4b, 0xe0, 0x98, 0xc6, 0x34, 0x39]
  {
    MixedColumnsAre(
        [0xb4, 0x58, 0x12, 0x4c, 0x68, 0xb6, 0x8a, 0x01, 0x4b, 0x99, 0xf8, 0x2e, 0x5f, 0x15, 0x55, 0x4c]);
  }

  lemma Round7()
    ensures EncryptRounds(BLOCK, ExpandedKey(KEY), 7) ==
            [0xd1, 0x87, 0x6c, 0x0f, 0x79, 0xc4, 0x30, 0x0a, 0xb4, 0x55, 0x94, 0xad, 0xd6, 0x6f, 0xf4, 0x1f]
  {
    hide ShiftRows, SubBytes, MixColumns, EncryptRounds, ExpandedKey, RoundKey;
    Round6();
    Substituted7();
    Mixed7();
    KeyBytes7();
    RoundDone(ExpandedKey(KEY), 7,
        [0xc6, 0x2f, 0xe1, 0x09, 0xf7, 0x5e, 0xed, 0xc3, 0xcc, 0x79, 0x39, 0x5d, 0x84, 0xf9, 0xcf, 0x5d],
        [0xb4, 0x58, 0x12, 0x4c, 0x68, 0xb6, 0x8a, 0x01, 0x4b, 0x99, 0xf8, 0x2e, 0x5f, 0x15, 0x55, 0x4c],
        [0xc5, 0x7e, 0x1c, 0x15, 0x9a, 0x9b, 0xd2, 0x86, 0xf0, 0x5f, 0x4b, 0xe0, 0x98, 0xc6, 0x34, 0x39],
        [0x14, 0xf9, 0x70, 0x1a, 0xe3, 0x5f, 0xe2, 0x8c, 0x44, 0x0a, 0xdf, 0x4d, 0x4e, 0xa9, 0xc0, 0x26]);
  }

  lemma Substituted8()
    ensures ShiftRows(SubBytes(
                [0xd1, 0x87, 0x6c, 0x0f, 0x79, 0xc4, 0x30, 0x0a, 0xb4, 0x55, 0x94, 0xad, 0xd6, 0x6f, 0xf4, 0x1f])) ==
            [0x3e, 0x1c, 0x22, 0xc0, 0xb6, 0xfc, 0xbf, 0x76, 0x8d, 0xa8, 0x50, 0x67, 0xf6, 0x17, 0x04, 0x95]
  {
    hide ShiftRows, SubBytes;
    ShiftedIs(
        [0xd1, 0x87, 0x6c, 0x0f, 0x79, 0xc4, 0x30, 0x0a, 0xb4, 0x55, 0x94, 0xad, 0xd6, 0x6f, 0xf4, 0x1f]);
  }

  lemma Mixed8()
    ensures MixColumns(
                [0x3e, 0x1c, 0x22, 0xc0, 0xb6, 0xfc, 0xbf, 0x76, 0x8d, 0xa8, 0x50, 0x67, 0xf6, 0x17, 0x04, 0x95]) ==
            [0xba, 0xa0, 0x3d, 0xe7, 0xa1, 0xf9, 0xb5, 0x6e, 0xd5, 0x51, 0x2c, 0xba, 0x5f, 0x41, 0x4d, 0x23]
  {
    MixedColumnsAre(
        [0x3e, 0x1c, 0x22, 0xc0, 0xb6, 0xfc, 0xbf, 0x76, 0x8d, 0xa8, 0x50, 0x67, 0xf6, 0x17, 0x04, 0x95]);
  }

  lemma Round8()
    ensures EncryptRounds(BLOCK, ExpandedKey(KEY), 8) ==
            [0xfd, 0xe3, 0xba, 0xd2, 0x05, 0xe5, 0xd0, 0xd7, 0x35, 0x47, 0x96, 0x4e, 0xf1, 0xfe, 0x37, 0xf1]
  {
    hide ShiftRows, SubBytes, MixColumns, EncryptRounds, ExpandedKey, RoundKey;
    Round7();
    Substituted8();
    Mixed8();
    KeyBytes8();
    RoundDone(ExpandedKey(KEY), 8,
        [0xd1, 0x87, 0x6c, 0x0f, 0x79, 0xc4, 0x30, 0x0a, 0xb4, 0x55, 0x94, 0xad, 0xd6, 0x6f, 0xf4, 0x1f],
        [0x3e, 0x1c, 0x22, 0xc0, 0xb6, 0xfc, 0xbf, 0x76, 0x8d, 0xa8, 0x50, 0x67, 0xf6, 0x17, 0x04, 0x95],
        [0xba, 0xa0, 0x3d, 0xe7, 0xa1, 0xf9, 0xb5, 0x6e, 0xd5, 0x51, 0x2c, 0xba, 0x5f, 0x41, 0x4d, 0x23],
        [0x47, 0x43, 0x87, 0x35, 0xa4, 0x1c, 0x65, 0xb9, 0xe0, 0x16, 0xba, 0xf4, 0xae, 0xbf, 0x7a, 0xd2]);
  }

  lemma Substituted9()
    ensures ShiftRows(SubBytes(
                [0xfd, 0xe3, 0xba, 0xd2, 0x05, 0xe5, 0xd0, 0xd7, 0x35, 0x47, 0x96, 0x4e, 0xf1, 0xfe, 0x37, 0xf1])) ==
            [0x54, 0xd9, 0x90, 0xa1, 0x6b, 0xa0, 0x9a, 0xb5, 0x96, 0xbb, 0xf4, 0x0e, 0xa1, 0x11, 0x70, 0x2f]
  {
    hide ShiftRows, SubBytes;
    ShiftedIs(
        [0xfd, 0xe3, 0xba, 0xd2, 0x05, 0xe5, 0xd0, 0xd7, 0x35, 0x47, 0x96, 0x4e, 0xf1, 0xfe, 0x37, 0xf1]);
  }

  lemma Mixed9()
    ensures MixColumns(
                [0x54, 0xd9, 0x90, 0xa1, 0x6b, 0xa0, 0x9a, 0xb5, 0x96, 0xbb, 0xf4, 0x0e, 0xa1, 0x11, 0x70, 0x2f]) ==
            [0xe9, 0xf7, 0x4e, 0xec, 0x02, 0x30, 0x20, 0xf6, 0x1b, 0xf2, 0xcc, 0xf2, 0x35, 0x3c, 0x21, 0xc7]
  {
    MixedColumnsAre(
        [0x54, 0xd9, 0x90, 0xa1, 0x6b, 0xa0, 0x9a, 0xb5, 0x96, 0xbb, 0xf4, 0x0e, 0xa1, 0x11, 0x70, 0x2f]);
  }

  lemma Round9()
    ensures EncryptRounds(BLOCK, ExpandedKey(KEY), 9) ==
            [0xbd, 0x6e, 0x7c, 0x3d, 0xf2, 0xb5, 0x77, 0x9e, 0x0b, 0x61, 0x21, 0x6e, 0x8b, 0x10, 0xb6, 0x89]
  {
    hide ShiftRows, SubBytes, MixColumns, EncryptRounds, ExpandedKey, RoundKey;
    Round8();
    Substituted9();
    Mixed9();
    KeyBytes9();
    RoundDone(ExpandedKey(KEY), 9,
        [0xfd, 0xe3, 0xba, 0xd2, 0x05, 0xe5, 0xd0, 0xd7, 0x35, 0x47, 0x96, 0x4e, 0xf1, 0xfe, 0x37, 0xf1],
        [0x54, 0xd9, 0x90, 0xa1, 0x6b, 0xa0, 0x9a, 0xb5, 0x96, 0xbb, 0xf4, 0x0e, 0xa1, 0x11, 0x70, 0x2f],
        [0xe9, 0xf7, 0x4e, 0xec, 0x02, 0x30, 0x20, 0xf6, 0x1b, 0xf2, 0xcc, 0xf2, 0x35, 0x3c, 0x21, 0xc7],
        [0x54, 0x99, 0x32, 0xd1, 0xf0, 0x85, 0x57, 0x68, 0x10, 0x93, 0xed, 0x9c, 0xbe, 0x2c, 0x97, 0x4e]);
  }

  lemma Substituted10()
    ensures ShiftRows(SubBytes(
                [0xbd, 0x6e, 0x7c, 0x3d, 0xf2, 0xb5, 0x77, 0x9e, 0x0b, 0x61, 0x21, 0x6e, 0x8b, 0x10, 0xb6, 0x89])) ==
            [0x7a, 0xd5, 0xfd, 0xa7, 0x89, 0xef, 0x4e, 0x27, 0x2b, 0xca, 0x10, 0x0b, 0x3d, 0x9f, 0xf5, 0x9f]
  {
    hide ShiftRows, SubBytes;
    ShiftedIs(
        [0xbd, 0x6e, 0x7c, 0x3d, 0xf2, 0xb5, 0x77, 0x9e, 0x0b, 0x61, 0x21, 0x6e, 0x8b, 0x10, 0xb6, 0x89]);
  }

  lemma Round10()
    ensures EncryptRounds(BLOCK, ExpandedKey(KEY), 10) ==
            [0x69, 0xc4, 0xe0, 0xd8, 0x6a, 0x7b, 0x04, 0x30, 0xd8, 0xcd, 0xb7, 0x80, 0x70, 0xb4, 0xc5, 0x5a]
  {
    hide ShiftRows, SubBytes, MixColumns, EncryptRounds, ExpandedKey, RoundKey;
    Round9();
    Substituted10();
    KeyBytes10();
    RoundDone(ExpandedKey(KEY), 10,
        [0xbd, 0x6e, 0x7c, 0x3d, 0xf2, 0xb5, 0x77, 0x9e, 0x0b, 0x61, 0x21, 0x6e, 0x8b, 0x10, 0xb6, 0x89],
        [0x7a, 0xd5, 0xfd, 0xa7, 0x89, 0xef, 0x4e, 0x27, 0x2b, 0xca, 0x10, 0x0b, 0x3d, 0x9f, 0xf5, 0x9f],
        [0x7a, 0xd5, 0xfd, 0xa7, 0x89, 0xef, 0x4e, 0x27, 0x2b, 0xca, 0x10, 0x0b, 0x3d, 0x9f, 0xf5, 0x9f],
        [0x13, 0x11, 0x1d, 0x7f, 0xe3, 0x94, 0x4a, 0x17, 0xf3, 0x07, 0xa7, 0x8b, 0x4d, 0x2b, 0x30, 0xc5]);
  }

  /** What appendix C.1 of FIPS 197 prints. */
  lemma KnownAnswer()
    ensures Encrypt(ExpandedKey(
                [0x00, 0x01, 0x02, 0x03, 0x04, 0x05, 0x06, 0x07, 0x08, 0x09, 0x0a, 0x0b, 0x0c, 0x0d, 0x0e, 0x0f]),
                [0x00, 0x11, 0x22, 0x33, 0x44, 0x55, 0x66, 0x77, 0x88, 0x99, 0xaa, 0xbb, 0xcc, 0xdd, 0xee, 0xff]) ==
            [0x69, 0xc4, 0xe0, 0xd8, 0x6a, 0x7b, 0x04, 0x30, 0xd8, 0xcd, 0xb7, 0x80, 0x70, 0xb4, 0xc5, 0x5a]
  {
    hide EncryptRounds, ExpandedKey;
    Round10();
  }
}
