/** MD5 gives the digest RFC 1321 prints for the message "abc" (appendix A.5), step by step. */
module Md5Standard {
  import opened Bytes
  import opened Md5

  /** It is one block when padded. */
  const X: Block := [0x80636261, 0, 0, 0, 0, 0, 0, 0, 0, 0, 0, 0, 0, 0, 24, 0]

  predicate Stands(i: nat, a: Word, b: Word, c: Word, d: Word)
    requires i <= 64
  {
    Steps(i, Names(0x67452301, 0xefcdab89, 0x98badcfe, 0x10325476), X) == Names(a, b, c, d)
  }

  /** One more step, from its constants and what they give. */
  lemma Next(i: nat, a: Word, b: Word, c: Word, d: Word, f: Word, x: Word, t: Word, s: nat, sum: Word)
    requires i < 64 && Stands(i, a, b, c, d)
    requires Mixed(i, Names(a, b, c, d)) == f && X[Index(i)] == x && Sine(i) == t && Turn(i) == s
    requires Summed(a, b, f, x, t, s) == sum
    ensures Stands(i + 1, d, sum, b, c)
  {
    hide Mixed, Index, Sine, Turn, Summed;
    OneStep(i, Names(0x67452301, 0xefcdab89, 0x98badcfe, 0x10325476), X);
  }

  lemma Steps2()
    ensures Stands(2, 0x98badcfe, 0x344a8432, 0xd6d117b4, 0xefcdab89)
  {
    hide Stands;
    Start();
    Next(0, 0x67452301, 0xefcdab89, 0x98badcfe, 0x10325476, 0x98badcfe,
         0x80636261, 0xd76aa478, 7, 0xd6d117b4);
    Next(1, 0x10325476, 0xd6d117b4, 0xefcdab89, 0x98badcfe, 0xceebcbca,
         0, 0xe8c7b756, 12, 0x344a8432);
  }

  lemma Steps4()
    ensures Stands(4, 0xd6d117b4, 0x7ad956f2, 0x2f6fbd72, 0x344a8432)
  {
    hide Stands;
    Steps2();
    Next(2, 0x98badcfe, 0x344a8432, 0xd6d117b4, 0xefcdab89, 0xdfc52fb9,
         0, 0x242070db, 17, 0x2f6fbd72);
    Next(3, 0xefcdab89, 0x2f6fbd72, 0x344a8432, 0xd6d117b4, 0xf4da86b6,
         0, 0xc1bdceee, 22, 0x7ad956f2);
  }

  lemma Steps6()
    ensures Stands(6, 0x2f6fbd72, 0x8bac3051, 0xc73741ef, 0x7ad956f2)
  {
    hide Stands;
    Steps4();
    Next(4, 0xd6d117b4, 0x7ad956f2, 0x2f6fbd72, 0x344a8432, 0x2e4b9472,
         0, 0xf57c0faf, 7, 0xc73741ef);
    Next(5, 0x344a8432, 0xc73741ef, 0x7ad956f2, 0x2f6fbd72, 0x6a59fcf2,
         0, 0x4787c62a, 12, 0x8bac3051);
  }

  lemma Steps8()
    ensures Stands(8, 0xc73741ef, 0x928d99f6, 0x207dc67b, 0x8bac3051)
  {
    hide Stands;
    Steps6();
    Next(6, 0x2f6fbd72, 0x8bac3051, 0xc73741ef, 0x7ad956f2, 0xf37546e3,
         0, 0xa8304613, 17, 0x207dc67b);
    Next(7, 0x7ad956f2, 0x207dc67b, 0x8bac3051, 0xc73741ef, 0xc72e01d5,
         0, 0xfd469501, 22, 0x928d99f6);
  }

  lemma Steps10()
    ensures Stands(10, 0x207dc67b, 0x74e2f284, 0x854b3712, 0x928d99f6)
  {
    hide Stands;
    Steps8();
    Next(8, 0xc73741ef, 0x928d99f6, 0x207dc67b, 0x8bac3051, 0x092da073,
         0, 0x698098d8, 7, 0x854b3712);
    Next(9, 0x8bac3051, 0x854b3712, 0x928d99f6, 0x207dc67b, 0xa03dd17b,
         0, 0x8b44f7af, 12, 0x74e2f284);
  }

  lemma Steps12()
    ensures Stands(12, 0x854b3712, 0x5ed49596, 0x3020401c, 0x74e2f284)
  {
    hide Stands;
    Steps10();
    Next(10, 0x207dc67b, 0x74e2f284, 0x854b3712, 0x928d99f6, 0x864f3b72,
         0, 0xffff5bb1, 17, 0x3020401c);
    Next(11, 0x928d99f6, 0x3020401c, 0x74e2f284, 0x854b3712, 0xb56b7706,
         0, 0x895cd7be, 22, 0x5ed49596);
  }

  lemma Steps14()
    ensures Stands(14, 0x3020401c, 0xa1051895, 0xdda9b9a6, 0x5ed49596)
  {
    hide Stands;
    Steps12();
    Next(12, 0x854b3712, 0x5ed49596, 0x3020401c, 0x74e2f284, 0x30226214,
         0, 0x6b901122, 7, 0xdda9b9a6);
    Next(13, 0x74e2f284, 0xdda9b9a6, 0x5ed49596, 0x3020401c, 0x7c80d19e,
         0, 0xfd987193, 12, 0xa1051895);
  }

  lemma Steps16()
    ensures Stands(16, 0xdda9b9a6, 0x72aff2e0, 0xe396856b, 0xa1051895)
  {
    hide Stands;
    Steps14();
    Next(14, 0x3020401c, 0xa1051895, 0xdda9b9a6, 0x5ed49596, 0xdfd19d86,
         24, 0xa679438e, 17, 0xe396856b);
    Next(15, 0x5ed49596, 0xe396856b, 0xa1051895, 0xdda9b9a6, 0xbd2d3885,
         0, 0x49b40821, 22, 0x72aff2e0);
  }

  lemma Steps18()
    ensures Stands(18, 0xe396856b, 0x4a1d804e, 0x3e9e9126, 0x72aff2e0)
  {
    hide Stands;
    Steps16();
    Next(16, 0xdda9b9a6, 0x72aff2e0, 0xe396856b, 0xa1051895, 0x629795ea,
         0, 0xf61e2562, 5, 0x3e9e9126);
    Next(17, 0xa1051895, 0x3e9e9126, 0x72aff2e0, 0xe396856b, 0x32bff3a2,
         0, 0xc040b340, 9, 0x4a1d804e);
  }

  lemma Steps20()
    ensures Stands(20, 0x3e9e9126, 0xb5b204e4, 0xe25e1652, 0x4a1d804e)
  {
    hide Stands;
    Steps18();
    Next(18, 0xe396856b, 0x4a1d804e, 0x3e9e9126, 0x72aff2e0, 0x4e1d8146,
         0, 0x265e5a51, 14, 0xe25e1652);
    Next(19, 0x72aff2e0, 0xe25e1652, 0x4a1d804e, 0x3e9e9126, 0x621f104a,
         0x80636261, 0xe9b6c7aa, 20, 0xb5b204e4);
  }

  lemma Steps22()
    ensures Stands(22, 0xe25e1652, 0x6d002f1e, 0x59a8ffda, 0xb5b204e4)
  {
    hide Stands;
    Steps20();
    Next(20, 0x3e9e9126, 0xb5b204e4, 0xe25e1652, 0x4a1d804e, 0xa0521654,
         0, 0xd62f105d, 5, 0x59a8ffda);
    Next(21, 0x4a1d804e, 0x59a8ffda, 0xb5b204e4, 0xe25e1652, 0x55a816f6,
         0, 0x02441453, 9, 0x6d002f1e);
  }

  lemma Steps24()
    ensures Stands(24, 0x59a8ffda, 0x47092c07, 0xabfc7920, 0x6d002f1e)
  {
    hide Stands;
    Steps22();
    Next(22, 0xe25e1652, 0x6d002f1e, 0x59a8ffda, 0xb5b204e4, 0x6d08ff1e,
         0, 0xd8a1e681, 14, 0xabfc7920);
    Next(23, 0xb5b204e4, 0xabfc7920, 0x6d002f1e, 0x59a8ffda, 0x2da87904,
         0, 0xe7d3fbc8, 20, 0x47092c07);
  }

  lemma Steps26()
    ensures Stands(26, 0xabfc7920, 0x09388eff, 0xb7f268cf, 0x47092c07)
  {
    hide Stands;
    Steps24();
    Next(24, 0x59a8ffda, 0x47092c07, 0xabfc7920, 0x6d002f1e, 0xc7fc7c26,
         0, 0x21e1cde6, 5, 0xb7f268cf);
    Next(25, 0x6d002f1e, 0xb7f268cf, 0x47092c07, 0xabfc7920, 0xe7f16c07,
         24, 0xc33707d6, 9, 0x09388eff);
  }

  lemma Steps28()
    ensures Stands(28, 0xb7f268cf, 0x786acb8f, 0xfe1623b1, 0x09388eff)
  {
    hide Stands;
    Steps26();
    Next(26, 0xabfc7920, 0x09388eff, 0xb7f268cf, 0x47092c07, 0xb1fa4ccf,
         0, 0xf4d50d87, 14, 0xfe1623b1);
    Next(27, 0x47092c07, 0xfe1623b1, 0x09388eff, 0xb7f268cf, 0xbe1aa6b1,
         0, 0x455a14ed, 20, 0x786acb8f);
  }

  lemma Steps30()
    ensures Stands(30, 0xfe1623b1, 0x9f47e4f8, 0x790a77fb, 0x786acb8f)
  {
    hide Stands;
    Steps28();
    Next(28, 0xb7f268cf, 0x786acb8f, 0xfe1623b1, 0x09388eff, 0xfe2eab8f,
         0, 0xa9e3e905, 5, 0x790a77fb);
    Next(29, 0x09388eff, 0x790a77fb, 0x786acb8f, 0xfe1623b1, 0x786aebbf,
         0, 0xfcefa3f8, 9, 0x9f47e4f8);
  }

  lemma Steps32()
    ensures Stands(32, 0x790a77fb, 0x726342d3, 0xa62884aa, 0x9f47e4f8)
  {
    hide Stands;
    Steps30();
    Next(30, 0xfe1623b1, 0x9f47e4f8, 0x790a77fb, 0x786acb8f, 0x1942f4f8,
         0, 0x676f02d9, 14, 0xa62884aa);
    Next(31, 0x786acb8f, 0xa62884aa, 0x9f47e4f8, 0x790a77fb, 0xa64d84aa,
         0, 0x8d2a4c8a, 20, 0x726342d3);
  }

  lemma Steps34()
    ensures Stands(34, 0xa62884aa, 0x60127b2e, 0xb3707ebf, 0x726342d3)
  {
    hide Stands;
    Steps32();
    Next(32, 0x790a77fb, 0x726342d3, 0xa62884aa, 0x9f47e4f8, 0x4b0c2281,
         0, 0xfffa3942, 4, 0xb3707ebf);
    Next(33, 0x9f47e4f8, 0xb3707ebf, 0x726342d3, 0xa62884aa, 0x673bb8c6,
         0, 0x8771f681, 11, 0x60127b2e);
  }

  lemma Steps36()
    ensures Stands(36, 0xb3707ebf, 0x3b0875c7, 0x8d212ff5, 0x60127b2e)
  {
    hide Stands;
    Steps34();
    Next(34, 0xa62884aa, 0x60127b2e, 0xb3707ebf, 0x726342d3, 0xa1014742,
         0, 0x6d9d6122, 16, 0x8d212ff5);
    Next(35, 0x726342d3, 0x8d212ff5, 0x60127b2e, 0xb3707ebf, 0x5e432a64,
         24, 0xfde5380c, 23, 0x3b0875c7);
  }

  lemma Steps38()
    ensures Stands(38, 0x8d212ff5, 0x6e7429d5, 0x21b117b9, 0x3b0875c7)
  {
    hide Stands;
    Steps36();
    Next(36, 0xb3707ebf, 0x3b0875c7, 0x8d212ff5, 0x60127b2e, 0xd63b211c,
         0, 0xa4beea44, 4, 0x21b117b9);
    Next(37, 0x60127b2e, 0x21b117b9, 0x3b0875c7, 0x8d212ff5, 0x97984d8b,
         0, 0x4bdecfa9, 11, 0x6e7429d5);
  }

  lemma Steps40()
    ensures Stands(40, 0x21b117b9, 0x5a2f5ea5, 0x3575227e, 0x6e7429d5)
  {
    hide Stands;
    Steps38();
    Next(38, 0x8d212ff5, 0x6e7429d5, 0x21b117b9, 0x3b0875c7, 0x74cd4bab,
         0, 0xf6bb4b60, 16, 0x3575227e);
    Next(39, 0x3b0875c7, 0x3575227e, 0x6e7429d5, 0x21b117b9, 0x7ab01c12,
         0, 0xbebfbc70, 23, 0x5a2f5ea5);
  }

  lemma Steps42()
    ensures Stands(42, 0x3575227e, 0xfadcaa38, 0x11de1779, 0x5a2f5ea5)
  {
    hide Stands;
    Steps40();
    Next(40, 0x21b117b9, 0x5a2f5ea5, 0x3575227e, 0x6e7429d5, 0x012e550e,
         0, 0x289b7ec6, 4, 0x11de1779);
    Next(41, 0x6e7429d5, 0x11de1779, 0x5a2f5ea5, 0x3575227e, 0x7e846ba2,
         0x80636261, 0xeaa127fa, 11, 0xfadcaa38);
  }

  lemma Steps44()
    ensures Stands(44, 0x11de1779, 0x4c6124f4, 0x31c465ca, 0xfadcaa38)
  {
    hide Stands;
    Steps42();
    Next(42, 0x3575227e, 0xfadcaa38, 0x11de1779, 0x5a2f5ea5, 0xb12de3e4,
         0, 0xd4ef3085, 16, 0x31c465ca);
    Next(43, 0x5a2f5ea5, 0x31c465ca, 0xfadcaa38, 0x11de1779, 0xdac6d88b,
         0, 0x04881d05, 23, 0x4c6124f4);
  }

  lemma Steps46()
    ensures Stands(46, 0x31c465ca, 0x99d9679d, 0x7f2e507b, 0x4c6124f4)
  {
    hide Stands;
    Steps44();
    Next(44, 0x11de1779, 0x4c6124f4, 0x31c465ca, 0xfadcaa38, 0x8779eb06,
         0, 0xd9d4d039, 4, 0x7f2e507b);
    Next(45, 0xfadcaa38, 0x7f2e507b, 0x4c6124f4, 0x31c465ca, 0x028b1145,
         0, 0xe6db99e5, 11, 0x99d9679d);
  }

  lemma Steps48()
    ensures Stands(48, 0x7f2e507b, 0x7beb9700, 0x8fae6399, 0x99d9679d)
  {
    hide Stands;
    Steps46();
    Next(46, 0x31c465ca, 0x99d9679d, 0x7f2e507b, 0x4c6124f4, 0xaa961312,
         0, 0x1fa27cf8, 16, 0x8fae6399);
    Next(47, 0x4c6124f4, 0x8fae6399, 0x99d9679d, 0x7f2e507b, 0x6959547f,
         0, 0xc4ac5665, 23, 0x7beb9700);
  }

  lemma Steps50()
    ensures Stands(50, 0x8fae6399, 0xf4e8e96e, 0x7b201df8, 0x7beb9700)
  {
    hide Stands;
    Steps48();
    Next(48, 0x7f2e507b, 0x7beb9700, 0x8fae6399, 0x99d9679d, 0xf041fcfb,
         0x80636261, 0xf4292244, 6, 0x7b201df8);
    Next(49, 0x99d9679d, 0x7b201df8, 0x7beb9700, 0x8fae6399, 0x009a0afe,
         0, 0x432aff97, 10, 0xf4e8e96e);
  }

  lemma Steps52()
    ensures Stands(52, 0x7b201df8, 0x8bf025c4, 0xb298cefd, 0xf4e8e96e)
  {
    hide Stands;
    Steps50();
    Next(50, 0x8fae6399, 0xf4e8e96e, 0x7b201df8, 0x7beb9700, 0x8fdcf407,
         24, 0xab9423a7, 15, 0xb298cefd);
    Next(51, 0x7beb9700, 0xb298cefd, 0xf4e8e96e, 0x7b201df8, 0x42370791,
         0, 0xfc93a039, 21, 0x8bf025c4);
  }

  lemma Steps54()
    ensures Stands(54, 0xb298cefd, 0x5b0d97aa, 0x06cc5e8a, 0x8bf025c4)
  {
    hide Stands;
    Steps52();
    Next(52, 0x7b201df8, 0x8bf025c4, 0xb298cefd, 0xf4e8e96e, 0x396ff928,
         0, 0x655b59c3, 6, 0x06cc5e8a);
    Next(53, 0xf4e8e96e, 0x06cc5e8a, 0x8bf025c4, 0xb298cefd, 0xc41f5a4e,
         0, 0x8f0ccc92, 10, 0x5b0d97aa);
  }

  lemma Steps56()
    ensures Stands(56, 0x06cc5e8a, 0x3bfa2c27, 0x7d632dd0, 0x5b0d97aa)
  {
    hide Stands;
    Steps54();
    Next(54, 0xb298cefd, 0x5b0d97aa, 0x06cc5e8a, 0x8bf025c4, 0x79c38131,
         0, 0xffeff47d, 15, 0x7d632dd0);
    Next(55, 0x8bf025c4, 0x7d632dd0, 0x5b0d97aa, 0x06cc5e8a, 0xa67e3a5f,
         0, 0x85845dd1, 21, 0x3bfa2c27);
  }

  lemma Steps58()
    ensures Stands(58, 0x7d632dd0, 0x094454ab, 0x7f81cc35, 0x3bfa2c27)
  {
    hide Stands;
    Steps56();
    Next(56, 0x06cc5e8a, 0x3bfa2c27, 0x7d632dd0, 0x5b0d97aa, 0xc29941a7,
         0, 0x6fa87e4f, 6, 0x7f81cc35);
    Next(57, 0x5b0d97aa, 0x7f81cc35, 0x3bfa2c27, 0x7d632dd0, 0xc467f218,
         0, 0xfe2ce6e0, 10, 0x094454ab);
  }

  lemma Steps60()
    ensures Stands(60, 0x7f81cc35, 0x7327d604, 0x4f9dbe3f, 0x094454ab)
  {
    hide Stands;
    Steps58();
    Next(58, 0x7d632dd0, 0x094454ab, 0x7f81cc35, 0x3bfa2c27, 0xb2c41bce,
         0, 0xa3014314, 15, 0x4f9dbe3f);
    Next(59, 0x3bfa2c27, 0x4f9dbe3f, 0x094454ab, 0x7f81cc35, 0xc6bbeb54,
         0, 0x4e0811a1, 21, 0x7327d604);
  }

  lemma Steps62()
    ensures Stands(62, 0x4f9dbe3f, 0x624d8cb2, 0x310ade8f, 0x7327d604)
  {
    hide Stands;
    Steps60();
    Next(60, 0x7f81cc35, 0x7327d604, 0x4f9dbe3f, 0x094454ab, 0xb822416b,
         0, 0xf7537e82, 6, 0x310ade8f);
    Next(61, 0x094454ab, 0x310ade8f, 0x7327d604, 0x4f9dbe3f, 0xc24d09cb,
         0, 0xbd3af235, 10, 0x624d8cb2);
  }

  lemma Steps64()
    ensures Stands(64, 0x310ade8f, 0xc08226b3, 0xe484b9d8, 0x624d8cb2)
  {
    hide Stands;
    Steps62();
    Next(62, 0x4f9dbe3f, 0x624d8cb2, 0x310ade8f, 0x7327d604, 0xdfd77374,
         0, 0x2ad7d2bb, 15, 0xe484b9d8);
    Next(63, 0x7327d604, 0xe484b9d8, 0x624d8cb2, 0x310ade8f, 0x8cb8354a,
         0, 0xeb86d391, 21, 0xc08226b3);
  }

  lemma Start()
    ensures Stands(0, 0x67452301, 0xefcdab89, 0x98badcfe, 0x10325476)
  {
  }

  /** The message, the one bit, zero bits and the length of 24 bits. */
  lemma PaddedAbc()
    ensures Padded([0x61, 0x62, 0x63]) == [0x61, 0x62, 0x63, 0x80] + Zeros(52) + [24, 0, 0, 0, 0, 0, 0, 0]
  {
    hide LittleEndian;
    LengthBytes();
    assert PadZeros(3) == 52;
  }

  lemma LengthBytes()
    ensures LittleEndian(Shown(24), 8) == [24, 0, 0, 0, 0, 0, 0, 0]
  {
    NoBytes(8);
    NoBytes(7);
    LittleEndianIs(24, 8);
  }

  lemma {:induction false} NoBytes(n: nat)
    ensures LittleEndian(0, n) == Zeros(n)
  {
    if n > 0 {
      NoBytes(n - 1);
      LittleEndianIs(0, n);
    }
  }

  lemma LittleEndianIs(value: nat, n: nat)
    requires n > 0
    ensures LittleEndian(value, n) == [LowByte(value)] + LittleEndian(value / 256, n - 1)
  {
  }

  lemma WordsOfAbc(block: seq<Byte>)
    requires block == [0x61, 0x62, 0x63, 0x80] + Zeros(52) + [24, 0, 0, 0, 0, 0, 0, 0]
    ensures WordsOf(block) == X
  {
    hide WordAt, Zeros;
    forall i | 0 <= i < 16
      ensures WordAt(block, i) == X[i]
    {
      WordOfAbc(block, i);
    }
  }

  lemma WordOfAbc(block: seq<Byte>, i: nat)
    requires block == [0x61, 0x62, 0x63, 0x80] + Zeros(52) + [24, 0, 0, 0, 0, 0, 0, 0] && i < 16
    ensures WordAt(block, i) == X[i]
  {
  }

  lemma ProcessedAbc(block: seq<Byte>)
    requires |block| == 64 && WordsOf(block) == X
    ensures Process(INITIAL, block) == [0x98500190, 0xb04fd23c, 0x7d3f96d6, 0x727fe128]
  {
    hide Steps, Operations, WordsOf;
    ProcessBySteps(INITIAL, block);
    Steps64();
  }

  /** What the appendix prints for it. */
  lemma KnownAnswer()
    ensures Digest([0x61, 0x62, 0x63]) ==
            [0x90, 0x01, 0x50, 0x98, 0x3c, 0xd2, 0x4f, 0xb0, 0xd6, 0x96, 0x3f, 0x7d, 0x28, 0xe1, 0x7f, 0x72]
  {
    hide Process, Operations, WordsOf, Padded, Zeros, PadZeros;
    var block := Padded([0x61, 0x62, 0x63]);
    PaddedAbc();
    assert |block| == 64;
    WordsOfAbc(block);
    ProcessedAbc(block);
    assert block[..0] == [] && block[0..] == block;
    assert Fold(block) == Process(INITIAL, block);
  }
}
