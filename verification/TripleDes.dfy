/** The in-place code of core/dtv_camd_crypt.c for DES and two-key triple DES in CBC mode, each
    routine proved against the bit-string definitions of module Des. */
module TripleDes {
  import opened Buffers
  import opened Bytes
  import opened DesTables
  import opened Des

  /* ---- what a schedule and a block mean as bits ---- */

  ghost predicate IsSchedule(schedule: seq<seq<Byte>>) {
    |schedule| == 16 && forall i :: 0 <= i < 16 ==> |schedule[i]| == 6
  }

  ghost function SubkeyBits(schedule: seq<seq<Byte>>): (keys: seq<seq<bool>>)
    requires IsSchedule(schedule)
    ensures |keys| == 16 && AreSubkeys(keys)
    ensures forall i :: 0 <= i < 16 ==> keys[i] == Bits(schedule[i])
  {
    seq(16, i requires 0 <= i < 16 => Bits(schedule[i]))
  }

  ghost function Keys(key: seq<Byte>, encrypt: bool): (keys: seq<seq<bool>>)
    requires |key| == 8
    ensures AreSubkeys(keys)
  {
    if encrypt then Subkeys(Bits(key)) else Reversed(Subkeys(Bits(key)))
  }

  /** One block enciphered or deciphered under an eight-byte key. */
  ghost function Block(key: seq<Byte>, block: seq<Byte>, encrypt: bool): (out: seq<Byte>)
    requires |key| == 8 && |block| == 8
    ensures |out| == 8
  {
    Pack(Cipher(Bits(block), Keys(key, encrypt)))
  }

  lemma BlockInverse(key: seq<Byte>, block: seq<Byte>, encrypt: bool)
    requires |key| == 8 && |block| == 8
    ensures Block(key, Block(key, block, encrypt), !encrypt) == block
  {
    BitsOfPack(Cipher(Bits(block), Keys(key, encrypt)));
    ReversedTwice(Subkeys(Bits(key)));
    CipherInverse(Bits(block), Keys(key, encrypt));
    PackOfBits(block);
  }

  /** E(k1) D(k2) E(k1), or its mirror image. */
  ghost function Block3(key1: seq<Byte>, key2: seq<Byte>, block: seq<Byte>, encrypt: bool): (out: seq<Byte>)
    requires |key1| == 8 && |key2| == 8 && |block| == 8
    ensures |out| == 8
  {
    Block(key1, Block(key2, Block(key1, block, encrypt), !encrypt), encrypt)
  }

  lemma Block3Inverse(key1: seq<Byte>, key2: seq<Byte>, block: seq<Byte>, encrypt: bool)
    requires |key1| == 8 && |key2| == 8 && |block| == 8
    ensures Block3(key1, key2, Block3(key1, key2, block, encrypt), !encrypt) == block
  {
    var inner := Block(key1, block, encrypt);
    BlockInverse(key1, Block(key2, inner, !encrypt), encrypt);
    BlockInverse(key2, inner, !encrypt);
    BlockInverse(key1, block, encrypt);
  }

  /** Under one key twice, two-key triple DES is DES. */
  lemma EqualKeysAreOne(key: seq<Byte>, block: seq<Byte>, encrypt: bool)
    requires |key| == 8 && |block| == 8
    ensures Block3(key, key, block, encrypt) == Block(key, block, encrypt)
  {
    BlockInverse(key, block, encrypt);
  }

  /* ---- cipher block chaining ---- */

  ghost function CbcEncrypt(key1: seq<Byte>, key2: seq<Byte>, iv: seq<Byte>, data: seq<Byte>): (out: seq<Byte>)
    requires |key1| == 8 && |key2| == 8 && |iv| == 8
    ensures |out| == |data|
    decreases |data|
  {
    if |data| < 8 then data
    else
      var cipher := Block3(key1, key2, XorBytes(data[..8], iv), true);
      cipher + CbcEncrypt(key1, key2, cipher, data[8..])
  }

  ghost function CbcDecrypt(key1: seq<Byte>, key2: seq<Byte>, iv: seq<Byte>, data: seq<Byte>): (out: seq<Byte>)
    requires |key1| == 8 && |key2| == 8 && |iv| == 8
    ensures |out| == |data|
    decreases |data|
  {
    if |data| < 8 then data
    else XorBytes(Block3(key1, key2, data[..8], false), iv) + CbcDecrypt(key1, key2, data[..8], data[8..])
  }

  ghost function Cbc(key1: seq<Byte>, key2: seq<Byte>, iv: seq<Byte>, data: seq<Byte>, encrypt: bool): (out: seq<Byte>)
    requires |key1| == 8 && |key2| == 8 && |iv| == 8
    ensures |out| == |data|
  {
    if encrypt then CbcEncrypt(key1, key2, iv, data) else CbcDecrypt(key1, key2, iv, data)
  }

  /** The chaining value a call leaves behind: the last whole ciphertext block. */
  ghost function NextIv(iv: seq<Byte>, cipher: seq<Byte>): (next: seq<Byte>)
    requires |iv| == 8
    ensures |next| == 8
    decreases |cipher|
  {
    if |cipher| < 8 then iv else NextIv(cipher[..8], cipher[8..])
  }

  /** Block by block, what is written is E(k1) D(k2) E(k1) of the plaintext mixed with what was written before it. */
  lemma {:induction false} BlocksWritten(key1: seq<Byte>, key2: seq<Byte>, iv: seq<Byte>, data: seq<Byte>, i: nat)
    requires |key1| == 8 && |key2| == 8 && |iv| == 8 && 8 * i + 8 <= |data|
    ensures var out := CbcEncrypt(key1, key2, iv, data);
            var mixed := XorBytes(data[8 * i..8 * i + 8], if i == 0 then iv else out[8 * i - 8..8 * i]);
            out[8 * i..8 * i + 8] == Block(key1, Block(key2, Block(key1, mixed, true), false), true)
    decreases i
  {
    hide Block, XorBytes;
    var cipher := Block3(key1, key2, XorBytes(data[..8], iv), true);
    var rest := CbcEncrypt(key1, key2, cipher, data[8..]);
    if i == 0 {
      assert (cipher + rest)[..8] == cipher;
    } else {
      BlocksWritten(key1, key2, cipher, data[8..], i - 1);
      BlockBehind(data[..8], data[8..], i);
      BlockBehind(cipher, rest, i);
      assert data[..8] + data[8..] == data;
    }
  }

  /** And what is read is D(k1) E(k2) D(k1) of a block, mixed with the one read before it. */
  lemma {:induction false} BlocksRead(key1: seq<Byte>, key2: seq<Byte>, iv: seq<Byte>, data: seq<Byte>, i: nat)
    requires |key1| == 8 && |key2| == 8 && |iv| == 8 && 8 * i + 8 <= |data|
    ensures var plain := Block(key1, Block(key2, Block(key1, data[8 * i..8 * i + 8], false), true), false);
            CbcDecrypt(key1, key2, iv, data)[8 * i..8 * i + 8] ==
            XorBytes(plain, if i == 0 then iv else data[8 * i - 8..8 * i])
    decreases i
  {
    hide Block, XorBytes;
    var first := XorBytes(Block3(key1, key2, data[..8], false), iv);
    var rest := CbcDecrypt(key1, key2, data[..8], data[8..]);
    if i == 0 {
      assert (first + rest)[..8] == first;
    } else {
      BlocksRead(key1, key2, data[..8], data[8..], i - 1);
      BlockBehind(data[..8], data[8..], i);
      BlockBehind(first, rest, i);
      assert data[..8] + data[8..] == data;
    }
  }

  lemma BlockBehind(first: seq<Byte>, rest: seq<Byte>, i: nat)
    requires |first| == 8 && i > 0 && 8 * i <= |rest|
    ensures (first + rest)[8 * i..8 * i + 8] == rest[8 * (i - 1)..8 * (i - 1) + 8]
    ensures (first + rest)[8 * i - 8..8 * i] == if i == 1 then first else rest[8 * (i - 1) - 8..8 * (i - 1)]
  {
  }

  /** Deciphering what was enciphered restores the buffer, for any keys, chaining value and
      length, whole blocks or not. */
  lemma {:induction false} CbcRoundTrip(key1: seq<Byte>, key2: seq<Byte>, iv: seq<Byte>, data: seq<Byte>)
    requires |key1| == 8 && |key2| == 8 && |iv| == 8
    ensures CbcDecrypt(key1, key2, iv, CbcEncrypt(key1, key2, iv, data)) == data
    decreases |data|
  {
    hide Block3;
    if |data| >= 8 {
      var mixed := XorBytes(data[..8], iv);
      var cipher := Block3(key1, key2, mixed, true);
      var rest := CbcEncrypt(key1, key2, cipher, data[8..]);
      assert (cipher + rest)[..8] == cipher && (cipher + rest)[8..] == rest;
      Block3Inverse(key1, key2, mixed, true);
      assert XorBytes(mixed, iv) == data[..8];
      CbcRoundTrip(key1, key2, cipher, data[8..]);
    }
  }

  /** And the other way about. */
  lemma {:induction false} CbcRoundTripBack(key1: seq<Byte>, key2: seq<Byte>, iv: seq<Byte>, data: seq<Byte>)
    requires |key1| == 8 && |key2| == 8 && |iv| == 8
    ensures CbcEncrypt(key1, key2, iv, CbcDecrypt(key1, key2, iv, data)) == data
    decreases |data|
  {
    hide Block3;
    if |data| >= 8 {
      var plain := Block3(key1, key2, data[..8], false);
      var rest := CbcDecrypt(key1, key2, data[..8], data[8..]);
      assert (XorBytes(plain, iv) + rest)[..8] == XorBytes(plain, iv) && (XorBytes(plain, iv) + rest)[8..] == rest;
      Block3Inverse(key1, key2, data[..8], false);
      assert XorBytes(XorBytes(plain, iv), iv) == plain;
      CbcRoundTripBack(key1, key2, data[..8], data[8..]);
    }
  }

  /** One call on `x + y` is two calls, the second with the chaining value the first left, when
      the first ends on a block boundary; and it leaves the chaining value the second leaves. */
  lemma CbcOfConcat(key1: seq<Byte>, key2: seq<Byte>, iv: seq<Byte>, x: seq<Byte>, y: seq<Byte>, encrypt: bool)
    requires |key1| == 8 && |key2| == 8 && |iv| == 8 && |x| % 8 == 0
    ensures var first := Cbc(key1, key2, iv, x, encrypt);
            var next := NextIv(iv, if encrypt then first else x);
            var second := Cbc(key1, key2, next, y, encrypt);
            && Cbc(key1, key2, iv, x + y, encrypt) == first + second
            && NextIv(iv, if encrypt then first + second else x + y) == NextIv(next, if encrypt then second else y)
  {
    hide CbcEncrypt, CbcDecrypt, NextIv;
    if encrypt {
      CbcEncryptOfConcat(key1, key2, iv, x, y);
      var first := CbcEncrypt(key1, key2, iv, x);
      NextIvOfConcat(iv, first, CbcEncrypt(key1, key2, NextIv(iv, first), y));
    } else {
      CbcDecryptOfConcat(key1, key2, iv, x, y);
      NextIvOfConcat(iv, x, y);
    }
  }

  lemma {:induction false} NextIvOfConcat(iv: seq<Byte>, x: seq<Byte>, y: seq<Byte>)
    requires |iv| == 8 && |x| % 8 == 0
    ensures NextIv(iv, x + y) == NextIv(NextIv(iv, x), y)
    decreases |x|
  {
    if x == [] {
      assert x + y == y;
    } else {
      assert (x + y)[..8] == x[..8] && (x + y)[8..] == x[8..] + y;
      NextIvOfConcat(x[..8], x[8..], y);
    }
  }

  lemma {:induction false} CbcEncryptOfConcat(key1: seq<Byte>, key2: seq<Byte>, iv: seq<Byte>, x: seq<Byte>,
      y: seq<Byte>)
    requires |key1| == 8 && |key2| == 8 && |iv| == 8 && |x| % 8 == 0
    ensures CbcEncrypt(key1, key2, iv, x + y)
         == CbcEncrypt(key1, key2, iv, x) + CbcEncrypt(key1, key2, NextIv(iv, CbcEncrypt(key1, key2, iv, x)), y)
    decreases |x|
  {
    hide Block3, XorBytes;
    if x == [] {
      assert x + y == y;
    } else {
      var cipher := Block3(key1, key2, XorBytes(x[..8], iv), true);
      var rest := CbcEncrypt(key1, key2, cipher, x[8..]);
      assert (x + y)[..8] == x[..8] && (x + y)[8..] == x[8..] + y;
      assert (cipher + rest)[..8] == cipher && (cipher + rest)[8..] == rest;
      CbcEncryptOfConcat(key1, key2, cipher, x[8..], y);
      var last := CbcEncrypt(key1, key2, NextIv(cipher, rest), y);
      assert cipher + (rest + last) == (cipher + rest) + last;
    }
  }

  lemma {:induction false} CbcDecryptOfConcat(key1: seq<Byte>, key2: seq<Byte>, iv: seq<Byte>, x: seq<Byte>,
      y: seq<Byte>)
    requires |key1| == 8 && |key2| == 8 && |iv| == 8 && |x| % 8 == 0
    ensures CbcDecrypt(key1, key2, iv, x + y) == CbcDecrypt(key1, key2, iv, x) +
        CbcDecrypt(key1, key2, NextIv(iv, x), y)
    decreases |x|
  {
    hide Block3, XorBytes;
    if x == [] {
      assert x + y == y;
    } else {
      var first := XorBytes(Block3(key1, key2, x[..8], false), iv);
      assert (x + y)[..8] == x[..8] && (x + y)[8..] == x[8..] + y;
      CbcDecryptOfConcat(key1, key2, x[..8], x[8..], y);
      var rest, last := CbcDecrypt(key1, key2, x[..8], x[8..]), CbcDecrypt(key1, key2, NextIv(x[..8], x[8..]), y);
      assert first + (rest + last) == (first + rest) + last;
    }
  }

  /** Bytes after the last whole block are left as they were. */
  lemma CbcLeavesTail(key1: seq<Byte>, key2: seq<Byte>, iv: seq<Byte>, data: seq<Byte>, encrypt: bool)
    requires |key1| == 8 && |key2| == 8 && |iv| == 8
    ensures var whole := |data| / 8 * 8; Cbc(key1, key2, iv, data, encrypt)[whole..] == data[whole..]
  {
    hide Block3, XorBytes, NextIv;
    var whole := |data| / 8 * 8;
    CbcOfConcat(key1, key2, iv, data[..whole], data[whole..], encrypt);
    assert data[..whole] + data[whole..] == data;
  }

  /** One step of the chain: what a block turns into, and the next chaining value. */
  ghost function Step(key1: seq<Byte>, key2: seq<Byte>, chain: seq<Byte>, block: seq<Byte>,
      encrypt: bool): (r: (seq<Byte>, seq<Byte>))
    requires |key1| == 8 && |key2| == 8 && |chain| == 8 && |block| == 8
    ensures |r.0| == 8 && |r.1| == 8
  {
    if encrypt then
      var cipher := Block3(key1, key2, XorBytes(block, chain), true);
      (cipher, cipher)
    else
      (XorBytes(Block3(key1, key2, block, false), chain), block)
  }

  /** Where a run of the chain stands after `offset` bytes: the finished part, and the value that
      leads to the same end. */
  ghost predicate Chained(key1: seq<Byte>, key2: seq<Byte>, iv: seq<Byte>, text: seq<Byte>, encrypt: bool,
                          offset: nat, done: seq<Byte>, chain: seq<Byte>)
    requires |key1| == 8 && |key2| == 8 && |iv| == 8
  {
    && offset <= |text| && |done| == offset && |chain| == 8
    && var rest := Cbc(key1, key2, chain, text[offset..], encrypt);
       var all := Cbc(key1, key2, iv, text, encrypt);
       && done + rest == all
       && NextIv(chain, if encrypt then rest else text[offset..]) == NextIv(iv, if encrypt then all else text)
  }

  lemma ChainedStep(key1: seq<Byte>, key2: seq<Byte>, iv: seq<Byte>, text: seq<Byte>, encrypt: bool,
                    offset: nat, done: seq<Byte>, chain: seq<Byte>)
    requires |key1| == 8 && |key2| == 8 && |iv| == 8 && offset + 8 <= |text|
    requires Chained(key1, key2, iv, text, encrypt, offset, done, chain)
    ensures var s := Step(key1, key2, chain, text[offset..offset + 8], encrypt);
            Chained(key1, key2, iv, text, encrypt, offset + 8, done + s.0, s.1)
  {
    hide Block3, XorBytes;
    var rest := text[offset..];
    assert rest[..8] == text[offset..offset + 8] && rest[8..] == text[offset + 8..];
    var s := Step(key1, key2, chain, rest[..8], encrypt);
    var last := Cbc(key1, key2, s.1, rest[8..], encrypt);
    assert Cbc(key1, key2, chain, rest, encrypt) == s.0 + last;
    assert (s.0 + last)[..8] == s.0 && (s.0 + last)[8..] == last;
    assert (done + s.0) + last == done + (s.0 + last);
  }

  lemma ChainedStart(key1: seq<Byte>, key2: seq<Byte>, iv: seq<Byte>, text: seq<Byte>, encrypt: bool)
    requires |key1| == 8 && |key2| == 8 && |iv| == 8
    ensures Chained(key1, key2, iv, text, encrypt, 0, [], iv)
  {
    assert text[0..] == text;
  }

  /** Less than a block left: what is done, the untouched tail, and the value handed back. */
  lemma ChainedEnd(key1: seq<Byte>, key2: seq<Byte>, iv: seq<Byte>, text: seq<Byte>, encrypt: bool,
                   offset: nat, done: seq<Byte>, chain: seq<Byte>)
    requires |key1| == 8 && |key2| == 8 && |iv| == 8 && offset + 8 > |text|
    requires Chained(key1, key2, iv, text, encrypt, offset, done, chain)
    ensures done + text[offset..] == Cbc(key1, key2, iv, text, encrypt)
    ensures chain == NextIv(iv, if encrypt then Cbc(key1, key2, iv, text, true) else text)
  {
  }

  /* ---- the code ---- */

  method Permute(out: array<Byte>, input: seq<Byte>, t: Table)
    requires 8 * |input| == t.Source() && 8 * out.Length == t.Size()
    modifies out
    ensures Bits(out[..]) == Select(Bits(input), t)
  {
    hide Bits, BitAt;
    for i := 0 to t.Size()
      invariant forall j :: 0 <= j < i ==> Bits(out[..])[j] == Bits(input)[t.At(j) - 1]
    {
      var position := t.At(i) - 1;
      BitSet(out, i, BitAt(input, position));
    }
  }

  /** Rotates the 28 bits of a key half in place, one place at a time. */
  method Rotate28(half: array<Byte>, count: nat)
    requires half.Length == 4 && count <= 28
    modifies half
    ensures Bits(half[..])[..28] == RotateLeft(old(Bits(half[..]))[..28], count)
  {
    hide Bits, BitAt;
    ghost var start := Bits(half[..])[..28];
    for j := 0 to count
      invariant Bits(half[..])[..28] == RotateLeft(start, j)
    {
      ghost var before := Bits(half[..])[..28];
      var first := BitAt(half[..], 0);
      assert first == before[0];
      for i := 0 to 27
        invariant forall k :: 0 <= k < i ==> Bits(half[..])[k] == before[k + 1]
        invariant forall k :: i <= k < 28 ==> Bits(half[..])[k] == before[k]
      {
        assert Bits(half[..])[i + 1] == before[i + 1];
        BitSet(half, i, BitAt(half[..], i + 1));
      }
      BitSet(half, 27, first);
      assert Bits(half[..])[..28] == RotateLeft(before, 1);
      RotateTwice(start, j, 1);
    }
  }

  /** Copies `count` bits from bit `from` of one buffer to bit `to` of another. */
  method CopyBits(out: array<Byte>, to: nat, input: seq<Byte>, from: nat, count: nat)
    requires to + count <= 8 * out.Length && from + count <= 8 * |input|
    modifies out
    ensures Bits(out[..])[to..to + count] == Bits(input)[from..from + count]
    ensures forall k :: 0 <= k < 8 * out.Length && !(to <= k < to + count) ==> Bits(out[..])[k] == old(Bits(out[..]))[k]
  {
    hide Bits, BitAt;
    for i := 0 to count
      invariant forall k :: to <= k < to + i ==> Bits(out[..])[k] == Bits(input)[k - to + from]
      invariant forall k :: 0 <= k < 8 * out.Length && !(to <= k < to + i) ==> Bits(out[..])[k] == old(Bits(out[..]))[k]
    {
      BitSet(out, to + i, BitAt(input, from + i));
    }
  }

  /** What c and d hold once `rounds` rounds of the schedule are done. */
  ghost predicate HalvesAfter(key: seq<Byte>, c: seq<Byte>, d: seq<Byte>, rounds: nat)
    requires |key| == 8 && |c| == 4 && |d| == 4 && rounds <= 16
  {
    var chosen := Select(Bits(key), PC1);
    var n := if rounds == 0 then 0 else ShiftsThrough(rounds - 1);
    Bits(c)[..28] == RotateLeft(chosen[..28], n) && Bits(d)[..28] == RotateLeft(chosen[28..], n)
  }

  method SetKey(key: seq<Byte>) returns (schedule: seq<seq<Byte>>)
    requires |key| == 8
    ensures IsSchedule(schedule) && SubkeyBits(schedule) == Subkeys(Bits(key))
  {
    hide Bits, HalvesAfter, Subkey;
    var c, d := KeyHalves(key);
    schedule := [];
    for round := 0 to 16
      invariant |schedule| == round
      invariant forall i :: 0 <= i < round ==> |schedule[i]| == 6 && Bits(schedule[i]) == Subkey(Bits(key), i)
      invariant fresh(c) && fresh(d) && c.Length == d.Length == 4 && c != d && HalvesAfter(key, c[..], d[..], round)
    {
      var subkey := ScheduleRound(key, c, d, round);
      schedule := schedule + [subkey];
    }
  }

  method KeyHalves(key: seq<Byte>) returns (c: array<Byte>, d: array<Byte>)
    requires |key| == 8
    ensures fresh(c) && fresh(d) && c != d && c.Length == d.Length == 4 && HalvesAfter(key, c[..], d[..], 0)
  {
    hide Bits;
    var permuted := new Byte[7];
    c, d := new Byte[4], new Byte[4];
    Permute(permuted, key, PC1);
    CopyBits(c, 0, permuted[..], 0, 28);
    CopyBits(d, 0, permuted[..], 28, 28);
    ghost var chosen := Select(Bits(key), PC1);
    assert Bits(c[..])[..28] == chosen[..28] && Bits(d[..])[..28] == chosen[28..];
    assert RotateLeft(chosen[..28], 0) == chosen[..28] && RotateLeft(chosen[28..], 0) == chosen[28..];
  }

  /** One round of the schedule: rotate both halves, then pick 48 of their 56 bits. */
  method ScheduleRound(ghost key: seq<Byte>, c: array<Byte>, d: array<Byte>, round: nat) returns (subkey: seq<Byte>)
    requires |key| == 8 && c.Length == d.Length == 4 && c != d && round < 16 && HalvesAfter(key, c[..], d[..], round)
    modifies c, d
    ensures HalvesAfter(key, c[..], d[..], round + 1)
    ensures |subkey| == 6 && Bits(subkey) == Subkey(Bits(key), round)
  {
    hide Bits;
    ghost var chosen := Select(Bits(key), PC1);
    ghost var n := if round == 0 then 0 else ShiftsThrough(round - 1);
    ShiftsAccumulate(round);
    RotateTwice(chosen[..28], n, Shift(round));
    RotateTwice(chosen[28..], n, Shift(round));
    Rotate28(c, Shift(round));
    Rotate28(d, Shift(round));
    var cd, out := new Byte[7], new Byte[6];
    CopyBits(cd, 0, c[..], 0, 28);
    CopyBits(cd, 28, d[..], 0, 28);
    assert Bits(cd[..]) == Bits(c[..])[..28] + Bits(d[..])[..28];
    Permute(out, cd[..], PC2);
    subkey := out[..];
  }

  /** The cipher function: expand, mix in the subkey, substitute, permute. */
  method CipherFunction(right: seq<Byte>, subkey: seq<Byte>, out: array<Byte>)
    requires |right| == 4 && |subkey| == 6 && out.Length == 4
    modifies out
    ensures Bits(out[..]) == F(Bits(right), Bits(subkey))
  {
    hide Bits;
    var expanded, substituted := new Byte[6], new Byte[4];
    Permute(expanded, right, E);
    ghost var before := expanded[..];
    for i := 0 to 6
      invariant forall j :: 0 <= j < i ==> expanded[j] == before[j] ^ subkey[j]
      invariant forall j :: i <= j < 6 ==> expanded[j] == before[j]
    {
      expanded[i] := expanded[i] ^ subkey[i];
    }
    assert expanded[..] == XorBytes(before, subkey);
    BitsOfXor(before, subkey);
    ghost var mixed := Bits(expanded[..]);
    for i := 0 to 8
      invariant expanded[..] == XorBytes(before, subkey)
      invariant forall j :: 0 <= j < 4 * i ==> Bits(substituted[..])[j] == Substitute(mixed)[j]
    {
      SubstituteBox(expanded[..], i, substituted);
    }
    assert Bits(substituted[..]) == Substitute(mixed);
    Permute(out, substituted[..], P);
  }

  /** What an S-box makes of its six bits. */
  method LookUp(expanded: seq<Byte>, box: nat) returns (value: nat)
    requires |expanded| == 6 && box < 8
    ensures value == SBox(box, SBoxRow(Bits(expanded), box), SBoxColumn(Bits(expanded), box))
  {
    hide Bits, BitAt, SBox;
    var base := 6 * box;
    var row := 2 * BitValue(BitAt(expanded, base)) + BitValue(BitAt(expanded, base + 5));
    var column := 8 * BitValue(BitAt(expanded, base + 1)) + 4 * BitValue(BitAt(expanded, base + 2)) +
                  2 * BitValue(BitAt(expanded, base + 3)) + BitValue(BitAt(expanded, base + 4));
    value := SBox(box, row, column);
  }

  lemma SubstituteAt(x: seq<bool>, box: nat, k: nat)
    requires |x| == 48 && box < 8 && k < 4
    ensures Substitute(x)[4 * box + k] == NibbleBit(SBox(box, SBoxRow(x, box), SBoxColumn(x, box)), k)
  {
    hide SBox, SBoxRow, SBoxColumn, NibbleBit;
    assert (4 * box + k) / 4 == box && (4 * box + k) % 4 == k;
  }

  /** One S-box: six bits of `expanded` become four bits of `substituted`. */
  method SubstituteBox(expanded: seq<Byte>, box: nat, substituted: array<Byte>)
    requires |expanded| == 6 && box < 8 && substituted.Length == 4
    modifies substituted
    ensures forall j :: 4 * box <= j < 4 * box + 4 ==> Bits(substituted[..])[j] == Substitute(Bits(expanded))[j]
    ensures forall j :: 0 <= j < 32 && !(4 * box <= j < 4 * box + 4) ==>
        Bits(substituted[..])[j] == old(Bits(substituted[..]))[j]
  {
    hide Bits, BitAt, SBox, SBoxRow, SBoxColumn, NibbleBit, Substitute;
    var value := LookUp(expanded, box);
    for k := 0 to 4
      invariant forall j :: 4 * box <= j < 4 * box + k ==> Bits(substituted[..])[j] == Substitute(Bits(expanded))[j]
      invariant forall j :: 0 <= j < 32 && !(4 * box <= j < 4 * box + k) ==>
          Bits(substituted[..])[j] == old(Bits(substituted[..]))[j]
    {
      SubstituteAt(Bits(expanded), box, k);
      BitSet(substituted, 4 * box + k, NibbleBit(value, k));
    }
  }

  /** One Feistel round on the two halves, in place. */
  method FeistelRound(left: array<Byte>, right: array<Byte>, subkey: seq<Byte>)
    requires left.Length == right.Length == 4 && left != right && |subkey| == 6
    modifies left, right
    ensures Bits(left[..]) == old(Bits(right[..]))
    ensures Bits(right[..]) == XorBits(old(Bits(left[..])), F(old(Bits(right[..])), Bits(subkey)))
  {
    hide Bits, F;
    ghost var l := left[..];
    var previousRight, out := right[..], new Byte[4];
    CipherFunction(right[..], subkey, out);
    ghost var f := out[..];
    for i := 0 to 4
      invariant forall j :: 0 <= j < i ==> right[j] == l[j] ^ f[j]
      invariant left[..] == l && out[..] == f
    {
      right[i] := left[i] ^ out[i];
    }
    assert right[..] == XorBytes(l, f);
    BitsOfXor(l, f);
    Write(left, 0, previousRight);
  }

  method LoadHalves(input: seq<Byte>) returns (left: array<Byte>, right: array<Byte>)
    requires |input| == 8
    ensures fresh(left) && fresh(right) && left != right && left.Length == right.Length == 4
    ensures Bits(left[..]) + Bits(right[..]) == Select(Bits(input), IP)
  {
    hide Bits, Select, Splice;
    var block := new Byte[8];
    left, right := new Byte[4], new Byte[4];
    Permute(block, input, IP);
    Write(left, 0, block[..4]);
    Write(right, 0, block[4..]);
    BitsOfConcat(left[..], right[..]);
    assert block[..] == left[..] + right[..];
  }

  method CryptBlock(schedule: seq<seq<Byte>>, input: seq<Byte>, out: array<Byte>, encrypt: bool)
    requires IsSchedule(schedule) && |input| == 8 && out.Length == 8
    modifies out
    ensures Bits(out[..]) ==
            Cipher(Bits(input), if encrypt then SubkeyBits(schedule) else Reversed(SubkeyBits(schedule)))
  {
    hide Bits, F, Select, XorBits;
    ghost var keys := if encrypt then SubkeyBits(schedule) else Reversed(SubkeyBits(schedule));
    var left, right := LoadHalves(input);
    ghost var permuted := Select(Bits(input), IP);
    ghost var start := Halves(permuted[..32], permuted[32..]);
    assert Bits(left[..]) == start.left && Bits(right[..]) == start.right;
    assert keys[0..] == keys;
    for round := 0 to 16
      invariant Rounds(Halves(Bits(left[..]), Bits(right[..])), keys[round..]) == Rounds(start, keys)
    {
      var subkey := schedule[if encrypt then round else 15 - round];
      assert Bits(subkey) == keys[round];
      assert keys[round..][1..] == keys[round + 1..] && keys[round..][0] == keys[round];
      FeistelRound(left, right, subkey);
    }
    assert keys[16..] == [];
    assert Rounds(start, keys) == Halves(Bits(left[..]), Bits(right[..]));
    BitsOfConcat(right[..], left[..]);
    Permute(out, right[..] + left[..], FP);
  }

  /** As CryptBlock, on the bytes, under the key the schedule came from. */
  method CryptBytes(schedule: seq<seq<Byte>>, ghost key: seq<Byte>, input: seq<Byte>, out: array<Byte>, encrypt: bool)
    requires IsSchedule(schedule) && |key| == 8 && SubkeyBits(schedule) == Subkeys(Bits(key))
    requires |input| == 8 && out.Length == 8
    modifies out
    ensures out[..] == Block(key, input, encrypt)
  {
    CryptBlock(schedule, input, out, encrypt);
    PackOfBits(out[..]);
  }

  /** Two-key triple DES in CBC mode over `input[start..start + size]`, into `out` from `at` on, which
      may be the same bytes: only whole blocks are written. `iv` is left holding the chaining value for
      a following call. */
  method EdeCbc(key1: seq<Byte>, key2: seq<Byte>, iv: array<Byte>, input: array<Byte>, start: nat,
                out: array<Byte>, at: nat, size: nat, encrypt: bool)
    requires |key1| == 8 && |key2| == 8 && iv.Length == 8 && iv != input && iv != out
    requires start + size <= input.Length && at + size <= out.Length
    requires input == out ==> start == at
    modifies iv, out
    ensures var text := old(input[..])[start..start + size];
            var result := Cbc(key1, key2, old(iv[..]), text, encrypt);
            && out[..] == Splice(old(out[..]), at, result[..size / 8 * 8])
            && iv[..] == NextIv(old(iv[..]), if encrypt then result else text)
  {
    hide Bits, Chained, Step, Cbc, NextIv, SubkeyBits, Subkeys, Splice;
    var schedule1 := SetKey(key1);
    var schedule2 := SetKey(key2);
    var chain := iv[..];
    ghost var before, iv0 := out[..], iv[..];
    ghost var source := input[..];
    ghost var text := source[start..start + size];
    var offset := 0;
    ghost var done: seq<Byte> := [];
    ChainedStart(key1, key2, iv0, text, encrypt);
    SpliceNothing(before, at);
    while offset + 8 <= size
      invariant offset <= size && offset % 8 == 0 && |done| == offset && |chain| == 8
      invariant iv[..] == iv0
      invariant out[..] == Splice(before, at, done)
      invariant input != out ==> input[..] == source
      invariant Chained(key1, key2, iv0, text, encrypt, offset, done, chain)
    {
      ChainedStep(key1, key2, iv0, text, encrypt, offset, done, chain);
      var block := input[..][start + offset..start + offset + 8];
      BlockUntouched(source, before, start, at, size, offset, done, input == out, block);
      var output, next := CryptChained(schedule1, schedule2, key1, key2, chain, block, encrypt);
      SpliceMore(before, at, done, output);
      Write(out, at + offset, output);
      done := done + output;
      chain := next;
      offset := offset + 8;
    }
    ChainedEnd(key1, key2, iv0, text, encrypt, offset, done, chain);
    assert offset == size / 8 * 8;
    assert (done + text[offset..])[..offset] == done;
    Write(iv, 0, chain);
  }

  /** The next block of the input is still what it was, even if the output goes over the input. */
  lemma BlockUntouched(source: seq<Byte>, before: seq<Byte>, start: nat, at: nat, size: nat, offset: nat,
      done: seq<Byte>,
                       same: bool, block: seq<Byte>)
    requires start + size <= |source| && at + size <= |before| && offset + 8 <= size && |done| == offset
    requires same ==> source == before && start == at
    requires block == (if same then Splice(before, at, done) else source)[start + offset..start + offset + 8]
    ensures block == source[start..start + size][offset..offset + 8]
  {
    SliceOfSlice(source, start, start + size, offset, offset + 8);
    if same {
      SpliceParts(before, at, done);
      var t := Splice(before, at, done);
      assert t[start + offset..start + offset + 8] == t[at + |done|..][..8];
      assert source[start + offset..start + offset + 8] == before[at + |done|..][..8];
    }
  }

  /** Both callers run it over a buffer in place, where the bytes after the last whole block stay. */
  method EdeCbcInPlace(key1: seq<Byte>, key2: seq<Byte>, iv: array<Byte>, data: array<Byte>, start: nat, size: nat,
      encrypt: bool)
    requires |key1| == 8 && |key2| == 8 && iv.Length == 8 && iv != data
    requires start + size <= data.Length
    modifies iv, data
    ensures var text := old(data[..])[start..start + size];
            var result := Cbc(key1, key2, old(iv[..]), text, encrypt);
            && data[..] == Splice(old(data[..]), start, result)
            && iv[..] == NextIv(old(iv[..]), if encrypt then result else text)
  {
    hide Cbc, NextIv, Splice;
    ghost var before := data[..];
    ghost var text := before[start..start + size];
    ghost var result := Cbc(key1, key2, iv[..], text, encrypt);
    var whole := size / 8 * 8;
    CbcLeavesTail(key1, key2, iv[..], text, encrypt);
    SpliceRest(before, start, result[..whole], size);
    assert result == result[..whole] + before[start..start + size][whole..];
    EdeCbc(key1, key2, iv, data, start, data, start, size, encrypt);
  }

  method CryptChained(schedule1: seq<seq<Byte>>, schedule2: seq<seq<Byte>>, ghost key1: seq<Byte>,
      ghost key2: seq<Byte>,
                      chain: seq<Byte>, input: seq<Byte>, encrypt: bool)
    returns (output: seq<Byte>, next: seq<Byte>)
    requires IsSchedule(schedule1) && |key1| == 8 && SubkeyBits(schedule1) == Subkeys(Bits(key1))
    requires IsSchedule(schedule2) && |key2| == 8 && SubkeyBits(schedule2) == Subkeys(Bits(key2))
    requires |chain| == 8 && |input| == 8
    ensures (output, next) == Step(key1, key2, chain, input, encrypt)
  {
    hide Bits, Block;
    var temp := new Byte[8];
    if encrypt {
      CryptBytes(schedule1, key1, XorBytes(input, chain), temp, true);
      CryptBytes(schedule2, key2, temp[..], temp, false);
      CryptBytes(schedule1, key1, temp[..], temp, true);
      output, next := temp[..], temp[..];
    } else {
      CryptBytes(schedule1, key1, input, temp, false);
      CryptBytes(schedule2, key2, temp[..], temp, true);
      CryptBytes(schedule1, key1, temp[..], temp, false);
      output, next := XorBytes(temp[..], chain), input;
    }
  }
}
