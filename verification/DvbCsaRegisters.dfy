/** The block cipher of the bit-sliced library, third_party/libdvbcsa/dvbcsa_bs_block.c: each byte of a word
    belongs to one packet, and a round moves the registers one place down instead of moving what they hold. */
module DvbCsaRegisters {
  import opened Bytes
  import opened DvbCsaTables
  import opened DvbCsa
  import opened DvbCsaWords
  import opened DvbCsaBlockTranspose

  /* ---- the operations, byte by byte ---- */

  /** Every byte through the table. */
  function Substituted(w: Word): Word {
    OfBytes(seq(16, j requires 0 <= j < 16 => BlockSBox(ByteOf(w, j))))
  }

  lemma ByteSubstituted(w: Word, c: nat)
    requires c < 16
    ensures ByteOf(Substituted(w), c) == BlockSBox(ByteOf(w, c))
  {
    hide BlockSBox, ByteOf, OfBytes;
    ByteOfOfBytes(seq(16, j requires 0 <= j < 16 => BlockSBox(ByteOf(w, j))), c);
  }

  /** The permutation by shifts, instead of a table: of words, and of a byte. */
  function Permuted(w: Word): Word {
    Or(Or(Or(Raised(w, 0x29, 1), Raised(w, 0x02, 6)), Or(Raised(w, 0x04, 3), Lowered(w, 0x10, 2))),
       Or(Lowered(w, 0x40, 6), Lowered(w, 0x80, 4)))
  }

  function Raised(w: Word, m: Byte, n: nat): Word { Shl(And(w, OfBytes([m])), n) }

  function Lowered(w: Word, m: Byte, n: nat): Word { Shr(And(w, OfBytes([m])), n) }

  function PermutationCircuit(s: Byte): Byte {
    ((s & 0x29) << 1) | ((s & 0x02) << 6) | ((s & 0x04) << 3) | ((s & 0x10) >> 2) | ((s & 0x40) >> 6) |
        ((s & 0x80) >> 4)
  }

  lemma CircuitIsTable(s: Byte)
    ensures PermutationCircuit(s) == PermutationTable(s)
  {
  }

  /** The pairs of a mask and a shift that stay within a byte. */
  predicate StaysUp(m: Byte, n: nat) { (m == 0x29 && n == 1) || (m == 0x02 && n == 6) || (m == 0x04 && n == 3) }

  predicate StaysDown(m: Byte, n: nat) { (m == 0x10 && n == 2) || (m == 0x40 && n == 6) || (m == 0x80 && n == 4) }

  lemma MaskEdges(m: Byte, n: nat, k: nat)
    requires k < 8
    ensures StaysUp(m, n) && 8 - n <= k ==> BitOf(m, k) == 0
    ensures StaysDown(m, n) && k < n ==> BitOf(m, k) == 0
  {
  }

  lemma MaskBit(m: Byte, c: nat, k: nat)
    requires c < 16 && k < 8
    ensures BitIn(OfBytes([m]), c, k) == BitOf(m, k)
  {
    hide BitOf;
    BitNumber(c, k);
  }

  lemma BitInHalf(c: nat, k: nat)
    requires c < 16 && k < 8
    ensures (8 * c + k) % 64 == 8 * (c % 8) + k
  {
  }

  lemma RaisedBit(w: Word, m: Byte, n: nat, c: nat, k: nat)
    requires StaysUp(m, n) && c < 16 && k < 8
    ensures BitIn(Raised(w, m, n), c, k) == if k >= n then BitIn(w, c, k - n) & BitOf(m, k - n) else 0
  {
    hide BitOf, And, Shl, OfBytes;
    BitInHalf(c, k);
    if k >= n {
      MaskBit(m, c, k - n);
    } else if c % 8 > 0 {
      MaskEdges(m, n, 8 + k - n);
      MaskBit(m, c - 1, 8 + k - n);
    }
  }

  lemma LoweredBit(w: Word, m: Byte, n: nat, c: nat, k: nat)
    requires StaysDown(m, n) && c < 16 && k < 8
    ensures BitIn(Lowered(w, m, n), c, k) == if k + n < 8 then BitIn(w, c, k + n) & BitOf(m, k + n) else 0
  {
    hide BitOf, And, Shr, OfBytes;
    BitInHalf(c, k);
    if k + n < 8 {
      MaskBit(m, c, k + n);
    } else if c % 8 < 7 {
      MaskEdges(m, n, k + n - 8);
      MaskBit(m, c + 1, k + n - 8);
    }
  }

  /** The bit that the permutation brings to place `k`. */
  function Origin(k: nat): (o: nat)
    requires k < 8
    ensures o < 8
  {
    [6, 0, 4, 7, 3, 2, 5, 1][k]
  }

  lemma MasksOf(k: nat)
    requires k < 8
    ensures (k >= 1 ==> BitOf(0x29, k - 1) == if Origin(k) == k - 1 then 1 else 0)
    ensures (k >= 6 ==> BitOf(0x02, k - 6) == if Origin(k) == k - 6 then 1 else 0)
    ensures (k >= 3 ==> BitOf(0x04, k - 3) == if Origin(k) == k - 3 then 1 else 0)
    ensures (k + 2 < 8 ==> BitOf(0x10, k + 2) == if Origin(k) == k + 2 then 1 else 0)
    ensures (k + 6 < 8 ==> BitOf(0x40, k + 6) == if Origin(k) == k + 6 then 1 else 0)
    ensures (k + 4 < 8 ==> BitOf(0x80, k + 4) == if Origin(k) == k + 4 then 1 else 0)
    ensures Origin(k) == k - 1 || Origin(k) == k - 6 || Origin(k) == k - 3 || Origin(k) == k + 2 || Origin(k) == k + 6
            || Origin(k) == k + 4
  {
  }

  lemma OrBit(a: Word, b: Word, c: nat, k: nat)
    requires c < 16 && k < 8
    ensures BitIn(Or(a, b), c, k) == BitIn(a, c, k) | BitIn(b, c, k)
  {
    hide Or;
  }

  lemma PermutedBit(w: Word, c: nat, k: nat)
    requires c < 16 && k < 8
    ensures BitIn(Permuted(w), c, k) == BitIn(w, c, Origin(k))
  {
    hide BitOf, BitIn, Or, Raised, Lowered, Origin;
    MasksOf(k);
    RaisedBit(w, 0x29, 1, c, k);
    RaisedBit(w, 0x02, 6, c, k);
    RaisedBit(w, 0x04, 3, c, k);
    LoweredBit(w, 0x10, 2, c, k);
    LoweredBit(w, 0x40, 6, c, k);
    LoweredBit(w, 0x80, 4, c, k);
    var a, b := Or(Raised(w, 0x29, 1), Raised(w, 0x02, 6)), Or(Raised(w, 0x04, 3), Lowered(w, 0x10, 2));
    var d := Or(Lowered(w, 0x40, 6), Lowered(w, 0x80, 4));
    OrBit(Raised(w, 0x29, 1), Raised(w, 0x02, 6), c, k);
    OrBit(Raised(w, 0x04, 3), Lowered(w, 0x10, 2), c, k);
    OrBit(Lowered(w, 0x40, 6), Lowered(w, 0x80, 4), c, k);
    OrBit(a, b, c, k);
    OrBit(Or(a, b), d, c, k);
  }

  lemma CircuitBit(b: Byte, k: nat)
    requires k < 8
    ensures BitOf(PermutationCircuit(b), k) == BitOf(b, Origin(k))
  {
  }

  /** On words the circuit does to every byte what it does to one. */
  lemma BytePermuted(w: Word, c: nat)
    requires c < 16
    ensures ByteOf(Permuted(w), c) == PermutationTable(ByteOf(w, c))
  {
    hide BitOf, BitIn, ByteOf, Permuted, PermutationCircuit, PermutationTable, Origin;
    var b := ByteOf(w, c);
    forall k | 0 <= k < 8
      ensures BitIn(Permuted(w), c, k) == BitOf(PermutationCircuit(b), k)
    {
      PermutedBit(w, c, k);
      CircuitBit(b, k);
      BitOfByteOf(w, c, Origin(k));
    }
    ByteIs(Permuted(w), c, PermutationCircuit(b));
    CircuitIsTable(b);
  }

  lemma BitOfMix(a: Byte, b: Byte, k: nat)
    requires k < 8
    ensures BitOf(Mix(a, b), k) == BitOf(a, k) ^ BitOf(b, k)
  {
    if k == 0 {
    } else if k == 1 {
    } else if k == 2 {
    } else if k == 3 {
    } else if k == 4 {
    } else if k == 5 {
    } else if k == 6 {
    } else {
    }
  }

  lemma ByteXor(v: Word, w: Word, c: nat)
    requires c < 16
    ensures ByteOf(Xor(v, w), c) == Mix(ByteOf(v, c), ByteOf(w, c))
  {
    hide BitOf, ByteOf, Mix;
    forall k | 0 <= k < 8
      ensures BitIn(Xor(v, w), c, k) == BitOf(Mix(ByteOf(v, c), ByteOf(w, c)), k)
    {
      BitOfMix(ByteOf(v, c), ByteOf(w, c), k);
      BitOfByteOf(v, c, k);
      BitOfByteOf(w, c, k);
    }
    ByteIs(Xor(v, w), c, Mix(ByteOf(v, c), ByteOf(w, c)));
  }

  /* ---- a round ---- */

  /** What a round makes of the eight words of a group, for the key's byte in every place of a word. */
  function RoundOfGroup(o: seq<Word>, key: Word): (r: seq<Word>)
    requires |o| == BLOCK
    ensures |r| == BLOCK
  {
    var s := Substituted(Xor(key, o[6]));
    var w := Xor(o[7], s);
    [w, o[0], Xor(o[1], w), Xor(o[2], w), Xor(o[3], w), o[4], Xor(o[5], Permuted(s)), o[6]]
  }

  /** The bytes at one place of the words of a group. */
  function BytesAt(o: seq<Word>, c: nat): (b: seq<Byte>)
    requires |o| == BLOCK && c < 16
    ensures |b| == BLOCK
  {
    seq(BLOCK, n requires 0 <= n < BLOCK => ByteOf(o[n], c))
  }

  lemma RoundAtEveryByte(o: seq<Word>, k: Byte, c: nat)
    requires |o| == BLOCK && c < 16
    ensures BytesAt(RoundOfGroup(o, OfBytes([k])), c) == DecryptRound(BytesAt(o, c), k)
  {
    hide ByteOf, OfBytes, Xor, Permuted, Substituted, Mix, BlockSBox, PermutationTable;
    var key := OfBytes([k]);
    var s := Substituted(Xor(key, o[6]));
    var w := Xor(o[7], s);
    ByteOfOfBytes([k], c);
    ByteXor(key, o[6], c);
    ByteSubstituted(Xor(key, o[6]), c);
    ByteXor(o[7], s, c);
    ByteXor(o[1], w, c);
    ByteXor(o[2], w, c);
    ByteXor(o[3], w, c);
    BytePermuted(s, c);
    ByteXor(o[5], Permuted(s), c);
    EightBytes(BytesAt(RoundOfGroup(o, key), c));
  }

  /** The eight words of group `g` in the registers from place `at` on. */
  function GroupAt(r: seq<Word>, at: nat, g: nat): (o: seq<Word>)
    requires g < 8 && 8 * (at + BLOCK) <= |r|
    ensures |o| == BLOCK
  {
    seq(BLOCK, n requires 0 <= n < BLOCK => r[8 * (at + n) + g])
  }

  /** The eight words are those of two places if they are one by one. */
  lemma GroupIs(r: seq<Word>, at: nat, g: nat, o: seq<Word>)
    requires g < 8 && 8 * (at + BLOCK) <= |r| && |o| == BLOCK
    requires r[8 * at + g] == o[0] && r[8 * (at + 1) + g] == o[1] && r[8 * (at + 2) + g] == o[2]
    requires r[8 * (at + 3) + g] == o[3] && r[8 * (at + 4) + g] == o[4] && r[8 * (at + 5) + g] == o[5]
    requires r[8 * (at + 6) + g] == o[6] && r[8 * (at + 7) + g] == o[7]
    ensures GroupAt(r, at, g) == o
  {
  }

  method SlideGroup(r: array<Word>, i: nat, g: nat, key: Word)
    requires 8 * (i + 1 + BLOCK) <= r.Length && g < 8
    modifies r
    ensures GroupAt(r[..], i, g) == RoundOfGroup(old(GroupAt(r[..], i + 1, g)), key)
    ensures forall j :: 0 <= j < r.Length && j % 8 != g ==> r[j] == old(r[j])
  {
    hide Substituted, Permuted, Xor;
    ghost var o := GroupAt(r[..], i + 1, g);
    var s := Substituted(Xor(key, r[8 * (i + 7) + g]));
    var w := Xor(r[8 * (i + 8) + g], s);
    r[8 * i + g] := w;
    r[8 * (i + 2) + g] := Xor(r[8 * (i + 2) + g], w);
    r[8 * (i + 3) + g] := Xor(r[8 * (i + 3) + g], w);
    r[8 * (i + 4) + g] := Xor(r[8 * (i + 4) + g], w);
    r[8 * (i + 6) + g] := Xor(r[8 * (i + 6) + g], Permuted(s));
    GroupIs(r[..], i, g, RoundOfGroup(o, key));
  }

  /** One round of every packet. */
  method SlideRound(r: array<Word>, i: nat, k: Byte)
    requires 8 * (i + 1 + BLOCK) <= r.Length
    modifies r
    ensures forall g, c :: 0 <= g < 8 && 0 <= c < 16 ==>
      BytesAt(GroupAt(r[..], i, g), c) == DecryptRound(old(BytesAt(GroupAt(r[..], i + 1, g), c)), k)
  {
    hide RoundOfGroup, DecryptRound, BytesAt, GroupAt, OfBytes;
    ghost var s := r[..];
    for g := 0 to 8
      invariant forall j :: 0 <= j < g ==> GroupAt(r[..], i, j) == RoundOfGroup(GroupAt(s, i + 1, j), OfBytes([k]))
      invariant forall j :: 0 <= j < r.Length && j % 8 >= g ==> r[j] == s[j]
    {
      OtherGroups(s, r[..], i + 1, g);
      ghost var u := r[..];
      SlideGroup(r, i, g, OfBytes([k]));
      forall j | 0 <= j < g
        ensures GroupAt(r[..], i, j) == GroupAt(u, i, j)
      {
        OtherGroups(u, r[..], i, j);
      }
    }
    forall g, c | 0 <= g < 8 && 0 <= c < 16
      ensures BytesAt(GroupAt(r[..], i, g), c) == DecryptRound(BytesAt(GroupAt(s, i + 1, g), c), k)
    {
      RoundAtEveryByte(GroupAt(s, i + 1, g), k, c);
    }
  }

  /** A group is what its own words are. */
  lemma OtherGroups(s: seq<Word>, r: seq<Word>, at: nat, g: nat)
    requires g < 8 && 8 * (at + BLOCK) <= |r| == |s|
    requires forall j :: 0 <= j < |r| && j % 8 == g ==> r[j] == s[j]
    ensures GroupAt(r, at, g) == GroupAt(s, at, g)
  {
    forall n | 0 <= n < BLOCK
      ensures GroupAt(r, at, g)[n] == GroupAt(s, at, g)[n]
    {
      assert (8 * (at + n) + g) % 8 == g;
    }
  }

  /** dvbcsa_bs_block_decrypt_register: the blocks put in at the top come out deciphered at the bottom. */
  method Slide(schedule: seq<Byte>, r: array<Word>)
    requires |schedule| == ROUNDS && r.Length == 8 * (ROUNDS + BLOCK)
    modifies r
    ensures forall g, c :: 0 <= g < 8 && 0 <= c < 16 ==>
      BytesAt(GroupAt(r[..], 0, g), c) == DecryptBlock(schedule, old(BytesAt(GroupAt(r[..], ROUNDS, g), c)))
  {
    hide DecryptRound, BytesAt, GroupAt;
    ghost var s := r[..];
    for i := ROUNDS downto 0
      invariant forall g, c :: 0 <= g < 8 && 0 <= c < 16 ==>
        DecryptRounds(schedule, BytesAt(GroupAt(r[..], i, g), c), i) ==
          DecryptRounds(schedule, BytesAt(GroupAt(s, ROUNDS, g), c), ROUNDS)
    {
      SlideRound(r, i, schedule[i]);
    }
  }
}
