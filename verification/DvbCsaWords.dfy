/** The words of the bit-sliced library, third_party/libdvbcsa/dvbcsa_bs_portable128.h: 128 bits, the least
    significant one first, and the operations on them by what they do to the bits. */
module DvbCsaWords {
  import opened Bytes

  const BITS := 128

  type Word = w: seq<bv1> | |w| == BITS witness seq(BITS, _ => 0)

  function And(a: Word, b: Word): (r: Word)
    ensures forall i :: 0 <= i < BITS ==> r[i] == a[i] & b[i]
  {
    seq(BITS, i requires 0 <= i < BITS => a[i] & b[i])
  }

  function Or(a: Word, b: Word): (r: Word)
    ensures forall i :: 0 <= i < BITS ==> r[i] == a[i] | b[i]
  {
    seq(BITS, i requires 0 <= i < BITS => a[i] | b[i])
  }

  function Xor(a: Word, b: Word): (r: Word)
    ensures forall i :: 0 <= i < BITS ==> r[i] == a[i] ^ b[i]
  {
    seq(BITS, i requires 0 <= i < BITS => a[i] ^ b[i])
  }

  function Not(a: Word): (r: Word)
    ensures forall i :: 0 <= i < BITS ==> r[i] == !a[i]
  {
    seq(BITS, i requires 0 <= i < BITS => !a[i])
  }

  /** Shifting by bits, each 64-bit half on its own. */
  function Shl(a: Word, n: nat): (r: Word)
    ensures forall i :: 0 <= i < BITS ==> r[i] == if i % 64 >= n then a[i - n] else 0
  {
    seq(BITS, i requires 0 <= i < BITS => if i % 64 >= n then a[i - n] else 0)
  }

  function Shr(a: Word, n: nat): (r: Word)
    ensures forall i :: 0 <= i < BITS ==> r[i] == if i % 64 + n < 64 then a[i + n] else 0
  {
    seq(BITS, i requires 0 <= i < BITS => if i % 64 + n < 64 then a[i + n] else 0)
  }

  /** Shifting by bytes, across the halves. */
  function Shl8(a: Word, n: nat): (r: Word)
    ensures forall i :: 0 <= i < BITS ==> r[i] == if i >= 8 * n then a[i - 8 * n] else 0
  {
    seq(BITS, i requires 0 <= i < BITS => if i >= 8 * n then a[i - 8 * n] else 0)
  }

  function Shr8(a: Word, n: nat): (r: Word)
    ensures forall i :: 0 <= i < BITS ==> r[i] == if i + 8 * n < BITS then a[i + 8 * n] else 0
  {
    seq(BITS, i requires 0 <= i < BITS => if i + 8 * n < BITS then a[i + 8 * n] else 0)
  }

  /* ---- bytes ---- */

  function Lowest(b: Byte): bv1 { (b & 1) as bv1 }

  /** A bit of a byte, the least significant one being number 0. */
  function BitOf(b: Byte, k: nat): bv1
    requires k < 8
  {
    if k == 0 then Lowest(b) else if k == 1 then Lowest(b >> 1) else if k == 2 then Lowest(b >> 2)
    else if k == 3 then Lowest(b >> 3) else if k == 4 then Lowest(b >> 4) else if k == 5 then Lowest(b >> 5)
    else if k == 6 then Lowest(b >> 6) else Lowest(b >> 7)
  }

  function OfBits(b0: bv1, b1: bv1, b2: bv1, b3: bv1, b4: bv1, b5: bv1, b6: bv1, b7: bv1): Byte {
    (b0 as Byte) | ((b1 as Byte) << 1) | ((b2 as Byte) << 2) | ((b3 as Byte) << 3) |
    ((b4 as Byte) << 4) | ((b5 as Byte) << 5) | ((b6 as Byte) << 6) | ((b7 as Byte) << 7)
  }

  /** A bit of a byte of a word, and the byte. */
  function BitIn(w: Word, c: nat, k: nat): bv1
    requires c < 16 && k < 8
  {
    w[8 * c + k]
  }

  function ByteOf(w: Word, c: nat): Byte
    requires c < 16
  {
    OfBits(BitIn(w, c, 0), BitIn(w, c, 1), BitIn(w, c, 2), BitIn(w, c, 3),
           BitIn(w, c, 4), BitIn(w, c, 5), BitIn(w, c, 6), BitIn(w, c, 7))
  }

  /** A word of bytes, which are repeated if there are not enough: BS_VAL8 and its kin, last byte first. */
  function OfBytes(bytes: seq<Byte>): (w: Word)
    requires |bytes| > 0
    ensures forall i :: 0 <= i < BITS ==> w[i] == BitOf(bytes[i / 8 % |bytes|], i % 8)
  {
    seq(BITS, i requires 0 <= i < BITS => BitOf(bytes[i / 8 % |bytes|], i % 8))
  }

  lemma BitOfBits(b0: bv1, b1: bv1, b2: bv1, b3: bv1, b4: bv1, b5: bv1, b6: bv1, b7: bv1)
    ensures var b := OfBits(b0, b1, b2, b3, b4, b5, b6, b7);
            && BitOf(b, 0) == b0 && BitOf(b, 1) == b1 && BitOf(b, 2) == b2 && BitOf(b, 3) == b3
            && BitOf(b, 4) == b4 && BitOf(b, 5) == b5 && BitOf(b, 6) == b6 && BitOf(b, 7) == b7
  {
  }

  lemma BitsOfByte(b: Byte)
    ensures OfBits(BitOf(b, 0), BitOf(b, 1), BitOf(b, 2), BitOf(b, 3),
                   BitOf(b, 4), BitOf(b, 5), BitOf(b, 6), BitOf(b, 7)) == b
  {
  }

  /** The bits of a word's byte are the word's. */
  lemma BitOfByteOf(w: Word, c: nat, k: nat)
    requires c < 16 && k < 8
    ensures BitOf(ByteOf(w, c), k) == BitIn(w, c, k)
  {
    hide BitOf, OfBits, BitIn;
    BitOfBits(BitIn(w, c, 0), BitIn(w, c, 1), BitIn(w, c, 2), BitIn(w, c, 3),
              BitIn(w, c, 4), BitIn(w, c, 5), BitIn(w, c, 6), BitIn(w, c, 7));
  }

  /** Bytes put into a word are read from it. */
  lemma ByteOfOfBytes(bytes: seq<Byte>, c: nat)
    requires |bytes| > 0 && c < 16
    ensures ByteOf(OfBytes(bytes), c) == bytes[c % |bytes|]
  {
    hide BitOf, OfBits;
    var w := OfBytes(bytes);
    forall k | 0 <= k < 8
      ensures BitIn(w, c, k) == BitOf(bytes[c % |bytes|], k)
    {
      BitNumber(c, k);
    }
    ByteIs(w, c, bytes[c % |bytes|]);
  }

  lemma BitNumber(c: nat, k: nat)
    requires k < 8
    ensures (8 * c + k) / 8 == c && (8 * c + k) % 8 == k
  {
  }

  /** A byte is known by its bits. */
  lemma ByteIs(w: Word, c: nat, b: Byte)
    requires c < 16 && forall k :: 0 <= k < 8 ==> BitIn(w, c, k) == BitOf(b, k)
    ensures ByteOf(w, c) == b
  {
    hide BitOf, OfBits, BitIn;
    BitsOfByte(b);
  }

  lemma SameByte(v: Word, c: nat, w: Word, d: nat)
    requires c < 16 && d < 16 && forall k :: 0 <= k < 8 ==> BitIn(v, c, k) == BitIn(w, d, k)
    ensures ByteOf(v, c) == ByteOf(w, d)
  {
    hide OfBits, BitIn;
  }
}
