/** Bytes as the wire carries them, and their bits in transmission order.

    Bit 0 of a byte is its most significant one, which is how FIPS 46-3, ISO/IEC 13818-1 and the
    source number them. */
module Bytes {
  type Byte = bv8

  /** The bit at position `k`, counted from the most significant one. */
  predicate Bit(b: Byte, k: nat)
    requires k < 8
  {
    b & Mask(k) != 0
  }

  /** 0x80 >> k. */
  function Mask(k: nat): Byte
    requires k < 8
  {
    if k == 0 then 0x80 else if k == 1 then 0x40 else if k == 2 then 0x20 else if k == 3 then 0x10
    else if k == 4 then 0x08 else if k == 5 then 0x04 else if k == 6 then 0x02 else 0x01
  }

  /** The bits of a byte string, most significant bit of the first byte first. */
  function Bits(s: seq<Byte>): (bits: seq<bool>)
    ensures |bits| == 8 * |s|
  {
    seq(8 * |s|, i requires 0 <= i < 8 * |s| => Bit(s[i / 8], i % 8))
  }

  /** The source's bit_at. */
  predicate BitAt(s: seq<Byte>, index: nat)
    requires index < 8 * |s|
    ensures BitAt(s, index) == Bits(s)[index]
  {
    Bit(s[index / 8], index % 8)
  }

  function XorBits(x: seq<bool>, y: seq<bool>): (z: seq<bool>)
    requires |x| == |y|
    ensures |z| == |x|
    ensures forall i :: 0 <= i < |x| ==> z[i] == (x[i] != y[i])
  {
    seq(|x|, i requires 0 <= i < |x| => x[i] != y[i])
  }

  function XorBytes(x: seq<Byte>, y: seq<Byte>): (z: seq<Byte>)
    requires |x| == |y|
    ensures |z| == |x|
    ensures forall i :: 0 <= i < |x| ==> z[i] == x[i] ^ y[i]
  {
    seq(|x|, i requires 0 <= i < |x| => x[i] ^ y[i])
  }

  lemma MaskedXor(a: Byte, b: Byte, m: Byte)
    requires m & (m - 1) == 0
    ensures (a ^ b) & m != 0 <==> ((a & m != 0) != (b & m != 0))
  {
  }

  lemma BitOfXor(a: Byte, b: Byte, k: nat)
    requires k < 8
    ensures Bit(a ^ b, k) == (Bit(a, k) != Bit(b, k))
  {
    MaskedXor(a, b, Mask(k));
  }

  lemma BitsOfXor(x: seq<Byte>, y: seq<Byte>)
    requires |x| == |y|
    ensures Bits(XorBytes(x, y)) == XorBits(Bits(x), Bits(y))
  {
    hide Bit, Bits;
    forall i | 0 <= i < 8 * |x|
      ensures Bits(XorBytes(x, y))[i] == (Bits(x)[i] != Bits(y)[i])
    {
      assert BitAt(XorBytes(x, y), i) == Bits(XorBytes(x, y))[i];
      assert BitAt(x, i) == Bits(x)[i] && BitAt(y, i) == Bits(y)[i];
      BitOfXor(x[i / 8], y[i / 8], i % 8);
    }
  }

  lemma BitsOfConcat(x: seq<Byte>, y: seq<Byte>)
    ensures Bits(x + y) == Bits(x) + Bits(y)
  {
    hide Bit;
    forall i | 0 <= i < 8 * |x + y|
      ensures Bits(x + y)[i] == (Bits(x) + Bits(y))[i]
    {
      if i >= 8 * |x| {
        assert (i - 8 * |x|) / 8 == i / 8 - |x| && (i - 8 * |x|) % 8 == i % 8;
      }
    }
  }

  lemma SameBitsSameByte(a: Byte, b: Byte)
    requires forall k :: 0 <= k < 8 ==> Bit(a, k) == Bit(b, k)
    ensures a == b
  {
    assert Bit(a, 0) == Bit(b, 0) && Bit(a, 1) == Bit(b, 1) && Bit(a, 2) == Bit(b, 2) && Bit(a, 3) == Bit(b, 3);
    assert Bit(a, 4) == Bit(b, 4) && Bit(a, 5) == Bit(b, 5) && Bit(a, 6) == Bit(b, 6) && Bit(a, 7) == Bit(b, 7);
  }

  /** Two byte strings with the same bits are the same. */
  lemma BitsInjective(x: seq<Byte>, y: seq<Byte>)
    requires Bits(x) == Bits(y)
    ensures x == y
  {
    assert |x| == |y|;
    forall j | 0 <= j < |x|
      ensures x[j] == y[j]
    {
      forall k | 0 <= k < 8
        ensures Bit(x[j], k) == Bit(y[j], k)
      {
        assert Bits(x)[8 * j + k] == Bits(y)[8 * j + k];
        assert (8 * j + k) / 8 == j && (8 * j + k) % 8 == k;
      }
      SameBitsSameByte(x[j], y[j]);
    }
  }

  function PackByte(bits: seq<bool>): Byte
    requires |bits| == 8
  {
    (if bits[0] then 0x80 else 0) | (if bits[1] then 0x40 else 0) | (if bits[2] then 0x20 else 0) |
    (if bits[3] then 0x10 else 0) | (if bits[4] then 0x08 else 0) | (if bits[5] then 0x04 else 0) |
    (if bits[6] then 0x02 else 0) | (if bits[7] then 0x01 else 0)
  }

  /** The byte string carrying the given bits; the inverse of `Bits`. */
  function Pack(bits: seq<bool>): (s: seq<Byte>)
    requires |bits| % 8 == 0
    ensures |s| == |bits| / 8
    ensures forall j :: 0 <= j < |s| ==> s[j] == PackByte(bits[8 * j..8 * j + 8])
  {
    seq(|bits| / 8, j requires 0 <= j < |bits| / 8 => PackByte(bits[8 * j..8 * j + 8]))
  }

  lemma BitOfPackByte(bits: seq<bool>, k: nat)
    requires |bits| == 8 && k < 8
    ensures Bit(PackByte(bits), k) == bits[k]
  {
  }

  lemma BitsOfPack(bits: seq<bool>)
    requires |bits| % 8 == 0
    ensures Bits(Pack(bits)) == bits
  {
    hide Bit, Bits, PackByte;
    forall i | 0 <= i < |bits|
      ensures Bits(Pack(bits))[i] == bits[i]
    {
      assert BitAt(Pack(bits), i) == Bits(Pack(bits))[i];
      BitOfPackByte(bits[8 * (i / 8)..8 * (i / 8) + 8], i % 8);
    }
  }

  lemma PackOfBits(s: seq<Byte>)
    ensures Pack(Bits(s)) == s
  {
    BitsOfPack(Bits(s));
    BitsInjective(Pack(Bits(s)), s);
  }

  /** The byte part of the source's bit_set. */
  function WithBit(b: Byte, k: nat, value: bool): Byte
    requires k < 8
  {
    if value then b | Mask(k) else b & !Mask(k)
  }

  lemma BitOfWithBit(b: Byte, k: nat, value: bool, j: nat)
    requires k < 8 && j < 8
    ensures Bit(WithBit(b, k, value), j) == if j == k then value else Bit(b, j)
  {
    var m, n := Mask(k), Mask(j);
    if j == k {
      assert m != 0;
      SetMasked(b, m);
    } else {
      assert m & n == 0;
      SetOther(b, m, n);
    }
  }

  lemma SetMasked(b: Byte, m: Byte)
    requires m != 0
    ensures (b | m) & m != 0 && (b & !m) & m == 0
  {
  }

  lemma SetOther(b: Byte, m: Byte, n: Byte)
    requires m & n == 0
    ensures (b | m) & n == b & n && (b & !m) & n == b & n
  {
  }

  method BitSet(data: array<Byte>, index: nat, value: bool)
    requires index < 8 * data.Length
    modifies data
    ensures Bits(data[..]) == old(Bits(data[..]))[index := value]
  {
    ghost var before := data[..];
    data[index / 8] := WithBit(data[index / 8], index % 8, value);
    forall i | 0 <= i < 8 * data.Length
      ensures Bits(data[..])[i] == Bits(before)[index := value][i]
    {
      if i / 8 == index / 8 {
        BitOfWithBit(before[i / 8], index % 8, value, i % 8);
      }
    }
  }
}
