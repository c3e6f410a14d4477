/** Numbers inside byte strings: big-endian words and the twelve-bit length of a section header. */
module Wire {
  import opened Bytes

  function Hi(n: nat): Byte { (n / 256 % 256) as Byte }

  function Lo(n: nat): Byte { (n % 256) as Byte }

  function Word(hi: Byte, lo: Byte): nat { 256 * hi as nat + lo as nat }

  lemma Increment(b: Byte)
    ensures b < 255 <==> b as nat < 255
    ensures b < 255 ==> (b + 1) as nat == b as nat + 1
  {
  }

  lemma ByteWithValue(n: nat) returns (b: Byte)
    requires n < 256
    ensures b as nat == n
  {
    if n == 0 {
      b := 0;
    } else {
      b := ByteWithValue(n - 1);
      Increment(b);
      b := b + 1;
    }
  }

  lemma ByteBack(b: Byte)
    ensures (b as nat) as Byte == b
  {
  }

  lemma ByteOfNat(n: nat)
    requires n < 256
    ensures (n as Byte) as nat == n
  {
    var b := ByteWithValue(n);
    ByteBack(b);
  }

  lemma ByteBound(b: Byte)
    ensures b as nat < 256
  {
  }

  lemma LoValue(n: nat)
    ensures Lo(n) as nat == n % 256
  {
    ByteOfNat(n % 256);
  }

  lemma WordOfBytes(n: nat)
    requires n < 0x10000
    ensures Word(Hi(n), Lo(n)) == n
  {
    ByteOfNat(n / 256);
    ByteOfNat(n % 256);
  }

  /** The top nibble of a section's second byte with a new length under it. */
  function LengthHi(flags: Byte, n: nat): Byte
    requires n < 4096
  {
    (flags & 0xf0) | (n / 256) as Byte
  }

  lemma NibbleUnderFlags(flags: Byte, x: Byte)
    requires x < 16
    ensures ((flags & 0xf0) | x) & 0x0f == x && ((flags & 0xf0) | x) & 0xf0 == flags & 0xf0
  {
  }

  lemma NibbleOfNat(n: nat)
    requires n < 16
    ensures n as Byte < 16
  {
  }

  /** The twelve-bit length of a section header. */
  function SectionLength(b1: Byte, b2: Byte): nat {
    Word(b1 & 0x0f, b2)
  }

  /** The size a section announces by it. */
  function Announced(data: seq<Byte>): nat
    requires |data| >= 3
  {
    3 + SectionLength(data[1], data[2])
  }

  lemma SectionLengthOfEncoded(flags: Byte, n: nat)
    requires n < 4096
    ensures SectionLength(LengthHi(flags, n), Lo(n)) == n
  {
    NibbleOfNat(n / 256);
    NibbleUnderFlags(flags, (n / 256) as Byte);
    ByteOfNat(n / 256);
    ByteOfNat(n % 256);
  }

  lemma LengthRecovered(b1: Byte, b2: Byte, n: nat)
    requires SectionLength(b1, b2) == n
    ensures n < 4096 && LengthHi(b1, n) == b1 && Lo(n) == b2
  {
    NibbleToNat(b1 & 0x0f);
    assert n == 256 * (b1 & 0x0f) as nat + b2 as nat;
    assert n / 256 == (b1 & 0x0f) as nat && n % 256 == b2 as nat;
    NibblesJoin(b1);
  }

  lemma NibbleToNat(x: Byte)
    requires x < 16
    ensures x as nat < 16
  {
  }

  lemma NibblesJoin(b: Byte)
    ensures (b & 0xf0) | (b & 0x0f) == b
  {
  }
}
