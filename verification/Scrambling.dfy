/** The descrambler of core/dtv_csa.c over the cipher of third_party/libdvbcsa: what was scrambled as
    tests/csa_test.c scrambles it comes back. */
module Scrambling {
  import opened Bytes
  import opened TsPacket
  import opened DvbCsa
  import Csa
  import DvbCsaWords
  import DvbCsaBatch

  /** The largest payload, which is what every batch is deciphered up to. */
  const PAYLOAD := 184

  /** How a control word is turned into the bytes of the rounds. Nothing here depends on it. */
  type KeySchedule = w: seq<Byte> -> seq<Byte> | forall x :: |w(x)| == ROUNDS
    witness (_: seq<Byte>) => seq(ROUNDS, _ => 0)

  /** The library as a cipher: a control word and a payload to the payload deciphered. */
  function CipherOf(schedule: KeySchedule): Csa.Cipher {
    (word: seq<Byte>, p: seq<Byte>) => if |word| == 8 then Decrypt(Key(word, schedule(word)), p) else p
  }

  lemma CipherKeepsLength(schedule: KeySchedule)
    ensures Csa.KeepsLength(CipherOf(schedule))
  {
    hide Decrypt;
  }

  /** The scrambling control of a clear packet set: 0b10 for the even word, 0b11 for the odd one. */
  function Marked(p: Packet, odd: bool): Packet {
    p[3 := p[3] | (if odd then 0xc0 else 0x80)]
  }

  /** A clear packet, scrambled under one of the two words. */
  function Scramble(p: Packet, odd: bool, word: seq<Byte>, schedule: KeySchedule): (r: Packet)
    requires |word| == 8
  {
    hide Encrypt, Marked, PayloadOffset;
    Marked(p, odd)[..PayloadOffset(p)] + Encrypt(Key(word, schedule(word)), p[PayloadOffset(p)..])
  }

  lemma MarkedBits(b: Byte, odd: bool)
    requires b & 0xc0 == 0
    ensures var s := b | (if odd then 0xc0 else 0x80);
            s & 0x80 != 0 && (s & 0x40 != 0 <==> odd) && s & 0x3f == b && s & 0x30 == b & 0x30
  {
  }

  /** The header of a scrambled packet, in the eyes of the descrambler. */
  lemma HeaderSeen(p: Packet, odd: bool, s: Packet, words: Csa.Words)
    requires p[0] == SYNC && p[3] & 0xc0 == 0 && s[..PayloadOffset(p)] == Marked(p, odd)[..PayloadOffset(p)]
    ensures Csa.Scrambled(s) && PayloadOffset(s) == PayloadOffset(p)
    ensures Csa.WordFor(s, words) == if odd then words.odd else words.even
    ensures Csa.Cleared(s)[..PayloadOffset(p)] == p[..PayloadOffset(p)]
  {
    MarkedBits(p[3], odd);
    var m, o := Marked(p, odd), PayloadOffset(p);
    assert s[0] == s[..o][0] == m[0] && s[3] == s[..o][3] == m[3];
    assert o > 4 ==> s[4] == s[..o][4] == p[4];
    SameOffset(p, s);
    assert forall k :: 0 <= k < o ==> s[k] == s[..o][k] == m[k];
  }

  lemma SameOffset(p: Packet, s: Packet)
    requires s[3] & 0x30 == p[3] & 0x30 && (PayloadOffset(p) > 4 ==> s[4] == p[4])
    ensures PayloadOffset(s) == PayloadOffset(p)
  {
  }

  /** Whatever the packet, its adaptation field, the parity and the words: descrambling with the word it
      was scrambled with gives back the clear packet. */
  lemma DescramblingUndoesScrambling(p: Packet, odd: bool, words: Csa.Words, word: seq<Byte>, schedule: KeySchedule)
    requires p[0] == SYNC && p[3] & 0xc0 == 0 && |word| == 8
    requires (if odd then words.odd else words.even) == Csa.Installed(word)
    ensures Csa.Descramble(Scramble(p, odd, word, schedule), words, CipherOf(schedule)) == p
  {
    hide Scramble, CipherOf, Encrypt, Decrypt, PayloadOffset, Marked, Csa.Cleared, Csa.Scrambled, Csa.WordFor,
        Csa.Deciphered;
    var o, key := PayloadOffset(p), Key(word, schedule(word));
    var s := Scramble(p, odd, word, schedule);
    ScrambleParts(p, odd, word, schedule);
    HeaderSeen(p, odd, s, words);
    DecryptUndoesEncrypt(key, p[o..]);
    PayloadKept(s, o);
    DecipheredClear(Csa.Cleared(s), o, p, word, schedule);
  }

  lemma ScrambleParts(p: Packet, odd: bool, word: seq<Byte>, schedule: KeySchedule)
    requires |word| == 8
    ensures var s, o := Scramble(p, odd, word, schedule), PayloadOffset(p);
            s[..o] == Marked(p, odd)[..o] && s[o..] == Encrypt(Key(word, schedule(word)), p[o..])
  {
    hide Encrypt, Marked, PayloadOffset;
  }

  lemma DecipheredClear(c: Packet, o: nat, p: Packet, word: seq<Byte>, schedule: KeySchedule)
    requires |word| == 8 && 4 <= o <= PACKET && c[..o] == p[..o]
    requires Decrypt(Key(word, schedule(word)), c[o..]) == p[o..]
    ensures Csa.Deciphered(c, word, o, CipherOf(schedule)) == p
  {
    hide Decrypt;
    assert p == p[..o] + p[o..] && c == c[..o] + c[o..];
  }

  lemma PayloadKept(s: Packet, o: nat)
    requires 4 <= o <= PACKET
    ensures Csa.Cleared(s)[o..] == s[o..]
  {
  }

  /** batch_flush: the library's batch does to each payload what the cipher does. */
  method DecryptSlots(word: seq<Byte>, schedule: KeySchedule, slots: array<seq<Byte>>)
    requires |word| == 8 && slots.Length <= DvbCsaWords.BITS
    requires forall g :: 0 <= g < slots.Length ==> |slots[g]| <= PAYLOAD
    modifies slots
    ensures forall g :: 0 <= g < slots.Length ==> slots[g] == CipherOf(schedule)(word, old(slots[g]))
  {
    hide Decrypt;
    DvbCsaBatch.DecryptBatch(Key(word, schedule(word)), slots, PAYLOAD);
  }

  /** A run of packets scrambled each under either word comes back packet by packet. */
  lemma RunRestores(clear: seq<Packet>, odd: seq<bool>, words: Csa.Words, even: seq<Byte>, other: seq<Byte>,
                    schedule: KeySchedule, run: seq<Packet>)
    requires |odd| == |clear| == |run| && |even| == 8 && |other| == 8
    requires words == Csa.Words(Csa.Installed(even), Csa.Installed(other))
    requires forall i :: 0 <= i < |clear| ==> clear[i][0] == SYNC && clear[i][3] & 0xc0 == 0
    requires forall i :: 0 <= i < |clear| ==>
      run[i] == Scramble(clear[i], odd[i], if odd[i] then other else even, schedule)
    ensures Csa.KeepsLength(CipherOf(schedule)) && Csa.DescrambleAll(run, words, CipherOf(schedule)) == clear
  {
    hide Scramble, CipherOf, Csa.Descramble;
    CipherKeepsLength(schedule);
    forall i | 0 <= i < |clear|
      ensures Csa.DescrambleAll(run, words, CipherOf(schedule))[i] == clear[i]
    {
      DescramblingUndoesScrambling(clear[i], odd[i], words, if odd[i] then other else even, schedule);
    }
  }
}
