/** Descrambling in batches, core/dtv_csa.c. The cipher itself belongs to a library: it is a
    parameter, any function from a key and a payload to a payload of the same size. */
module Csa {
  import opened Bytes
  import opened TsPacket
  import opened Wrappers

  type Key = seq<Byte>
  type Cipher = (Key, seq<Byte>) -> seq<Byte>

  ghost predicate KeepsLength(cipher: Cipher) {
    forall k, p :: |cipher(k, p)| == |p|
  }

  datatype Word = NoKey | Installed(key: Key)

  /** The control words of the two parities. */
  datatype Words = Words(even: Word, odd: Word)

  /* ---- one packet ---- */

  predicate Scrambled(p: Packet) { p[0] == SYNC && p[3] & 0x80 != 0 }

  /** Scrambling control 0b10 is even, 0b11 odd. */
  function WordFor(p: Packet, words: Words): Word {
    if p[3] & 0x40 != 0 then words.odd else words.even
  }

  function Cleared(p: Packet): Packet { p[3 := p[3] & 0x3f] }

  /** A packet decrypted on sight: left alone without a key, otherwise its scrambling bits cleared
      and its payload, if any, deciphered. */
  function Descramble(p: Packet, words: Words, cipher: Cipher): seq<Byte> {
    if !Scrambled(p) || WordFor(p, words).NoKey? then p
    else Deciphered(Cleared(p), WordFor(p, words).key, PayloadOffset(p), cipher)
  }

  function Deciphered(p: Packet, key: Key, offset: nat, cipher: Cipher): seq<Byte>
    requires offset <= PACKET
  {
    if offset == PACKET then p else p[..offset] + cipher(key, p[offset..])
  }

  /** Whether a packet counts as decrypted. */
  function Counted(p: Packet, words: Words): nat {
    if Scrambled(p) && WordFor(p, words).Installed? && PayloadOffset(p) < PACKET then 1 else 0
  }

  lemma DescrambleKeepsLength(p: Packet, words: Words, cipher: Cipher)
    requires KeepsLength(cipher)
    ensures |Descramble(p, words, cipher)| == PACKET
  {
  }

  /** The header but for the scrambling bits, and the adaptation field, are left as they were. */
  lemma DescrambleKeepsHeader(p: Packet, words: Words, cipher: Cipher)
    requires KeepsLength(cipher)
    ensures var r := Descramble(p, words, cipher);
            && |r| == PACKET
            && r[..3] == p[..3] && r[3] & 0x3f == p[3] & 0x3f
            && r[4..PayloadOffset(p)] == p[4..PayloadOffset(p)]
  {
    hide Scrambled, WordFor;
    LowBits(p[3]);
    var o := PayloadOffset(p);
    if o < PACKET {
      var c := Cleared(p);
      assert c[..3] == p[..3] && c[4..o] == p[4..o];
    }
  }

  /** Of a scrambled packet exactly the payload is deciphered, wherever its adaptation field lets it start,
      with the word of the parity its header names; and the header says that it is scrambled no more. */
  lemma PayloadDeciphered(p: Packet, header: seq<Byte>, field: Option<seq<Byte>>, payload: seq<Byte>, words: Words,
                          cipher: Cipher)
    requires KeepsLength(cipher) && Holds(p, header, field, payload)
    requires header[0] == 0x47 && header[3] & 0x80 != 0
    requires (if header[3] & 0x40 != 0 then words.odd else words.even).Installed?
    ensures var key := (if header[3] & 0x40 != 0 then words.odd else words.even).key;
            Descramble(p, words, cipher) ==
              header[3 := header[3] & 0x3f] + FieldBytes(field) + cipher(key, payload)
    ensures Counted(p, words) == if payload == [] then 0 else 1
  {
    hide FieldBytes, Holds;
    PayloadFound(p, header, field, payload);
    var o := PACKET - |payload|;
    assert o >= 4 && p[0] == p[..o][0] == header[0];
    ClearedParts(p, o, header, FieldBytes(field), payload);
    DecipheredParts(Cleared(p), WordFor(p, words).key, o, cipher);
  }

  lemma ClearedParts(p: Packet, o: nat, header: seq<Byte>, field: seq<Byte>, payload: seq<Byte>)
    requires |header| == 4 && o <= PACKET && p[..o] == header + field && p[o..] == payload && p[3] == header[3]
    ensures Cleared(p)[..o] == header[3 := header[3] & 0x3f] + field && Cleared(p)[o..] == payload
  {
    assert o >= 4;
  }

  /** Anything else is left alone: no packet, one in the clear, or one whose parity has no word. */
  lemma OthersUntouched(p: Packet, words: Words, cipher: Cipher)
    requires p[0] != 0x47 || p[3] & 0x80 == 0 || (if p[3] & 0x40 != 0 then words.odd else words.even).NoKey?
    ensures Descramble(p, words, cipher) == p && Counted(p, words) == 0
  {
  }

  lemma DecipheredParts(c: Packet, key: Key, o: nat, cipher: Cipher)
    requires KeepsLength(cipher) && o <= PACKET
    ensures Deciphered(c, key, o, cipher) == c[..o] + cipher(key, c[o..])
  {
    if o == PACKET {
      assert c == c[..o] + [] && |cipher(key, c[o..])| == 0;
    }
  }

  lemma LowBits(b: Byte)
    ensures (b & 0x3f) & 0x3f == b & 0x3f && (b & 0x3f) & 0x80 == 0 && (b & 0x3f) & 0x30 == b & 0x30
  {
  }

  /** A handled packet is no longer scrambled; one without a key is untouched. */
  lemma DescrambleTwice(p: Packet, words: Words, cipher: Cipher)
    requires KeepsLength(cipher)
    ensures var r := Descramble(p, words, cipher);
            |r| == PACKET && Descramble(r, words, cipher) == r && Counted(r, words) == 0
  {
    DescrambleKeepsLength(p, words, cipher);
    LowBits(p[3]);
    var r := Descramble(p, words, cipher);
    if Scrambled(p) && WordFor(p, words).Installed? {
      assert r[3] == p[3] & 0x3f;
    }
  }

  /* ---- a run of packets ---- */

  ghost function DescrambleAll(packets: seq<Packet>, words: Words, cipher: Cipher): (r: seq<Packet>)
    requires KeepsLength(cipher)
    ensures |r| == |packets|
    ensures forall i :: 0 <= i < |packets| ==> r[i] == Descramble(packets[i], words, cipher)
  {
    seq<Packet>(|packets|, i requires 0 <= i < |packets| =>
      (DescrambleKeepsLength(packets[i], words, cipher); Descramble(packets[i], words, cipher)))
  }

  ghost function CountAll(packets: seq<Packet>, words: Words): nat {
    if packets == [] then 0 else CountAll(packets[..|packets| - 1], words) + Counted(packets[|packets| - 1], words)
  }

  /** A second run does nothing. */
  lemma {:induction false} RunTwice(packets: seq<Packet>, words: Words, cipher: Cipher)
    requires KeepsLength(cipher)
    ensures var once := DescrambleAll(packets, words, cipher);
            DescrambleAll(once, words, cipher) == once && CountAll(once, words) == 0
    decreases |packets|
  {
    hide Descramble, Counted;
    var once := DescrambleAll(packets, words, cipher);
    forall i | 0 <= i < |packets|
      ensures DescrambleAll(once, words, cipher)[i] == once[i]
    {
      DescrambleTwice(packets[i], words, cipher);
    }
    if packets != [] {
      var n := |packets| - 1;
      RunTwice(packets[..n], words, cipher);
      assert once[..n] == DescrambleAll(packets[..n], words, cipher);
      DescrambleTwice(packets[n], words, cipher);
    }
  }

  /** Two runs one after the other are one run over both. */
  lemma {:induction false} RunConcat(x: seq<Packet>, y: seq<Packet>, words: Words, cipher: Cipher)
    requires KeepsLength(cipher)
    ensures DescrambleAll(x + y, words, cipher) == DescrambleAll(x, words, cipher) + DescrambleAll(y, words, cipher)
    ensures CountAll(x + y, words) == CountAll(x, words) + CountAll(y, words)
    decreases |y|
  {
    hide Descramble, Counted;
    if y == [] {
      assert x + y == x;
    } else {
      var n := |y| - 1;
      assert (x + y)[..|x + y| - 1] == x + y[..n];
      RunConcat(x, y[..n], words, cipher);
    }
  }

  /* ---- batches ---- */

  /** A slot points at the payload of a packet; the list ends with an empty pointer. */
  datatype Slot = End | At(index: nat, offset: nat)

  function KeyOf(word: Word): Key { if word.Installed? then word.key else [] }

  ghost predicate Within(slots: seq<Slot>, n: nat) {
    forall k :: 0 <= k < |slots| ==> slots[k].At? && slots[k].index < n && slots[k].offset < PACKET
  }

  lemma DecipheredLength(p: Packet, key: Key, offset: nat, cipher: Cipher)
    requires KeepsLength(cipher) && offset <= PACKET
    ensures |Deciphered(p, key, offset, cipher)| == PACKET
    ensures offset == PACKET ==> Deciphered(p, key, offset, cipher) == p
  {
  }

  /** What deciphering a list of slots makes of the packets. */
  ghost function Apply(packets: seq<Packet>, slots: seq<Slot>, key: Key, cipher: Cipher): (r: seq<Packet>)
    requires KeepsLength(cipher) && Within(slots, |packets|)
    ensures |r| == |packets|
    decreases |slots|
  {
    if slots == [] then packets
    else
      var n := |slots| - 1;
      var r := Apply(packets, slots[..n], key, cipher);
      var s := slots[n];
      DecipheredLength(r[s.index], key, s.offset, cipher);
      r[s.index := Deciphered(r[s.index], key, s.offset, cipher)]
  }

  ghost predicate Avoids(slots: seq<Slot>, i: nat) {
    forall k :: 0 <= k < |slots| ==> slots[k].At? ==> slots[k].index != i
  }

  ghost predicate Disjoint(x: seq<Slot>, y: seq<Slot>) {
    forall k :: 0 <= k < |x| ==> x[k].At? ==> Avoids(y, x[k].index)
  }

  lemma {:induction false} ApplyElsewhere(packets: seq<Packet>, slots: seq<Slot>, i: nat, p: Packet,
                                          key: Key, cipher: Cipher)
    requires KeepsLength(cipher) && Within(slots, |packets|) && i < |packets| && Avoids(slots, i)
    ensures Apply(packets, slots, key, cipher)[i] == packets[i]
    ensures Apply(packets[i := p], slots, key, cipher) == Apply(packets, slots, key, cipher)[i := p]
    decreases |slots|
  {
    hide Deciphered;
    if slots != [] {
      ApplyElsewhere(packets, slots[..|slots| - 1], i, p, key, cipher);
    }
  }

  /** Batches that share no packet can be deciphered in either order. */
  lemma {:induction false} BatchesCommute(packets: seq<Packet>, x: seq<Slot>, y: seq<Slot>, k: Key, l: Key,
      cipher: Cipher)
    requires KeepsLength(cipher) && Within(x, |packets|) && Within(y, |packets|) && Disjoint(x, y)
    ensures Apply(Apply(packets, x, k, cipher), y, l, cipher) == Apply(Apply(packets, y, l, cipher), x, k, cipher)
    decreases |x|
  {
    hide Deciphered;
    if x != [] {
      var n := |x| - 1;
      var s := x[n];
      var a := Apply(packets, x[..n], k, cipher);
      BatchesCommute(packets, x[..n], y, k, l, cipher);
      DecipheredLength(a[s.index], k, s.offset, cipher);
      ApplyElsewhere(a, y, s.index, Deciphered(a[s.index], k, s.offset, cipher), l, cipher);
    }
  }

  /** Once the batch is flushed, a packet given its next slot has been deciphered, and no other changed. */
  lemma Enqueued(packets: seq<Packet>, slots: seq<Slot>, i: nat, offset: nat, key: Key, cipher: Cipher)
    requires KeepsLength(cipher) && Within(slots, |packets|) && i < |packets| && Avoids(slots, i) && offset < PACKET
    ensures Within(slots + [At(i, offset)], |packets|)
    ensures |Deciphered(packets[i], key, offset, cipher)| == PACKET
    ensures Apply(packets, slots + [At(i, offset)], key, cipher)
         == Apply(packets, slots, key, cipher)[i := Deciphered(packets[i], key, offset, cipher)]
  {
    DecipheredLength(packets[i], key, offset, cipher);
    hide Deciphered;
    var more := slots + [At(i, offset)];
    assert more[..|more| - 1] == slots;
    ApplyElsewhere(packets, slots, i, packets[i], key, cipher);
  }

  ghost function Both(packets: seq<Packet>, even: seq<Slot>, odd: seq<Slot>, words: Words,
      cipher: Cipher): (r: seq<Packet>)
    requires KeepsLength(cipher) && Within(even, |packets|) && Within(odd, |packets|)
    ensures |r| == |packets|
  {
    Apply(Apply(packets, even, KeyOf(words.even), cipher), odd, KeyOf(words.odd), cipher)
  }

  lemma BothElsewhere(packets: seq<Packet>, even: seq<Slot>, odd: seq<Slot>, words: Words, i: nat, p: Packet,
      cipher: Cipher)
    requires KeepsLength(cipher) && i < |packets| && Within(even, i) && Within(odd, i)
    ensures Both(packets[i := p], even, odd, words, cipher) == Both(packets, even, odd, words, cipher)[i := p]
    ensures Both(packets, even, odd, words, cipher)[i] == packets[i]
  {
    hide Apply;
    ApplyElsewhere(packets, even, i, p, KeyOf(words.even), cipher);
    ApplyElsewhere(Apply(packets, even, KeyOf(words.even), cipher), odd, i, p, KeyOf(words.odd), cipher);
  }

  lemma BothEnqueued(packets: seq<Packet>, even: seq<Slot>, odd: seq<Slot>, words: Words, i: nat, offset: nat,
                     cipher: Cipher)
    requires KeepsLength(cipher) && i < |packets| && offset < PACKET && Within(even, i) && Within(odd, i)
    ensures |Deciphered(packets[i], KeyOf(words.even), offset, cipher)| == PACKET
    ensures |Deciphered(packets[i], KeyOf(words.odd), offset, cipher)| == PACKET
    ensures Within(even + [At(i, offset)], i + 1) && Within(odd + [At(i, offset)], i + 1)
    ensures Both(packets, even + [At(i, offset)], odd, words, cipher)
         == Both(packets, even, odd, words, cipher)[i := Deciphered(packets[i], KeyOf(words.even), offset, cipher)]
    ensures Both(packets, even, odd + [At(i, offset)], words, cipher)
         == Both(packets, even, odd, words, cipher)[i := Deciphered(packets[i], KeyOf(words.odd), offset, cipher)]
  {
    hide Apply, Deciphered;
    Enqueued(packets, even, i, offset, KeyOf(words.even), cipher);
    var a := Apply(packets, even, KeyOf(words.even), cipher);
    ApplyElsewhere(packets, even, i, packets[i], KeyOf(words.even), cipher);
    Enqueued(a, odd, i, offset, KeyOf(words.odd), cipher);
    ApplyElsewhere(a, odd, i, Deciphered(packets[i], KeyOf(words.even), offset, cipher), KeyOf(words.odd), cipher);
  }

  /** Flushing one batch early changes nothing in the end. */
  lemma BothFlushed(packets: seq<Packet>, even: seq<Slot>, odd: seq<Slot>, words: Words, cipher: Cipher)
    requires KeepsLength(cipher) && Within(even, |packets|) && Within(odd, |packets|) && Disjoint(even, odd)
    ensures Both(Apply(packets, even, KeyOf(words.even), cipher), [], odd, words, cipher)
         == Both(packets, even, odd, words, cipher)
    ensures Both(Apply(packets, odd, KeyOf(words.odd), cipher), even, [], words, cipher)
         == Both(packets, even, odd, words, cipher)
  {
    BatchesCommute(packets, even, odd, KeyOf(words.even), KeyOf(words.odd), cipher);
  }

  lemma ApplyBelow(packets: seq<Packet>, slots: seq<Slot>, n: nat, key: Key, cipher: Cipher)
    requires KeepsLength(cipher) && n <= |packets| && Within(slots, n)
    ensures Within(slots, |packets|)
    ensures Apply(packets, slots, key, cipher)[n..] == packets[n..]
  {
    hide Apply;
    forall i | n <= i < |packets|
      ensures Apply(packets, slots, key, cipher)[i] == packets[i]
    {
      ApplyElsewhere(packets, slots, i, packets[i], key, cipher);
    }
  }

  class Batch {
    var word: Word
    const slots: array<Slot>
    var count: nat

    ghost predicate Valid() reads this { count < slots.Length }

    ghost function Queued(): seq<Slot>
      requires Valid()
      reads this, slots
    {
      slots[..count]
    }

    constructor (size: nat)
      requires size > 0
      ensures Valid() && fresh(slots) && slots.Length == size + 1 && count == 0 && word == NoKey
    {
      word, slots, count := NoKey, new Slot[size + 1](_ => End), 0;
    }

    /** Deciphers what is queued; an empty batch leaves even the end mark alone. */
    method Flush(packets: array<Packet>, cipher: Cipher)
      requires Valid() && KeepsLength(cipher)
      requires slots as object != packets
      requires Within(Queued(), packets.Length)
      requires count > 0 ==> word.Installed?
      modifies `count, slots, packets
      ensures count == 0
      ensures packets[..] == Apply(old(packets[..]), old(Queued()), KeyOf(word), cipher)
    {
      if count == 0 {
        return;
      }
      hide Deciphered;
      ghost var queued := Queued();
      slots[count] := End;
      var k := 0;
      while slots[k] != End
        invariant k <= count == |queued|
        invariant slots[..count] == queued && slots[count] == End
        invariant Within(queued[..k], packets.Length)
        invariant packets[..] == Apply(old(packets[..]), queued[..k], KeyOf(word), cipher)
        decreases count - k
      {
        var s := slots[k];
        assert s == queued[k];
        DecipheredLength(packets[s.index], word.key, s.offset, cipher);
        packets[s.index] := Deciphered(packets[s.index], word.key, s.offset, cipher);
        assert queued[..k + 1][..k] == queued[..k];
        k := k + 1;
      }
      assert queued[..k] == queued;
      count := 0;
    }
  }

  /* ---- the descrambler ---- */

  /** Packet i of a run, made of the first i packets descrambled and the others as they came. */
  ghost function Part(original: seq<Packet>, i: nat, words: Words, cipher: Cipher): (r: seq<Packet>)
    requires KeepsLength(cipher) && i <= |original|
    ensures |r| == |original|
  {
    DescrambleAll(original, words, cipher)[..i] + original[i..]
  }

  lemma PartGrows(original: seq<Packet>, i: nat, words: Words, cipher: Cipher)
    requires KeepsLength(cipher) && i < |original|
    ensures |Descramble(original[i], words, cipher)| == PACKET
    ensures Part(original, i + 1, words, cipher)
         == Part(original, i, words, cipher)[i := Descramble(original[i], words, cipher)]
    ensures CountAll(original[..i + 1], words) == CountAll(original[..i], words) + Counted(original[i], words)
  {
    hide Descramble, Counted;
    DescrambleKeepsLength(original[i], words, cipher);
    assert original[..i + 1][..i] == original[..i];
  }

  lemma PartEnds(original: seq<Packet>, words: Words, cipher: Cipher)
    requires KeepsLength(cipher)
    ensures Part(original, 0, words, cipher) == original == Both(original, [], [], words, cipher)
    ensures Part(original, |original|, words, cipher) == DescrambleAll(original, words, cipher)
  {
  }

  /** The three ways a packet can be treated. */
  lemma DescrambleCases(p: Packet, words: Words, cipher: Cipher)
    requires KeepsLength(cipher)
    ensures |Descramble(p, words, cipher)| == PACKET
    ensures !Scrambled(p) || WordFor(p, words).NoKey? ==> Descramble(p, words, cipher) == p && Counted(p, words) == 0
    ensures Scrambled(p) && WordFor(p, words).Installed? && PayloadOffset(p) == PACKET ==>
              Descramble(p, words, cipher) == Cleared(p) && Counted(p, words) == 0
    ensures Scrambled(p) && WordFor(p, words).Installed? && PayloadOffset(p) < PACKET ==>
              && Descramble(p, words, cipher) == Deciphered(Cleared(p), WordFor(p, words).key, PayloadOffset(p), cipher)
              && Counted(p, words) == 1
  {
    DescrambleKeepsLength(p, words, cipher);
  }

  /** Which word a scrambled packet asks for: bit 0 of the scrambling control is the parity. */
  method FindWord(p: Packet, words: Words) returns (scrambled: bool, parity: bool)
    ensures scrambled <==> Scrambled(p)
    ensures WordFor(p, words) == if parity then words.odd else words.even
  {
    HeaderBits(p[3]);
    var scrambling := p[3] >> 6;
    scrambled := p[0] == SYNC && scrambling >= 2;
    parity := scrambling & 1 != 0;
  }

  class Descrambler {
    const even: Batch
    const odd: Batch
    const batchSize: nat

    /** Two separate batches of the same size, each with room for what is queued in it. */
    ghost predicate Valid()
      reads this, even, odd
    {
      && even != odd && even.slots != odd.slots
      && batchSize > 0
      && even.slots.Length == odd.slots.Length == batchSize + 1
      && even.count < batchSize && odd.count < batchSize
      && even.Valid() && odd.Valid()
    }

    /** Nothing queued: how every call finds and leaves the batches. */
    ghost predicate Idle()
      reads this, even, odd
    {
      Valid() && even.count == 0 && odd.count == 0
    }

    ghost function InstalledWords(): Words
      reads this, even, odd
    {
      Words(even.word, odd.word)
    }

    constructor (size: nat)
      requires size > 0
      ensures Idle() && InstalledWords() == Words(NoKey, NoKey) && batchSize == size
      ensures fresh(even) && fresh(odd) && fresh(even.slots) && fresh(odd.slots)
    {
      var e := new Batch(size);
      var o := new Batch(size);
      even, odd, batchSize := e, o, size;
    }

    /** Nothing can be queued for the previous words here, so the two flushes of the source do nothing. */
    method SetKeys(words: Words)
      requires Idle()
      modifies even, odd
      ensures Idle() && InstalledWords() == words
    {
      assert even.count == 0 && odd.count == 0;
      even.word := words.even;
      odd.word := words.odd;
    }

    method ClearKeys()
      requires Valid()
      modifies even, odd
      ensures Idle() && InstalledWords() == Words(NoKey, NoKey)
    {
      even.count, odd.count := 0, 0;
      even.word, odd.word := NoKey, NoKey;
    }

    method HasKey() returns (has: bool)
      ensures has <==> InstalledWords() != Words(NoKey, NoKey)
    {
      has := even.word.Installed? || odd.word.Installed?;
    }

    /** The queues hold slots of packets before i, of each packet at most once, and only under a key. */
    ghost predicate QueuesBelow(i: nat)
      requires Valid()
      reads this, even, odd, even.slots, odd.slots
    {
      && Within(even.Queued(), i) && Within(odd.Queued(), i)
      && Disjoint(even.Queued(), odd.Queued())
      && (even.count > 0 ==> even.word.Installed?)
      && (odd.count > 0 ==> odd.word.Installed?)
    }

    lemma EmptyQueues(n: nat)
      requires Idle()
      ensures QueuesBelow(n)
    {
    }

    /** What flushing both batches would make of the packets. */
    ghost function Flushed(packets: seq<Packet>, cipher: Cipher): seq<Packet>
      requires Valid() && KeepsLength(cipher)
      requires QueuesBelow(|packets|)
      reads this, even, odd, even.slots, odd.slots
    {
      Both(packets, even.Queued(), odd.Queued(), InstalledWords(), cipher)
    }

    /** Gives packet i, its scrambling bits just cleared, the next slot of its batch, and flushes the
        batch if that filled it. */
    method Enqueue(packets: array<Packet>, i: nat, offset: nat, parity: bool, cipher: Cipher)
      requires Valid() && KeepsLength(cipher) && QueuesBelow(i)
      requires i < packets.Length && offset < PACKET
      requires if parity then odd.word.Installed? else even.word.Installed?
      requires even.slots as object != packets && odd.slots as object != packets
      modifies even`count, odd`count, even.slots, odd.slots, packets
      ensures Valid() && QueuesBelow(i + 1)
      ensures var p := Deciphered(old(packets[i]), KeyOf(if parity then odd.word else even.word), offset, cipher);
              |p| == PACKET
              && Flushed(packets[..], cipher) == old(Flushed(packets[..], cipher))[i := p]
      ensures packets[i + 1..] == old(packets[i + 1..])
    {
      hide Apply, Deciphered, Both;
      ghost var e, o, words, before := even.Queued(), odd.Queued(), InstalledWords(), packets[..];
      BothEnqueued(before, e, o, words, i, offset, cipher);
      var batch := if parity then odd else even;
      batch.slots[batch.count] := At(i, offset);
      batch.count := batch.count + 1;
      assert batch.Queued() == (if parity then o else e) + [At(i, offset)];
      assert parity ==> even.Queued() == e;
      assert !parity ==> odd.Queued() == o;
      if batch.count >= batchSize {
        BothFlushed(before, even.Queued(), odd.Queued(), words, cipher);
        ApplyBelow(before, batch.Queued(), i + 1, KeyOf(batch.word), cipher);
        batch.Flush(packets, cipher);
        assert batch.Queued() == [];
      }
    }

    /** One packet of the walk. */
    method Visit(packets: array<Packet>, i: nat, cipher: Cipher, ghost original: seq<Packet>) returns (decrypted: nat)
      requires Valid() && KeepsLength(cipher) && QueuesBelow(i)
      requires packets.Length == |original| && i < packets.Length && packets[i..] == original[i..]
      requires even.slots as object != packets && odd.slots as object != packets
      requires Flushed(packets[..], cipher) == Part(original, i, InstalledWords(), cipher)
      modifies even`count, odd`count, even.slots, odd.slots, packets
      ensures Valid() && QueuesBelow(i + 1)
      ensures packets[i + 1..] == original[i + 1..]
      ensures Flushed(packets[..], cipher) == Part(original, i + 1, InstalledWords(), cipher)
      ensures decrypted == Counted(original[i], InstalledWords())
    {
      hide Apply, Deciphered, Descramble, Part, Both, Disjoint, Scrambled, WordFor, PayloadOffset, Cleared, Counted;
      ghost var words := InstalledWords();
      var p := packets[i];
      assert p == original[i];
      PartGrows(original, i, words, cipher);
      DescrambleCases(p, words, cipher);
      BothElsewhere(packets[..], even.Queued(), odd.Queued(), words, i, Cleared(p), cipher);
      BothElsewhere(packets[..], even.Queued(), odd.Queued(), words, i, p, cipher);
      var scrambled, parity := FindWord(p, Words(even.word, odd.word));
      if !scrambled || (if parity then odd.word else even.word) == NoKey {
        return 0;
      }
      var offset := FindPayload(p);
      packets[i] := Cleared(p);
      if offset == PACKET {
        return 0;
      }
      Enqueue(packets, i, offset, parity, cipher);
      return 1;
    }

    /** A run comes back with every packet descrambled as if on sight, their number returned, and
        nothing left in the batches. */
    method DecryptRun(packets: array<Packet>, cipher: Cipher) returns (decrypted: nat)
      requires Idle() && KeepsLength(cipher)
      requires even.slots as object != packets && odd.slots as object != packets
      modifies even`count, odd`count, even.slots, odd.slots, packets
      ensures Idle()
      ensures packets[..] == DescrambleAll(old(packets[..]), InstalledWords(), cipher)
      ensures decrypted == CountAll(old(packets[..]), InstalledWords())
    {
      hide Apply, Both, Counted, Descramble, Part, Disjoint;
      ghost var original, words := packets[..], InstalledWords();
      PartEnds(original, words, cipher);
      assert even.Queued() == [] && odd.Queued() == [];
      EmptyQueues(0);
      decrypted := 0;
      var i := 0;
      while i < packets.Length
        invariant i <= packets.Length == |original|
        invariant Valid() && QueuesBelow(i) && InstalledWords() == words
        invariant packets[i..] == original[i..]
        invariant Flushed(packets[..], cipher) == Part(original, i, words, cipher)
        invariant decrypted == CountAll(original[..i], words)
      {
        PartGrows(original, i, words, cipher);
        var n := Visit(packets, i, cipher, original);
        decrypted := decrypted + n;
        i := i + 1;
      }
      assert original[..i] == original;
      FlushBoth(packets, cipher);
    }

    method FlushBoth(packets: array<Packet>, cipher: Cipher)
      requires Valid() && KeepsLength(cipher) && QueuesBelow(packets.Length)
      requires even.slots as object != packets && odd.slots as object != packets
      modifies even`count, odd`count, even.slots, odd.slots, packets
      ensures Idle()
      ensures packets[..] == old(Flushed(packets[..], cipher))
    {
      hide Apply;
      ghost var o := odd.Queued();
      even.Flush(packets, cipher);
      assert odd.Queued() == o;
      odd.Flush(packets, cipher);
    }
  }
}
