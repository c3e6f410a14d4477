/** A batch of packets under the bit-sliced library, third_party/libdvbcsa/dvbcsa_bs_algo.c: all packets go
    through the same steps side by side, each ending where its own bytes end. What a packet comes out as is
    what it would have come out as alone. */
module DvbCsaBatch {
  import opened Bytes
  import opened Buffers
  import opened DvbCsaTables
  import opened DvbCsa
  import opened DvbCsaLane
  import opened DvbCsaWords
  import opened DvbCsaTranspose
  import opened DvbCsaBlockTranspose
  import opened DvbCsaRegisters
  import opened DvbCsaSlices

  /* ---- the block cipher ---- */

  /** All the blocks of one offset: each packet that reaches so far is mixed into its last block, then each
      is deciphered. */
  method BlockTurnOfAll(schedule: seq<Byte>, slots: array<seq<Byte>>, at: nat)
    requires |schedule| == ROUNDS && (at == 0 || at >= BLOCK) && slots.Length <= BITS
    modifies slots
    ensures forall g :: 0 <= g < slots.Length ==> slots[g] == BlockTurn(schedule, old(slots[g]), at)
  {
    hide BlockTurn, MixedBack;
    if at > 0 {
      MixAll(slots, at);
    }
    DecryptAll(schedule, slots, at);
    forall g | 0 <= g < slots.Length
      ensures slots[g] == BlockTurn(schedule, old(slots[g]), at)
    {
      TurnInTwo(schedule, old(slots[g]), at);
    }
  }

  method MixAll(slots: array<seq<Byte>>, at: nat)
    requires at >= BLOCK
    modifies slots
    ensures forall g :: 0 <= g < slots.Length ==> slots[g] == MixedBack(old(slots[g]), at)
  {
    hide MixedBack;
    for g := 0 to slots.Length
      invariant forall j :: 0 <= j < slots.Length ==>
        slots[j] == if j < g then MixedBack(old(slots[j]), at) else old(slots[j])
    {
      slots[g] := MixedBack(slots[g], at);
    }
  }

  /** The block at `at`, where there is a whole one, deciphered. */
  function DecryptedAt(schedule: seq<Byte>, x: seq<Byte>, at: nat): seq<Byte>
    requires |schedule| == ROUNDS
  {
    if at + BLOCK > |x| then x else x[..at] + DecryptBlock(schedule, x[at..at + BLOCK]) + x[at + BLOCK..]
  }

  /** dvbcsa_bs_block_decrypt_block: into the columns of the registers, deciphered there, and back. */
  method DecryptAll(schedule: seq<Byte>, slots: array<seq<Byte>>, at: nat)
    requires |schedule| == ROUNDS && slots.Length <= BITS
    modifies slots
    ensures forall g :: 0 <= g < slots.Length ==> slots[g] == DecryptedAt(schedule, old(slots[g]), at)
  {
    hide DecryptBlock, ColumnOf, BytesAt, GroupAt, HasBlock, WithBlockAt;
    var r := new Word[8 * (ROUNDS + BLOCK)];
    BlockIn(r, 8 * ROUNDS, slots, at);
    ghost var before := r[..];
    assert before[8 * ROUNDS..8 * (ROUNDS + BLOCK)] == r[8 * ROUNDS..];
    Slide(schedule, r);
    ghost var after := r[..];
    assert after[0..8 * (0 + BLOCK)] == r[..64];
    BlockOut(r, slots, at);
    forall k | 0 <= k < slots.Length
      ensures slots[k] == DecryptedAt(schedule, old(slots[k]), at)
    {
      ColumnIsGroup(before, ROUNDS, k);
      ColumnIsGroup(after, 0, k);
      BlockPut(schedule, old(slots[k]), at, ColumnOf(before[8 * ROUNDS..8 * (ROUNDS + BLOCK)], k));
    }
  }

  /** A packet's bytes in the registers. */
  lemma ColumnIsGroup(r: seq<Word>, at: nat, k: nat)
    requires 8 * (at + BLOCK) <= |r| && k < BITS
    ensures ColumnOf(r[8 * at..8 * (at + BLOCK)], k) == BytesAt(GroupAt(r, at, Group(k)), Column(k))
  {
    hide ByteOf;
  }

  lemma BlockPut(schedule: seq<Byte>, x: seq<Byte>, at: nat, b: seq<Byte>)
    requires |schedule| == ROUNDS && |b| == BLOCK && HasBlock(x, at, b)
    ensures WithBlockAt(x, at, DecryptBlock(schedule, b)) == DecryptedAt(schedule, x, at)
  {
    hide DecryptBlock;
  }

  /** The block at `at`, where there is a whole one, mixed into the one before. */
  function MixedBack(x: seq<Byte>, at: nat): (r: seq<Byte>)
    requires at >= BLOCK
    ensures |r| == |x|
  {
    if at + BLOCK > |x| then x
    else x[..at - BLOCK] + XorBytes(x[at - BLOCK..at], x[at..at + BLOCK]) + x[at..]
  }

  lemma TurnInTwo(schedule: seq<Byte>, x: seq<Byte>, at: nat)
    requires |schedule| == ROUNDS && (at == 0 || at >= BLOCK)
    ensures BlockTurn(schedule, x, at) == DecryptedAt(schedule, if at == 0 then x else MixedBack(x, at), at)
  {
    hide DecryptBlock, XorBytes;
    if at >= BLOCK && at + BLOCK <= |x| {
      var mixed := XorBytes(x[at - BLOCK..at], x[at..at + BLOCK]);
      var m := MixedBack(x, at);
      assert m[..at] == x[..at - BLOCK] + mixed && m[at..] == x[at..];
      assert m[at..at + BLOCK] == m[at..][..BLOCK] == x[at..at + BLOCK];
      assert m[at + BLOCK..] == m[at..][BLOCK..] == x[at + BLOCK..];
    }
  }

  /** dvbcsa_bs_block_decrypt_batch. */
  method BlocksOfAll(schedule: seq<Byte>, slots: array<seq<Byte>>, maxLen: nat)
    requires |schedule| == ROUNDS && maxLen % BLOCK == 0 && slots.Length <= BITS
    modifies slots
    ensures forall g :: 0 <= g < slots.Length ==>
      |slots[g]| == |old(slots[g])| && (|old(slots[g])| <= maxLen ==> slots[g] == ChainDecrypt(schedule, old(slots[g])))
  {
    hide BlockTurn, ChainDecrypt;
    BlockTurnOfAll(schedule, slots, 0);
    assert forall g :: 0 <= g < slots.Length ==> slots[g] == BlockTurns(schedule, old(slots[g]), 1);
    ghost var n := 1;
    var at := BLOCK;
    while at < maxLen
      invariant at == BLOCK * n
      invariant forall g :: 0 <= g < slots.Length ==> slots[g] == BlockTurns(schedule, old(slots[g]), n)
    {
      BlockTurnOfAll(schedule, slots, at);
      at := at + BLOCK;
      n := n + 1;
    }
    forall g | 0 <= g < slots.Length && |old(slots[g])| <= maxLen
      ensures slots[g] == ChainDecrypt(schedule, old(slots[g]))
    {
      TurnsDecrypt(schedule, old(slots[g]), n);
    }
  }

  /* ---- the stream cipher, one bit of every word for each packet ---- */

  /** A packet when its stream `k` has come to byte `h`. */
  ghost predicate MixedTo(data: seq<Byte>, x: seq<Byte>, k: seq<Byte>, h: nat) {
    && |x| == |data| && BLOCK <= h <= BLOCK + |k|
    && forall p :: 0 <= p < |data| ==>
         x[p] == if BLOCK <= p < h && |data| >= BLOCK then data[p] ^ k[p - BLOCK] else data[p]
  }

  lemma MixedFurther(data: seq<Byte>, x: seq<Byte>, k: seq<Byte>, h: nat)
    requires MixedTo(data, x, k, h) && h < BLOCK + |k|
    ensures MixedTo(data, WithByte(x, h, k[h - BLOCK]), k, h + 1)
  {
  }

  /** A packet and its lane: the lane has the rest of the stream still to make. */
  ghost predicate Standing(data: seq<Byte>, x: seq<Byte>, l: Lane, k: seq<Byte>, h: nat) {
    MixedTo(data, x, k, h) && LaneKeystream(l, BLOCK + |k| - h) == k[h - BLOCK..]
  }

  lemma StandingNext(data: seq<Byte>, x: seq<Byte>, l: Lane, k: seq<Byte>, h: nat)
    ensures Standing(data, x, l, k, h) && h < BLOCK + |k| ==>
              Standing(data, WithByte(x, h, LaneByte(l)), LaneFourRounds(l), k, h + 1)
  {
    hide MixedTo, WithByte, LaneByte, LaneFourRounds;
    if Standing(data, x, l, k, h) && h < BLOCK + |k| {
      assert BLOCK <= h by { MixedSize(data, x, k, h); }
      NextLaneByte(l, BLOCK + |k| - h);
      assert k[h - BLOCK] == k[h - BLOCK..][0] && k[h - BLOCK..][1..] == k[h + 1 - BLOCK..];
      MixedFurther(data, x, k, h);
    }
  }

  lemma MixedSize(data: seq<Byte>, x: seq<Byte>, k: seq<Byte>, h: nat)
    requires MixedTo(data, x, k, h)
    ensures |x| == |data| && BLOCK <= h <= BLOCK + |k|
  {
  }

  lemma NextLaneByte(l: Lane, n: nat)
    requires n > 0
    ensures LaneKeystream(l, n) == [LaneByte(l)] + LaneKeystream(LaneFourRounds(l), n - 1)
  {
  }

  lemma {:induction false} KeystreamPrefix(s: Stream, m: nat, n: nat)
    requires m <= n
    ensures Keystream(s, n)[..m] == Keystream(s, m)
    decreases m
  {
    hide OutputByte, FourRounds;
    if m > 0 {
      KeystreamPrefix(FourRounds(s), m - 1, n - 1);
    }
  }

  /** With the stream at its end, each packet no longer than it has all of its own. */
  lemma MixedAll(data: seq<Byte>, x: seq<Byte>, k: seq<Byte>)
    requires BLOCK <= |data| <= BLOCK + |k| && MixedTo(data, x, k, BLOCK + |k|)
    ensures x == data[..BLOCK] + XorBytes(data[BLOCK..], k[..|data| - BLOCK])
  {
    assert x[BLOCK..] == XorBytes(data[BLOCK..], k[..|data| - BLOCK]);
  }

  lemma StandingAtFirst(data: seq<Byte>, l: Lane, n: nat)
    ensures Standing(data, data, l, LaneKeystream(l, n), BLOCK)
  {
    hide LaneKeystream;
    var k := LaneKeystream(l, n);
    assert k[0..] == k;
  }

  /** All packets' registers loaded and fed with their first blocks. */
  method StartAll(word: seq<Byte>, slots: array<seq<Byte>>) returns (all: Registers)
    requires |word| == 8 && slots.Length <= BITS
    ensures fresh(all) && all.Valid() && fresh(all.a) && fresh(all.b)
    ensures forall g :: 0 <= g < slots.Length && |slots[g]| >= BLOCK ==>
      LaneOf(all.Now(), StreamLane(g)) == LaneStarted(word, slots[g][..BLOCK])
  {
    hide FedTo, StreamLane, StreamKey, Start, InLane, SlicedFed, RowNibble;
    var rows := StreamIn(slots);
    all := new Registers(StreamKey(word));
    ghost var fed := rows[..];
    forall g | 0 <= g < slots.Length
      ensures FedTo(word, slots[g], all.Now(), StreamLane(g), 0)
    {
      NothingFed(word, slots[g], StreamLane(g));
    }
    for i := 0 to 8
      invariant rows[..] == fed
      invariant forall g :: 0 <= g < slots.Length ==> FedTo(word, slots[g], all.Now(), StreamLane(g), i)
    {
      ghost var s := all.Now();
      all.Feed(rows, i);
      forall g | 0 <= g < slots.Length
        ensures FedTo(word, slots[g], all.Now(), StreamLane(g), i + 1)
      {
        FedFurther(word, slots[g], s, fed, StreamLane(g), i);
      }
    }
    forall g | 0 <= g < slots.Length && |slots[g]| >= BLOCK
      ensures LaneOf(all.Now(), StreamLane(g)) == LaneStarted(word, slots[g][..BLOCK])
    {
      AllFed(word, slots[g], all.Now(), StreamLane(g));
    }
  }

  /** The first `i` bytes of a packet are in its registers, if it has a whole block. */
  ghost predicate FedTo(word: seq<Byte>, x: seq<Byte>, s: Slices, n: nat, i: nat)
    requires |word| == 8 && n < BITS
  {
    |x| >= BLOCK >= i ==> LaneOf(s, n) == LaneFedBytes(LaneLoaded(word), x[..i])
  }

  lemma NothingFed(word: seq<Byte>, x: seq<Byte>, n: nat)
    requires |word| == 8 && n < BITS
    ensures FedTo(word, x, Start(StreamKey(word)), n, 0)
  {
    hide LaneOf, LaneLoaded, StreamKey, Start;
    StartInLane(word, n);
  }

  lemma AllFed(word: seq<Byte>, x: seq<Byte>, s: Slices, n: nat)
    requires |word| == 8 && n < BITS && FedTo(word, x, s, n, BLOCK) && |x| >= BLOCK
    ensures LaneOf(s, n) == LaneStarted(word, x[..BLOCK])
  {
    hide LaneOf, LaneLoaded, LaneFedBytes;
  }

  lemma FedFurther(word: seq<Byte>, x: seq<Byte>, s: Slices, rows: seq<Word>, n: nat, i: nat)
    requires |word| == 8 && |rows| == 64 && n < BITS && i < BLOCK && InLane(x, rows, n) && FedTo(word, x, s, n, i)
    ensures FedTo(word, x, SlicedFed(s, RowNibble(rows, 2 * i + 1), RowNibble(rows, 2 * i)), n, i + 1)
  {
    hide LaneOf, SlicedFed, LaneFed, InLane, LaneLoaded, RowNibble;
    if |x| >= BLOCK {
      RowsInLane(x, rows, n, i);
      FedInLane(s, RowNibble(rows, 2 * i + 1), RowNibble(rows, 2 * i), x[i], n);
      assert x[..i + 1][..i] == x[..i] && x[..i + 1][i] == x[i];
    }
  }

  /** dvbcsa_bs_stream_cipher_batch: byte after byte, each for all packets that are long enough. */
  method StreamOfAll(word: seq<Byte>, slots: array<seq<Byte>>, maxLen: nat)
    requires |word| == 8 && slots.Length <= BITS
    modifies slots
    ensures forall g :: 0 <= g < slots.Length ==>
      |slots[g]| == |old(slots[g])|
      && (|old(slots[g])| <= maxLen ==>
            slots[g] == if |old(slots[g])| < BLOCK then old(slots[g]) else Streamed(word, old(slots[g])))
  {
    hide LaneOf, StreamLane, LaneStarted, LaneKeystream, Standing, Streamed;
    ghost var d, count, size := slots[..], slots.Length, if maxLen < BLOCK then 0 else maxLen - BLOCK;
    var all := StartAll(word, slots);
    ghost var start := all.Now();
    ghost var k := seq(count, g requires 0 <= g < count => LaneKeystream(LaneOf(start, StreamLane(g)), size));
    forall g | 0 <= g < count
      ensures Standing(d[g], slots[g], LaneOf(all.Now(), StreamLane(g)), k[g], BLOCK)
    {
      StandingAtFirst(d[g], LaneOf(start, StreamLane(g)), size);
    }
    var h := BLOCK;
    while h < maxLen
      invariant BLOCK <= h <= BLOCK + size
      invariant all.Valid() && fresh(all) && fresh(all.a) && fresh(all.b)
      invariant forall g :: 0 <= g < count ==> Standing(d[g], slots[g], LaneOf(all.Now(), StreamLane(g)), k[g], h)
    {
      StreamOneOfAll(slots, all, h, d, k);
      h := h + 1;
    }
    forall g | 0 <= g < count
      ensures |slots[g]| == |d[g]|
      ensures |d[g]| <= maxLen ==> slots[g] == if |d[g]| < BLOCK then d[g] else Streamed(word, d[g])
    {
      StreamEnds(word, d[g], slots[g], LaneOf(all.Now(), StreamLane(g)), LaneOf(start, StreamLane(g)), size, k[g]);
    }
  }

  /** One byte of every packet. */
  method StreamOneOfAll(slots: array<seq<Byte>>, all: Registers, h: nat, ghost d: seq<seq<Byte>>,
                        ghost k: seq<seq<Byte>>)
    requires all.Valid() && slots.Length == |d| == |k| <= BITS && slots as object != all.a && slots as object != all.b
    modifies slots, all, all.a, all.b
    ensures forall g :: 0 <= g < |d| ==>
      old(Standing(d[g], slots[g], LaneOf(all.Now(), StreamLane(g)), k[g], h)) && h < BLOCK + |k[g]| ==>
        Standing(d[g], slots[g], LaneOf(all.Now(), StreamLane(g)), k[g], h + 1)
  {
    hide Standing, WithByte, LaneByte, LaneFourRounds, SlicedFourRounds, ByteAcross, ByteWords, LaneOf, StreamLane;
    ghost var s := all.Now();
    var cb := all.Generate();
    StreamOut(slots, h, cb);
    forall g | 0 <= g < |d|
      ensures old(Standing(d[g], slots[g], LaneOf(s, StreamLane(g)), k[g], h)) && h < BLOCK + |k[g]| ==>
        Standing(d[g], slots[g], LaneOf(all.Now(), StreamLane(g)), k[g], h + 1)
    {
      ByteInLane(s, StreamLane(g));
      StandingNext(d[g], old(slots[g]), LaneOf(s, StreamLane(g)), k[g], h);
    }
  }

  lemma StreamEnds(word: seq<Byte>, data: seq<Byte>, x: seq<Byte>, l: Lane, start: Lane, size: nat, k: seq<Byte>)
    requires |word| == 8 && |k| == size && k == LaneKeystream(start, size) && Standing(data, x, l, k, BLOCK + size)
    requires |data| >= BLOCK ==> start == LaneStarted(word, data[..BLOCK])
    ensures |x| == |data|
    ensures |data| <= BLOCK + size ==> x == if |data| < BLOCK then data else Streamed(word, data)
  {
    hide LaneKeystream, Keystream, Started, LaneStarted;
    if BLOCK <= |data| <= BLOCK + size {
      SlicedStreamIsStream(word, data[..BLOCK], size);
      KeystreamPrefix(Started(word, data[..BLOCK]), |data| - BLOCK, size);
      MixedAll(data, x, k);
    }
  }

  /** dvbcsa_bs_decrypt: every packet of a batch that is no longer than `maxLen` comes out as
      dvbcsa_decrypt alone would have left it. */
  method DecryptBatch(key: Key, slots: array<seq<Byte>>, maxLen: nat)
    requires key.Valid() && maxLen % BLOCK == 0 && slots.Length <= BITS
    modifies slots
    ensures forall g :: 0 <= g < slots.Length ==>
      |slots[g]| == |old(slots[g])| && (|old(slots[g])| <= maxLen ==> slots[g] == Decrypt(key, old(slots[g])))
  {
    hide Streamed, ChainDecrypt;
    StreamOfAll(key.word, slots, maxLen);
    BlocksOfAll(key.schedule, slots, maxLen);
    forall g | 0 <= g < slots.Length && |old(slots[g])| < BLOCK
      ensures ChainDecrypt(key.schedule, old(slots[g])) == old(slots[g])
    {
      LessThanBlock(key.schedule, old(slots[g]));
    }
  }
}
