/** The common scrambling algorithm of third_party/libdvbcsa, one packet at a time: a block cipher
    chained from the last block to the first, under a stream cipher started from the first block.
    Descrambling undoes scrambling, for every key and every length. */
module DvbCsa {
  import opened Bytes
  import opened Buffers
  import opened DvbCsaTables

  const BLOCK := 8
  const ROUNDS := 56

  /** A control word, and the bytes made of it for the rounds of the block cipher. */
  datatype Key = Key(word: seq<Byte>, schedule: seq<Byte>) {
    predicate Valid() { |word| == 8 && |schedule| == ROUNDS }
  }

  /* ---- the block cipher ---- */

  /** Exclusive or, by a name under which the prover leaves it alone. */
  function Mix(a: Byte, b: Byte): Byte { a ^ b }

  function EncryptRound(w: seq<Byte>, k: Byte): (r: seq<Byte>)
    requires |w| == BLOCK
    ensures |r| == BLOCK
  {
    var s := BlockSBox(Mix(k, w[7]));
    [w[1], Mix(w[2], w[0]), Mix(w[3], w[0]), Mix(w[4], w[0]), w[5], Mix(w[6], PermutationTable(s)), w[7], Mix(w[0], s)]
  }

  function DecryptRound(w: seq<Byte>, k: Byte): (r: seq<Byte>)
    requires |w| == BLOCK
    ensures |r| == BLOCK
  {
    var s := BlockSBox(Mix(k, w[6]));
    var l := Mix(w[7], s);
    [l, w[0], Mix(w[1], l), Mix(w[2], l), Mix(w[3], l), w[4], Mix(w[5], PermutationTable(s)), w[6]]
  }

  /** The first `n` rounds; and the last `n` of deciphering, which takes the round bytes backwards. */
  function EncryptRounds(schedule: seq<Byte>, w: seq<Byte>, n: nat): (r: seq<Byte>)
    requires |w| == BLOCK && n <= |schedule|
    ensures |r| == BLOCK
    decreases n
  {
    if n == 0 then w else EncryptRound(EncryptRounds(schedule, w, n - 1), schedule[n - 1])
  }

  function DecryptRounds(schedule: seq<Byte>, w: seq<Byte>, n: nat): (r: seq<Byte>)
    requires |w| == BLOCK && n <= |schedule|
    ensures |r| == BLOCK
    decreases n
  {
    if n == 0 then w else DecryptRounds(schedule, DecryptRound(w, schedule[n - 1]), n - 1)
  }

  lemma XorCancels(a: Byte, b: Byte)
    ensures Mix(Mix(a, b), b) == a
  {
  }

  lemma RoundsCancel(w: seq<Byte>, k: Byte)
    requires |w| == BLOCK
    ensures DecryptRound(EncryptRound(w, k), k) == w && EncryptRound(DecryptRound(w, k), k) == w
  {
    EncryptedRoundCancels(w, k);
    DecryptedRoundCancels(w, k);
  }

  lemma EncryptedRoundCancels(w: seq<Byte>, k: Byte)
    requires |w| == BLOCK
    ensures DecryptRound(EncryptRound(w, k), k) == w
  {
    hide BlockSBox, PermutationTable, Mix;
    var s := BlockSBox(Mix(k, w[7]));
    XorCancels(w[0], s);
    XorCancels(w[2], w[0]);
    XorCancels(w[3], w[0]);
    XorCancels(w[4], w[0]);
    XorCancels(w[6], PermutationTable(s));
    var e := EncryptRound(w, k);
    assert DecryptRound(e, k) == [w[0], w[1], w[2], w[3], w[4], w[5], w[6], w[7]];
  }

  lemma DecryptedRoundCancels(w: seq<Byte>, k: Byte)
    requires |w| == BLOCK
    ensures EncryptRound(DecryptRound(w, k), k) == w
  {
    hide BlockSBox, PermutationTable, Mix;
    var s := BlockSBox(Mix(k, w[6]));
    var l := Mix(w[7], s);
    XorCancels(w[7], s);
    XorCancels(w[1], l);
    XorCancels(w[2], l);
    XorCancels(w[3], l);
    XorCancels(w[5], PermutationTable(s));
    var d := DecryptRound(w, k);
    assert EncryptRound(d, k) == [w[0], w[1], w[2], w[3], w[4], w[5], w[6], w[7]];
  }

  lemma {:induction false} BlockInverse(schedule: seq<Byte>, w: seq<Byte>, n: nat)
    requires |w| == BLOCK && n <= |schedule|
    ensures DecryptRounds(schedule, EncryptRounds(schedule, w, n), n) == w
    ensures EncryptRounds(schedule, DecryptRounds(schedule, w, n), n) == w
    decreases n
  {
    hide EncryptRound, DecryptRound;
    if n > 0 {
      RoundsCancel(EncryptRounds(schedule, w, n - 1), schedule[n - 1]);
      BlockInverse(schedule, w, n - 1);
      RoundsCancel(w, schedule[n - 1]);
      BlockInverse(schedule, DecryptRound(w, schedule[n - 1]), n - 1);
    }
  }

  function EncryptBlock(schedule: seq<Byte>, w: seq<Byte>): (r: seq<Byte>)
    requires |w| == BLOCK && |schedule| == ROUNDS
    ensures |r| == BLOCK
  {
    EncryptRounds(schedule, w, ROUNDS)
  }

  function DecryptBlock(schedule: seq<Byte>, w: seq<Byte>): (r: seq<Byte>)
    requires |w| == BLOCK && |schedule| == ROUNDS
    ensures |r| == BLOCK
  {
    DecryptRounds(schedule, w, ROUNDS)
  }

  /* ---- chaining ---- */

  /** Each block is mixed with the next one, already enciphered; what is less than a block stays. */
  function ChainEncrypt(schedule: seq<Byte>, data: seq<Byte>): (r: seq<Byte>)
    requires |schedule| == ROUNDS
    ensures |r| == |data|
    decreases |data|
  {
    if |data| < BLOCK then data
    else if |data| < 2 * BLOCK then EncryptBlock(schedule, data[..BLOCK]) + data[BLOCK..]
    else
      var rest := ChainEncrypt(schedule, data[BLOCK..]);
      EncryptBlock(schedule, XorBytes(data[..BLOCK], rest[..BLOCK])) + rest
  }

  function ChainDecrypt(schedule: seq<Byte>, data: seq<Byte>): (r: seq<Byte>)
    requires |schedule| == ROUNDS
    ensures |r| == |data|
    decreases |data|
  {
    if |data| < BLOCK then data
    else if |data| < 2 * BLOCK then DecryptBlock(schedule, data[..BLOCK]) + data[BLOCK..]
    else
      XorBytes(DecryptBlock(schedule, data[..BLOCK]), data[BLOCK..2 * BLOCK]) + ChainDecrypt(schedule, data[BLOCK..])
  }

  lemma XorBytesTwice(x: seq<Byte>, y: seq<Byte>)
    requires |x| == |y|
    ensures XorBytes(XorBytes(x, y), y) == x
  {
    forall i | 0 <= i < |x|
      ensures XorBytes(XorBytes(x, y), y)[i] == x[i]
    {
      XorCancels(x[i], y[i]);
    }
  }

  lemma {:induction false} ChainInverse(schedule: seq<Byte>, data: seq<Byte>)
    requires |schedule| == ROUNDS
    ensures ChainDecrypt(schedule, ChainEncrypt(schedule, data)) == data
    decreases |data|
  {
    hide EncryptBlock, DecryptBlock, XorBytes;
    if |data| >= BLOCK {
      var rest := ChainEncrypt(schedule, data[BLOCK..]);
      var mixed := if |data| < 2 * BLOCK then data[..BLOCK] else XorBytes(data[..BLOCK], rest[..BLOCK]);
      var first := EncryptBlock(schedule, mixed);
      assert rest == data[BLOCK..] || |data| >= 2 * BLOCK;
      assert (first + rest)[..BLOCK] == first && (first + rest)[BLOCK..] == rest;
      assert |data| >= 2 * BLOCK ==> (first + rest)[BLOCK..2 * BLOCK] == rest[..BLOCK];
      BlockCancels(schedule, mixed);
      ChainInverse(schedule, data[BLOCK..]);
      if |data| >= 2 * BLOCK { XorBytesTwice(data[..BLOCK], rest[..BLOCK]); }
      assert data == data[..BLOCK] + data[BLOCK..];
    }
  }

  lemma {:induction false} ChainInverseBack(schedule: seq<Byte>, data: seq<Byte>)
    requires |schedule| == ROUNDS
    ensures ChainEncrypt(schedule, ChainDecrypt(schedule, data)) == data
    decreases |data|
  {
    hide EncryptBlock, DecryptBlock, XorBytes;
    if |data| >= BLOCK {
      var rest := ChainDecrypt(schedule, data[BLOCK..]);
      var plain := DecryptBlock(schedule, data[..BLOCK]);
      var first := if |data| < 2 * BLOCK then plain else XorBytes(plain, data[BLOCK..2 * BLOCK]);
      assert rest == data[BLOCK..] || |data| >= 2 * BLOCK;
      assert (first + rest)[..BLOCK] == first && (first + rest)[BLOCK..] == rest;
      BlockCancels(schedule, data[..BLOCK]);
      ChainInverseBack(schedule, data[BLOCK..]);
      if |data| >= 2 * BLOCK {
        assert data[BLOCK..][..BLOCK] == data[BLOCK..2 * BLOCK];
        XorBytesTwice(plain, data[BLOCK..2 * BLOCK]);
      }
      assert data == data[..BLOCK] + data[BLOCK..];
    }
  }

  /** Block `i` of `out` is that of `data` enciphered, mixed first with the block of `out` behind it if there is one. */
  predicate BlockChained(schedule: seq<Byte>, data: seq<Byte>, out: seq<Byte>, i: nat)
    requires |schedule| == ROUNDS && 8 * i + 8 <= |data| && |out| == |data|
  {
    var block := data[8 * i..8 * i + 8];
    out[8 * i..8 * i + 8] ==
      EncryptBlock(schedule, if 8 * i + 16 > |data| then block else XorBytes(block, out[8 * i + 8..8 * i + 16]))
  }

  /** Block by block, what scrambling writes; what is less than a block stays. */
  lemma {:induction false} ChainBlocks(schedule: seq<Byte>, data: seq<Byte>, i: nat)
    requires |schedule| == ROUNDS && 8 * i + 8 <= |data|
    ensures BlockChained(schedule, data, ChainEncrypt(schedule, data), i)
    ensures ChainEncrypt(schedule, data)[|data| / 8 * 8..] == data[|data| / 8 * 8..]
    decreases |data|
  {
    hide EncryptBlock, XorBytes;
    if |data| >= 16 {
      var out, rest := ChainEncrypt(schedule, data), ChainEncrypt(schedule, data[8..]);
      assert out == out[..8] + rest && data == data[..8] + data[8..];
      ChainBlocks(schedule, data[8..], if i == 0 then 0 else i - 1);
      Behind(out[..8], rest, i);
      Behind(data[..8], data[8..], i);
    }
  }

  lemma Behind(first: seq<Byte>, rest: seq<Byte>, i: nat)
    requires |first| == 8 && 8 * i <= |rest|
    ensures i > 0 ==> (first + rest)[8 * i..8 * i + 8] == rest[8 * (i - 1)..8 * (i - 1) + 8]
    ensures 8 * i + 8 <= |rest| ==> (first + rest)[8 * i + 8..8 * i + 16] == rest[8 * i..8 * i + 8]
    ensures (first + rest)[|first + rest| / 8 * 8..] == rest[|rest| / 8 * 8..]
  {
    assert |first + rest| / 8 * 8 == |rest| / 8 * 8 + 8;
  }

  lemma BlockCancels(schedule: seq<Byte>, w: seq<Byte>)
    requires |w| == BLOCK && |schedule| == ROUNDS
    ensures DecryptBlock(schedule, EncryptBlock(schedule, w)) == w &&
        EncryptBlock(schedule, DecryptBlock(schedule, w)) == w
  {
    hide EncryptRounds, DecryptRounds;
    BlockInverse(schedule, w, ROUNDS);
  }

  /* ---- the stream cipher ---- */

  /** Two shift registers of nibbles, the nibbles X, Y, Z and bits p, q in one word, D, E, F and the
      carry in another. */
  datatype Stream = Stream(a: bv64, b: bv64, pqzyx: bv32, cfed: bv32)

  /** The seven substitutions of the first register, each of five bits of it. */
  function Substituted(a: bv64): bv32 {
    Joined(StreamTable1(Index1(a)), StreamTable4(Index4(a)), StreamTable5(Index5(a)), StreamTable0(Index0(a)),
           StreamTable2(Index2(a)), StreamTable3(Index3(a)), StreamTable6(Index6(a)))
  }

  function Joined(t1: bv32, t4: bv32, t5: bv32, t0: bv32, t2: bv32, t3: bv32, t6: bv32): bv32 {
    t1 | t4 | t5 | t0 | t2 | t3 | t6
  }

  function Index0(a: bv64): Byte {
    var t := a & 0x1082010040;
    (((t >> 36) ^ (t >> 30) ^ (t >> 23) ^ (t >> 3) ^ (t >> 12)) & 0x1f) as Byte
  }

  function Index1(a: bv64): Byte {
    var t := a & 0x2018004200;
    (((t >> 37) ^ (t >> 27) ^ (t >> 25) ^ (t >> 11) ^ (t >> 5)) & 0x1f) as Byte
  }

  function Index2(a: bv64): Byte {
    var t := a & 0x0004a00180;
    (((t >> 26) ^ (t >> 22) ^ (t >> 19) ^ (t >> 5) ^ (t >> 3)) & 0x1f) as Byte
  }

  function Index3(a: bv64): Byte {
    var t := a & 0x0100048820;
    (((t >> 32) ^ (t >> 17) ^ (t >> 9) ^ (t >> 2) ^ (t >> 11)) & 0x1f) as Byte
  }

  function Index4(a: bv64): Byte {
    var t := a & 0x4201480000;
    (((t >> 38) ^ (t >> 32) ^ (t >> 22) ^ (t >> 16) ^ (t >> 18)) & 0x1f) as Byte
  }

  function Index5(a: bv64): Byte {
    var t := a & 0x8040122000;
    (((t >> 39) ^ (t >> 29) ^ (t >> 18) ^ (t >> 14) ^ (t >> 9)) & 0x1f) as Byte
  }

  function Index6(a: bv64): Byte {
    var t := a & 0x0c20001400;
    (((t >> 35) ^ (t >> 33) ^ (t >> 27) ^ (t >> 9) ^ (t >> 6)) & 0x1f) as Byte
  }

  /** Bits of the second register, mixed four by four. */
  function Selected(b: bv64): bv32 {
    var t := ((b >> 9) & 0xffffffff) as bv32;
    ((t ^ (t >> 27)) & 0x8) ^ ((t >> 18) & 0x9) ^ (((t >> 22) ^ (t >> 7)) & 0x4) ^ ((t >> 4) & 0x5) ^
    (((t >> 24) ^ (t >> 6) ^ (t >> 11)) & 0x2) ^ (((t >> 29) ^ (t >> 23)) & 0x1) ^ ((t >> 13) & 0xe)
  }

  /** A nibble, rotated to the left if p is set. */
  function Rotated(pqzyx: bv32, x: bv32): bv32 {
    if pqzyx & 0x1000 != 0 then ((x << 1) | ((x >> 3) & 1)) & 0xf else x
  }

  /** E takes F; what D, F and the carry take is looked up. */
  function Advanced(pqzyx: bv32, cfed: bv32): bv32 {
    ((cfed & 0x0f00) >> 4) | SumTable(SumIndex(pqzyx, cfed))
  }

  function SumIndex(pqzyx: bv32, cfed: bv32): (i: bv32)
    ensures i < 0x400
  {
    ((cfed & 0x10ff) | (pqzyx & 0x2f00)) >> 4
  }

  /** A register with one more nibble shifted in. */
  function Pushed(a: bv64, n: bv32): bv64 { (a << 4) | (n as bv64) }

  /** The nibbles fed back into the registers, with what comes from outside mixed in. */
  function FirstNibble(s: Stream, outside: bv32): bv32 {
    ((((s.a << 4) >> 40) & 0xffffffff) as bv32 ^ s.pqzyx ^ outside) & 0xf
  }

  function SecondNibble(s: Stream, outside: bv32): bv32 {
    (((s.b >> 24) & 0xf) as bv32 ^ ((s.b >> 36) & 0xf) as bv32 ^ (s.pqzyx >> 4) ^ outside) & 0xf
  }

  /** A round while the first block is fed in. */
  function InitRound(s: Stream, iv: Byte): Stream {
    Stepped(s, FirstNibble(s, s.cfed ^ ((iv as bv32) >> 4)), SecondNibble(s, iv as bv32))
  }

  /** A round that makes two bits. */
  function Round(s: Stream): Stream {
    Stepped(s, FirstNibble(s, 0), SecondNibble(s, 0))
  }

  /** What both rounds end in. */
  function Stepped(s: Stream, first: bv32, second: bv32): Stream {
    var a, b := Pushed(s.a, first), Pushed(s.b, Rotated(s.pqzyx, second));
    Stream(a, b, Substituted(a), Cfed(s.pqzyx, s.cfed, b))
  }

  function Cfed(pqzyx: bv32, cfed: bv32, b: bv64): bv32 { Advanced(pqzyx, cfed) ^ Selected(b) }

  function SwapNibbles(b: Byte): Byte { (b >> 4) | (b << 4) }

  function Fed(s: Stream, iv: Byte): Stream {
    InitRound(InitRound(InitRound(InitRound(s, iv), SwapNibbles(iv)), iv), SwapNibbles(iv))
  }

  function Load32(b: seq<Byte>): bv32
    requires |b| == 4
  {
    ((b[3] as bv32) << 24) | ((b[2] as bv32) << 16) | ((b[1] as bv32) << 8) | (b[0] as bv32)
  }

  function Register(w: bv32): bv64 { w as bv64 }

  /** Half a control word, the nibbles of its bytes swapped. */
  function SwappedHalf(w: bv32): bv32 { ((w & 0xf0f0f0f0) >> 4) | ((w & 0x0f0f0f0f) << 4) }

  /** The registers loaded with the swapped control word, and after the bytes of the first block. */
  function Loaded(word: seq<Byte>): Stream
    requires |word| == 8
  {
    Stream(Register(SwappedHalf(Load32(word[..4]))), Register(SwappedHalf(Load32(word[4..]))), 0, 0)
  }

  function FedBytes(s: Stream, iv: seq<Byte>): Stream {
    if iv == [] then s else Fed(FedBytes(s, iv[..|iv| - 1]), iv[|iv| - 1])
  }

  /** Two bits of output, four times over, by nibble D. */
  function OutputTable(d: bv32): Byte {
    if d == 1 || d == 2 || d == 13 || d == 14 then 0x55
    else if d == 4 || d == 7 || d == 8 || d == 11 then 0xaa
    else if d == 5 || d == 6 || d == 9 || d == 10 then 0xff
    else 0x00
  }

  function Output(s: Stream): Byte { OutputTable(s.cfed & 0xf) }

  function FourRounds(s: Stream): Stream { Round(Round(Round(Round(s)))) }

  /** A byte of the stream is made by four rounds. */
  function OutputByte(s: Stream): Byte {
    var s1 := Round(s);
    var s2 := Round(s1);
    var s3 := Round(s2);
    Merged(Output(s1), Output(s2), Output(s3), Output(Round(s3)))
  }

  function Merged(o1: Byte, o2: Byte, o3: Byte, o4: Byte): Byte {
    (o1 & 0xc0) ^ (o2 & 0x30) ^ (o3 & 0x0c) ^ (o4 & 0x03)
  }

  function Keystream(s: Stream, n: nat): (k: seq<Byte>)
    ensures |k| == n
    decreases n
  {
    hide OutputByte, FourRounds;
    if n == 0 then [] else [OutputByte(s)] + Keystream(FourRounds(s), n - 1)
  }

  /** All but the first block, which starts the stream, mixed with it. */
  function Streamed(word: seq<Byte>, data: seq<Byte>): (r: seq<Byte>)
    requires |word| == 8 && |data| >= BLOCK
    ensures |r| == |data|
  {
    data[..BLOCK] + XorBytes(data[BLOCK..], Keystream(Started(word, data[..BLOCK]), |data| - BLOCK))
  }

  function Started(word: seq<Byte>, first: seq<Byte>): Stream
    requires |word| == 8
  {
    FedBytes(Loaded(word), first)
  }

  lemma StreamedTwice(word: seq<Byte>, data: seq<Byte>)
    requires |word| == 8 && |data| >= BLOCK
    ensures Streamed(word, Streamed(word, data)) == data
  {
    hide Started, Keystream, XorBytes;
    var key := Keystream(Started(word, data[..BLOCK]), |data| - BLOCK);
    var r := Streamed(word, data);
    assert r[..BLOCK] == data[..BLOCK] && r[BLOCK..] == XorBytes(data[BLOCK..], key);
    XorBytesTwice(data[BLOCK..], key);
    assert data == data[..BLOCK] + data[BLOCK..];
  }

  /* ---- a packet ---- */

  /** dvbcsa_encrypt: less than a block is left alone. */
  function Encrypt(key: Key, data: seq<Byte>): (r: seq<Byte>)
    requires key.Valid()
    ensures |r| == |data|
  {
    if |data| < BLOCK then data else Streamed(key.word, ChainEncrypt(key.schedule, data))
  }

  /** dvbcsa_decrypt. */
  function Decrypt(key: Key, data: seq<Byte>): (r: seq<Byte>)
    requires key.Valid()
    ensures |r| == |data|
  {
    if |data| < BLOCK then data else ChainDecrypt(key.schedule, Streamed(key.word, data))
  }

  /** Each undoes the other, for every key and every length, whole blocks or not. */
  lemma DecryptUndoesEncrypt(key: Key, data: seq<Byte>)
    requires key.Valid()
    ensures Decrypt(key, Encrypt(key, data)) == data
    ensures Encrypt(key, Decrypt(key, data)) == data
  {
    hide Streamed, ChainEncrypt, ChainDecrypt;
    if |data| >= BLOCK {
      StreamedTwice(key.word, ChainEncrypt(key.schedule, data));
      ChainInverse(key.schedule, data);
      ChainInverseBack(key.schedule, Streamed(key.word, data));
      StreamedTwice(key.word, data);
    }
  }

  /* ---- deciphering from the front ---- */

  function WholeBlocks(data: seq<Byte>): nat { |data| - |data| % BLOCK }

  /** One turn of the loop over the blocks: the block at `at` is mixed into the one before it, which is
      then done, and deciphered. */
  function BlockTurn(schedule: seq<Byte>, x: seq<Byte>, at: nat): (r: seq<Byte>)
    requires |schedule| == ROUNDS && (at == 0 || at >= BLOCK)
    ensures |r| == |x|
  {
    if at + BLOCK > |x| then x
    else
      var done := if at == 0 then [] else x[..at - BLOCK] + XorBytes(x[at - BLOCK..at], x[at..at + BLOCK]);
      done + DecryptBlock(schedule, x[at..at + BLOCK]) + x[at + BLOCK..]
  }

  /** The first `n` turns. */
  function BlockTurns(schedule: seq<Byte>, data: seq<Byte>, n: nat): (r: seq<Byte>)
    requires |schedule| == ROUNDS
    ensures |r| == |data|
    decreases n
  {
    if n == 0 then data else BlockTurn(schedule, BlockTurns(schedule, data, n - 1), BLOCK * (n - 1))
  }

  /** With the turn at `at` over: what is done, what the turn deciphered, what is still as it was. */
  ghost predicate TurnOver(schedule: seq<Byte>, data: seq<Byte>, x: seq<Byte>, at: nat)
    requires |schedule| == ROUNDS && |x| == |data|
  {
    && at + BLOCK <= |data|
    && x[..at] + ChainDecrypt(schedule, data[at..]) == ChainDecrypt(schedule, data)
    && x[at..at + BLOCK] == DecryptBlock(schedule, data[at..at + BLOCK])
    && x[at + BLOCK..] == data[at + BLOCK..]
  }

  lemma {:induction false} TurnsSoFar(schedule: seq<Byte>, data: seq<Byte>, n: nat)
    requires |schedule| == ROUNDS && 1 <= n && BLOCK * n <= |data|
    ensures TurnOver(schedule, data, BlockTurns(schedule, data, n), BLOCK * (n - 1))
    decreases n
  {
    hide BlockTurn, TurnOver;
    var at := BLOCK * (n - 1);
    if n == 1 {
      FirstTurn(schedule, data);
    } else {
      TurnsSoFar(schedule, data, n - 1);
      NextTurn(schedule, data, BlockTurns(schedule, data, n - 1), at);
    }
  }

  lemma FirstTurn(schedule: seq<Byte>, data: seq<Byte>)
    requires |schedule| == ROUNDS && |data| >= BLOCK
    ensures TurnOver(schedule, data, BlockTurn(schedule, data, 0), 0)
  {
    hide DecryptBlock, ChainDecrypt;
    assert data[0..] == data && data[0..BLOCK] == data[..BLOCK];
  }

  lemma TurnParts(schedule: seq<Byte>, x: seq<Byte>, at: nat)
    requires |schedule| == ROUNDS && at >= BLOCK && at + BLOCK <= |x|
    ensures var r := BlockTurn(schedule, x, at);
            && r[..at] == x[..at - BLOCK] + XorBytes(x[at - BLOCK..at], x[at..at + BLOCK])
            && r[at..at + BLOCK] == DecryptBlock(schedule, x[at..at + BLOCK])
            && r[at + BLOCK..] == x[at + BLOCK..]
  {
    hide DecryptBlock, XorBytes;
  }

  lemma NextTurn(schedule: seq<Byte>, data: seq<Byte>, before: seq<Byte>, at: nat)
    requires |schedule| == ROUNDS && |before| == |data| && at >= BLOCK && at + BLOCK <= |data|
    requires TurnOver(schedule, data, before, at - BLOCK)
    ensures TurnOver(schedule, data, BlockTurn(schedule, before, at), at)
  {
    hide BlockTurn, DecryptBlock, XorBytes, ChainDecrypt;
    var rest := data[at - BLOCK..];
    TurnParts(schedule, before, at);
    assert before[at..at + BLOCK] == before[at..][..BLOCK] == data[at..at + BLOCK];
    assert before[at + BLOCK..] == before[at..][BLOCK..] == data[at + BLOCK..];
    assert rest[..BLOCK] == data[at - BLOCK..at] && rest[BLOCK..2 * BLOCK] == data[at..at + BLOCK] &&
        rest[BLOCK..] == data[at..];
    ChainUnfolds(schedule, rest);
    Associative(before[..at - BLOCK], XorBytes(before[at - BLOCK..at], data[at..at + BLOCK]),
        ChainDecrypt(schedule, data[at..]));
  }

  lemma ChainUnfolds(schedule: seq<Byte>, rest: seq<Byte>)
    requires |schedule| == ROUNDS && |rest| >= 2 * BLOCK
    ensures ChainDecrypt(schedule, rest)
         == XorBytes(DecryptBlock(schedule, rest[..BLOCK]), rest[BLOCK..2 * BLOCK]) +
             ChainDecrypt(schedule, rest[BLOCK..])
  {
  }

  /** As many turns as there are whole blocks decipher the chain, and more do nothing. */
  lemma {:induction false} TurnsDecrypt(schedule: seq<Byte>, data: seq<Byte>, n: nat)
    requires |schedule| == ROUNDS && BLOCK * n >= WholeBlocks(data)
    ensures BlockTurns(schedule, data, n) == ChainDecrypt(schedule, data)
    decreases n
  {
    hide BlockTurn, TurnOver, ChainDecrypt;
    if n > 0 && BLOCK * (n - 1) >= WholeBlocks(data) {
      TurnsDecrypt(schedule, data, n - 1);
      NoTurn(schedule, BlockTurns(schedule, data, n - 1), BLOCK * (n - 1));
    } else if n > 0 {
      TurnsSoFar(schedule, data, n);
      TurnsEnd(schedule, data, BlockTurns(schedule, data, n), BLOCK * (n - 1));
    } else {
      LessThanBlock(schedule, data);
    }
  }

  lemma NoTurn(schedule: seq<Byte>, x: seq<Byte>, at: nat)
    requires |schedule| == ROUNDS && (at == 0 || at >= BLOCK) && at + BLOCK > |x|
    ensures BlockTurn(schedule, x, at) == x
  {
  }

  lemma LessThanBlock(schedule: seq<Byte>, data: seq<Byte>)
    requires |schedule| == ROUNDS && |data| < BLOCK
    ensures ChainDecrypt(schedule, data) == data
  {
  }

  lemma TurnsEnd(schedule: seq<Byte>, data: seq<Byte>, x: seq<Byte>, at: nat)
    requires |schedule| == ROUNDS && |x| == |data| < at + 2 * BLOCK && TurnOver(schedule, data, x, at)
    ensures x == ChainDecrypt(schedule, data)
  {
    hide DecryptBlock, XorBytes, ChainDecrypt;
    var rest := data[at..];
    assert rest[..BLOCK] == data[at..at + BLOCK] && rest[BLOCK..] == data[at + BLOCK..];
    LastBlock(schedule, rest);
    assert x == x[..at] + (x[at..at + BLOCK] + x[at + BLOCK..]);
  }

  lemma LastBlock(schedule: seq<Byte>, rest: seq<Byte>)
    requires |schedule| == ROUNDS && BLOCK <= |rest| < 2 * BLOCK
    ensures ChainDecrypt(schedule, rest) == DecryptBlock(schedule, rest[..BLOCK]) + rest[BLOCK..]
  {
  }

  /* ---- in place ---- */

  lemma EightBytes(w: seq<Byte>)
    requires |w| == BLOCK
    ensures w == [w[0], w[1], w[2], w[3], w[4], w[5], w[6], w[7]]
  {
  }

  method RoundDown(w: array<Byte>, k: Byte)
    requires w.Length == BLOCK
    modifies w
    ensures w[..] == DecryptRound(old(w[..]), k)
  {
    hide BlockSBox, PermutationTable, Mix;
    ghost var o := w[..];
    var s := BlockSBox(Mix(k, w[6]));
    var l := Mix(w[7], s);
    w[7] := w[6];
    w[6] := Mix(w[5], PermutationTable(s));
    w[5] := w[4];
    w[4] := Mix(w[3], l);
    w[3] := Mix(w[2], l);
    w[2] := Mix(w[1], l);
    w[1] := w[0];
    w[0] := l;
    assert w[0] == l && w[1] == o[0] && w[2] == Mix(o[1], l) && w[3] == Mix(o[2], l) && w[4] == Mix(o[3], l);
    assert w[5] == o[4] && w[6] == Mix(o[5], PermutationTable(s)) && w[7] == o[6];
    EightBytes(w[..]);
  }

  method RoundUp(w: array<Byte>, k: Byte)
    requires w.Length == BLOCK
    modifies w
    ensures w[..] == EncryptRound(old(w[..]), k)
  {
    hide BlockSBox, PermutationTable, Mix;
    ghost var o := w[..];
    var s := BlockSBox(Mix(k, w[7]));
    var l := w[1];
    w[1] := Mix(w[2], w[0]);
    w[2] := Mix(w[3], w[0]);
    w[3] := Mix(w[4], w[0]);
    w[4] := w[5];
    w[5] := Mix(w[6], PermutationTable(s));
    w[6] := w[7];
    w[7] := Mix(w[0], s);
    w[0] := l;
    assert w[0] == o[1] && w[1] == Mix(o[2], o[0]) && w[2] == Mix(o[3], o[0]) && w[3] == Mix(o[4], o[0]) &&
        w[4] == o[5];
    assert w[5] == Mix(o[6], PermutationTable(s)) && w[6] == o[7] && w[7] == Mix(o[0], s);
    EightBytes(w[..]);
  }

  /** dvbcsa_block_decrypt, input and output at the same place. */
  method BlockDecrypt(schedule: seq<Byte>, data: array<Byte>, at: nat)
    requires |schedule| == ROUNDS && at + BLOCK <= data.Length
    modifies data
    ensures data[..] == Splice(old(data[..]), at, DecryptBlock(schedule, old(data[at..at + BLOCK])))
  {
    hide DecryptRound, Splice;
    var w := new Byte[BLOCK];
    Write(w, 0, data[at..at + BLOCK]);
    ghost var start := w[..];
    var i := ROUNDS;
    while i > 0
      invariant data[..] == old(data[..])
      invariant 0 <= i <= ROUNDS && DecryptRounds(schedule, w[..], i) == DecryptRounds(schedule, start, ROUNDS)
    {
      i := i - 1;
      RoundDown(w, schedule[i]);
    }
    Write(data, at, w[..]);
  }

  method BlockEncrypt(schedule: seq<Byte>, data: array<Byte>, at: nat)
    requires |schedule| == ROUNDS && at + BLOCK <= data.Length
    modifies data
    ensures data[..] == Splice(old(data[..]), at, EncryptBlock(schedule, old(data[at..at + BLOCK])))
  {
    hide EncryptRound, Splice;
    var w := new Byte[BLOCK];
    Write(w, 0, data[at..at + BLOCK]);
    ghost var start := w[..];
    for i := 0 to ROUNDS
      invariant data[..] == old(data[..]) && w[..] == EncryptRounds(schedule, start, i)
    {
      RoundUp(w, schedule[i]);
    }
    Write(data, at, w[..]);
  }

  /** dvbcsa_xor_64: mixes the block behind `at` into the one there. */
  method XorNext(data: array<Byte>, at: nat)
    requires at + 2 * BLOCK <= data.Length
    modifies data
    ensures data[..] ==
            Splice(old(data[..]), at, XorBytes(old(data[at..at + BLOCK]), old(data[at + BLOCK..at + 2 * BLOCK])))
  {
    ghost var x, mixed := data[..], XorBytes(data[at..at + BLOCK], data[at + BLOCK..at + 2 * BLOCK]);
    for j := 0 to BLOCK
      invariant forall k :: 0 <= k < data.Length ==> data[k] == if at <= k < at + j then mixed[k - at] else x[k]
    {
      data[at + j] := data[at + j] ^ data[at + j + BLOCK];
    }
    assert data[..] == x[..at] + mixed + x[at + BLOCK..];
  }

  /** The four rounds of one byte of the first block. */
  method Feed(start: Stream, iv: Byte) returns (s: Stream)
    ensures s == Fed(start, iv)
  {
    hide InitRound;
    s := InitRound(start, iv);
    s := InitRound(s, SwapNibbles(iv));
    s := InitRound(s, iv);
    s := InitRound(s, SwapNibbles(iv));
  }

  /** Four rounds, each mixing two bits into a byte. */
  method XorByte(start: Stream, b: Byte) returns (s: Stream, r: Byte)
    ensures s == FourRounds(start) && r == b ^ OutputByte(start)
  {
    hide Round, Output;
    s := Round(start);
    ghost var o1 := Output(s);
    r := b ^ (Output(s) & 0xc0);
    s := Round(s);
    ghost var o2 := Output(s);
    r := r ^ (Output(s) & 0x30);
    s := Round(s);
    ghost var o3 := Output(s);
    r := r ^ (Output(s) & 0x0c);
    s := Round(s);
    r := r ^ (Output(s) & 0x03);
    MixedFour(b, o1, o2, o3, Output(s));
  }

  lemma MixedFour(b: Byte, o1: Byte, o2: Byte, o3: Byte, o4: Byte)
    ensures b ^ (o1 & 0xc0) ^ (o2 & 0x30) ^ (o3 & 0x0c) ^ (o4 & 0x03) == b ^ Merged(o1, o2, o3, o4)
  {
  }

  /** dvbcsa_stream_xor on all but the first block, which starts the stream. */
  method XorStream(word: seq<Byte>, data: array<Byte>)
    requires |word| == 8 && data.Length >= BLOCK
    modifies data
    ensures data[..] == Streamed(word, old(data[..]))
  {
    hide Fed, Keystream, XorBytes, Loaded;
    ghost var plain := data[..];
    var s := Loaded(word);
    for i := 0 to BLOCK
      invariant data[..] == plain && s == FedBytes(Loaded(word), plain[..i])
    {
      s := Feed(s, data[i]);
      assert plain[..i + 1][..i] == plain[..i];
    }
    XorRest(s, data);
    assert data[..] == data[..BLOCK] + data[BLOCK..];
  }

  method XorRest(start: Stream, data: array<Byte>)
    requires data.Length >= BLOCK
    modifies data
    ensures data[..BLOCK] == old(data[..BLOCK])
    ensures data[BLOCK..] == XorBytes(old(data[BLOCK..]), Keystream(start, data.Length - BLOCK))
  {
    hide OutputByte, FourRounds, Keystream;
    ghost var plain, key := data[..], Keystream(start, data.Length - BLOCK);
    var s := start;
    for i := BLOCK to data.Length
      invariant Keystream(s, data.Length - i) == key[i - BLOCK..]
      invariant forall k :: 0 <= k < data.Length ==>
        data[k] == if BLOCK <= k < i then plain[k] ^ key[k - BLOCK] else plain[k]
    {
      NextByte(s, data.Length - i);
      assert key[i - BLOCK..][1..] == key[i - BLOCK + 1..];
      assert key[i - BLOCK] == key[i - BLOCK..][0];
      s, data[i] := XorByte(s, data[i]);
    }
    assert data[BLOCK..] == XorBytes(plain[BLOCK..], key);
  }

  lemma NextByte(s: Stream, n: nat)
    requires n > 0
    ensures Keystream(s, n) == [OutputByte(s)] + Keystream(FourRounds(s), n - 1)
  {
  }

  /** dvbcsa_decrypt. */
  method DecryptInPlace(key: Key, data: array<Byte>)
    requires key.Valid()
    modifies data
    ensures data[..] == Decrypt(key, old(data[..]))
  {
    hide Streamed, ChainDecrypt;
    if data.Length < BLOCK { return; }
    XorStream(key.word, data);
    DecryptBlocks(key.schedule, data);
  }

  method DecryptBlocks(schedule: seq<Byte>, data: array<Byte>)
    requires |schedule| == ROUNDS && data.Length >= BLOCK
    modifies data
    ensures data[..] == ChainDecrypt(schedule, old(data[..]))
  {
    hide BlockTurn, ChainDecrypt;
    ghost var d, n := data[..], 1;
    DecryptTurn(schedule, data, 0);
    var whole := data.Length - data.Length % BLOCK;
    var at := BLOCK;
    assert data[..] == BlockTurns(schedule, d, 1);
    while at < whole
      invariant BLOCK <= at <= whole && at == BLOCK * n
      invariant data[..] == BlockTurns(schedule, d, n)
    {
      DecryptTurn(schedule, data, at);
      at := at + BLOCK;
      n := n + 1;
    }
    TurnsDecrypt(schedule, d, n);
  }

  /** One block is mixed into the one before it, if there is one, and deciphered. */
  method DecryptTurn(schedule: seq<Byte>, data: array<Byte>, at: nat)
    requires |schedule| == ROUNDS && (at == 0 || at >= BLOCK) && at + BLOCK <= data.Length
    modifies data
    ensures data[..] == BlockTurn(schedule, old(data[..]), at)
  {
    hide BlockTurn, DecryptBlock, XorBytes;
    ghost var x := data[..];
    MixIntoLast(data, at);
    TurnOf(schedule, x, data[..], at);
    BlockDecrypt(schedule, data, at);
  }

  lemma TurnOf(schedule: seq<Byte>, x: seq<Byte>, y: seq<Byte>, at: nat)
    requires |schedule| == ROUNDS && (at == 0 || at >= BLOCK) && at + BLOCK <= |x| == |y| && y[at..] == x[at..]
    requires at > 0 ==> y[..at] == x[..at - BLOCK] + XorBytes(x[at - BLOCK..at], x[at..at + BLOCK])
    ensures BlockTurn(schedule, x, at) == Splice(y, at, DecryptBlock(schedule, y[at..at + BLOCK]))
  {
    hide DecryptBlock, XorBytes;
    TailCut(x, at, BLOCK);
    TailCut(y, at, BLOCK);
    assert at == 0 ==> y[..at] == [];
  }

  method MixIntoLast(data: array<Byte>, at: nat)
    requires (at == 0 || at >= BLOCK) && at + BLOCK <= data.Length
    modifies data
    ensures at > 0 ==>
      data[..at] == old(data[..at - BLOCK]) + XorBytes(old(data[at - BLOCK..at]), old(data[at..at + BLOCK]))
    ensures data[at..] == old(data[at..])
  {
    hide Splice, XorBytes;
    if at > 0 {
      SpliceParts(data[..], at - BLOCK, XorBytes(data[at - BLOCK..at], data[at..at + BLOCK]));
      XorNext(data, at - BLOCK);
      assert data[..at] == data[..][..at - BLOCK] + data[..][at - BLOCK..at];
    }
  }

  /** dvbcsa_encrypt. */
  method EncryptInPlace(key: Key, data: array<Byte>)
    requires key.Valid()
    modifies data
    ensures data[..] == Encrypt(key, old(data[..]))
  {
    hide Streamed, EncryptBlock, ChainEncrypt;
    if data.Length < BLOCK { return; }
    ghost var plain := data[..];
    var at := data.Length - data.Length % BLOCK - BLOCK;
    EncryptLast(key.schedule, data, at);
    while at >= BLOCK
      invariant 0 <= at <= data.Length - BLOCK && at % BLOCK == 0
      invariant data[..at] == plain[..at] && data[at..] == ChainEncrypt(key.schedule, plain[at..])
    {
      at := at - BLOCK;
      EncryptTurn(key.schedule, data, at, plain);
    }
    assert data[0..] == data[..] && plain[0..] == plain;
    XorStream(key.word, data);
  }

  method EncryptLast(schedule: seq<Byte>, data: array<Byte>, at: nat)
    requires |schedule| == ROUNDS && at + BLOCK <= data.Length < at + 2 * BLOCK
    modifies data
    ensures data[..at] == old(data[..at]) && data[at..] == ChainEncrypt(schedule, old(data[at..]))
  {
    hide Splice, EncryptBlock;
    ghost var x := data[..];
    SpliceParts(x, at, EncryptBlock(schedule, data[at..at + BLOCK]));
    BlockEncrypt(schedule, data, at);
    assert x[at..][..BLOCK] == x[at..at + BLOCK] && x[at..][BLOCK..] == x[at + BLOCK..];
    assert data[at..] == data[..][at..at + BLOCK] + data[..][at + BLOCK..];
  }

  /** The block before the enciphered ones is mixed with the first of them and enciphered. */
  method EncryptTurn(schedule: seq<Byte>, data: array<Byte>, at: nat, ghost plain: seq<Byte>)
    requires |schedule| == ROUNDS && at + 2 * BLOCK <= data.Length == |plain|
    requires data[..at + BLOCK] == plain[..at + BLOCK]
    requires data[at + BLOCK..] == ChainEncrypt(schedule, plain[at + BLOCK..])
    modifies data
    ensures data[..at] == plain[..at] && data[at..] == ChainEncrypt(schedule, plain[at..])
  {
    hide Splice, EncryptBlock, XorBytes, ChainEncrypt;
    ghost var x := data[..];
    ghost var mixed := XorBytes(data[at..at + BLOCK], data[at + BLOCK..at + 2 * BLOCK]);
    SpliceParts(x, at, mixed);
    XorNext(data, at);
    SpliceParts(data[..], at, EncryptBlock(schedule, mixed));
    BlockEncrypt(schedule, data, at);
    assert x[at..at + BLOCK] == x[..at + BLOCK][at..];
    assert plain[at..][..BLOCK] == plain[..at + BLOCK][at..];
    assert x[at + BLOCK..at + 2 * BLOCK] == x[at + BLOCK..][..BLOCK];
    assert plain[at..][BLOCK..] == plain[at + BLOCK..];
    assert data[at..] == data[..][at..at + BLOCK] + data[..][at + BLOCK..];
    assert data[..at] == x[..at] == x[..at + BLOCK][..at];
    ChainUp(schedule, plain[at..]);
  }

  lemma ChainUp(schedule: seq<Byte>, data: seq<Byte>)
    requires |schedule| == ROUNDS && |data| >= 2 * BLOCK
    ensures var rest := ChainEncrypt(schedule, data[BLOCK..]);
            ChainEncrypt(schedule, data) == EncryptBlock(schedule, XorBytes(data[..BLOCK], rest[..BLOCK])) + rest
  {
  }
}
