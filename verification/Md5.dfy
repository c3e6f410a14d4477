/** Streaming MD5, core/dtv_camd_crypt.c, against RFC 1321. */
module Md5 {
  import opened Bytes
  import opened Buffers

  type Word = bv32

  const WRAP := 0x1_0000_0000_0000_0000

  /** What a 64-bit counter shows of a number. */
  function Shown(n: nat): (r: nat)
    ensures r < WRAP
  {
    n % WRAP
  }

  /* ---- tables ---- */

  function Pick(a: Word, b: Word, c: Word, d: Word, column: nat): Word {
    if column == 0 then a else if column == 1 then b else if column == 2 then c else d
  }

  /** T[i + 1] of section 3.4. */
  function Sine(i: nat): Word
    requires i < 64
  {
    var row := i / 4;
    if row == 0 then Pick(0xd76aa478, 0xe8c7b756, 0x242070db, 0xc1bdceee, i % 4)
    else if row == 1 then Pick(0xf57c0faf, 0x4787c62a, 0xa8304613, 0xfd469501, i % 4)
    else if row == 2 then Pick(0x698098d8, 0x8b44f7af, 0xffff5bb1, 0x895cd7be, i % 4)
    else if row == 3 then Pick(0x6b901122, 0xfd987193, 0xa679438e, 0x49b40821, i % 4)
    else if row == 4 then Pick(0xf61e2562, 0xc040b340, 0x265e5a51, 0xe9b6c7aa, i % 4)
    else if row == 5 then Pick(0xd62f105d, 0x02441453, 0xd8a1e681, 0xe7d3fbc8, i % 4)
    else if row == 6 then Pick(0x21e1cde6, 0xc33707d6, 0xf4d50d87, 0x455a14ed, i % 4)
    else if row == 7 then Pick(0xa9e3e905, 0xfcefa3f8, 0x676f02d9, 0x8d2a4c8a, i % 4)
    else if row == 8 then Pick(0xfffa3942, 0x8771f681, 0x6d9d6122, 0xfde5380c, i % 4)
    else if row == 9 then Pick(0xa4beea44, 0x4bdecfa9, 0xf6bb4b60, 0xbebfbc70, i % 4)
    else if row == 10 then Pick(0x289b7ec6, 0xeaa127fa, 0xd4ef3085, 0x04881d05, i % 4)
    else if row == 11 then Pick(0xd9d4d039, 0xe6db99e5, 0x1fa27cf8, 0xc4ac5665, i % 4)
    else if row == 12 then Pick(0xf4292244, 0x432aff97, 0xab9423a7, 0xfc93a039, i % 4)
    else if row == 13 then Pick(0x655b59c3, 0x8f0ccc92, 0xffeff47d, 0x85845dd1, i % 4)
    else if row == 14 then Pick(0x6fa87e4f, 0xfe2ce6e0, 0xa3014314, 0x4e0811a1, i % 4)
    else Pick(0xf7537e82, 0xbd3af235, 0x2ad7d2bb, 0xeb86d391, i % 4)
  }

  /** How far step `i` rotates. */
  function Turn(i: nat): (s: nat)
    requires i < 64
    ensures 0 < s < 32
  {
    var column := i % 4;
    if i < 16 then (if column == 0 then 7 else if column == 1 then 12 else if column == 2 then 17 else 22)
    else if i < 32 then (if column == 0 then 5 else if column == 1 then 9 else if column == 2 then 14 else 20)
    else if i < 48 then (if column == 0 then 4 else if column == 1 then 11 else if column == 2 then 16 else 23)
    else (if column == 0 then 6 else if column == 1 then 10 else if column == 2 then 15 else 21)
  }

  function Rotate(value: Word, count: nat): Word
    requires 0 < count < 32
  {
    (value << count) | (value >> (32 - count))
  }

  /* ---- the block transform as the RFC writes it ---- */

  // The auxiliary functions of section 3.4.
  function F(x: Word, y: Word, z: Word): Word { (x & y) | (!x & z) }

  function G(x: Word, y: Word, z: Word): Word { (x & z) | (y & !z) }

  function H(x: Word, y: Word, z: Word): Word { x ^ y ^ z }

  function I(x: Word, y: Word, z: Word): Word { y ^ (x | !z) }

  function Auxiliary(round: nat, x: Word, y: Word, z: Word): Word {
    if round == 0 then F(x, y, z) else if round == 1 then G(x, y, z) else if round == 2 then H(x, y, z) else I(x, y, z)
  }

  /** b + ((a + f + x + t) <<< s). */
  function Combined(a: Word, b: Word, f: Word, x: Word, t: Word, s: nat): Word
    requires 0 < s < 32
  {
    b + Rotate(a + f + x + t, s)
  }

  /** Which word of the block operation `j` of a round uses. */
  function WordOf(round: nat, j: nat): (k: nat)
    ensures k < 16
  {
    if round == 0 then j % 16
    else if round == 1 then (1 + 5 * j) % 16
    else if round == 2 then (5 + 3 * j) % 16
    else 7 * j % 16
  }

  /** Which of the registers A, B, C, D operation `i` sets: A, D, C, B, and again. */
  function Target(i: nat): (t: nat)
    ensures t < 4
  {
    (4 - i % 4) % 4
  }

  type Block = x: seq<Word> | |x| == 16 witness seq(16, _ => 0)
  type Registers = r: seq<Word> | |r| == 4 witness [0, 0, 0, 0]

  /** One operation [abcd k s i]: a = b + ((a + f(b, c, d) + X[k] + T[i]) <<< s). */
  function Operation(i: nat, r: Registers, x: Block): Registers
    requires i < 64
  {
    var t := Target(i);
    var a, b, c, d := r[t], r[(t + 1) % 4], r[(t + 2) % 4], r[(t + 3) % 4];
    r[t := Combined(a, b, Auxiliary(i / 16, b, c, d), x[WordOf(i / 16, i % 16)], Sine(i), Turn(i))]
  }

  function Operations(n: nat, r: Registers, x: Block): Registers
    requires n <= 64
    decreases n
  {
    if n == 0 then r else Operation(n - 1, Operations(n - 1, r, x), x)
  }

  /** The words of a block, low-order byte first. */
  function WordAt(block: seq<Byte>, i: nat): Word
    requires |block| == 64 && i < 16
  {
    (block[4 * i] as Word) | ((block[4 * i + 1] as Word) << 8) | ((block[4 * i + 2] as Word) << 16)
    | ((block[4 * i + 3] as Word) << 24)
  }

  function WordsOf(block: seq<Byte>): Block
    requires |block| == 64
  {
    seq(16, i requires 0 <= i < 16 => WordAt(block, i))
  }

  /** Addition modulo 2^32. A function, so that proofs can treat it as a symbol. */
  function Plus(x: Word, y: Word): Word { x + y }

  function Added(r: Registers, q: Registers): Registers {
    [Plus(r[0], q[0]), Plus(r[1], q[1]), Plus(r[2], q[2]), Plus(r[3], q[3])]
  }

  function Process(r: Registers, block: seq<Byte>): Registers
    requires |block| == 64
  {
    Added(r, Operations(64, r, WordsOf(block)))
  }

  /* ---- the message digest ---- */

  const INITIAL: Registers := [0x67452301, 0xefcdab89, 0x98badcfe, 0x10325476]

  /** The blocks of some data, one after the other. */
  function Fold(data: seq<Byte>): Registers
    requires |data| % 64 == 0
    decreases |data|
  {
    if data == [] then INITIAL else Process(Fold(data[..|data| - 64]), data[|data| - 64..])
  }

  function Zeros(n: nat): (z: seq<Byte>)
    ensures |z| == n
  {
    seq(n, _ => 0)
  }

  function LowByte(value: nat): Byte { (value % 256) as Byte }

  /** The low `n` bytes of a number, low-order byte first. */
  function LittleEndian(value: nat, n: nat): (b: seq<Byte>)
    ensures |b| == n
    decreases n
  {
    if n == 0 then [] else [LowByte(value)] + LittleEndian(value / 256, n - 1)
  }

  /** How many zero bytes follow the 0x80 byte: the fewest that leave 8 bytes of a block. */
  function PadZeros(n: nat): (k: nat)
    ensures (n + 1 + k) % 64 == 56 && k < 64
  {
    (119 - n % 64) % 64
  }

  lemma PaddedLength(n: nat, k: nat)
    requires (n + 1 + k) % 64 == 56
    ensures (n + 1 + k + 8) % 64 == 0
  {
  }

  /** Sections 3.1 and 3.2: the message, a one bit, zero bits, and the low 64 bits of its length in bits. */
  function Padded(message: seq<Byte>): (p: seq<Byte>)
    ensures |p| % 64 == 0
  {
    PaddedLength(|message|, PadZeros(|message|));
    message + [0x80] + Zeros(PadZeros(|message|)) + LittleEndian(Shown(8 * |message|), 8)
  }

  function Bytes32(w: Word): (b: seq<Byte>)
    ensures |b| == 4
  {
    [(w & 0xff) as Byte, ((w >> 8) & 0xff) as Byte, ((w >> 16) & 0xff) as Byte, ((w >> 24) & 0xff) as Byte]
  }

  function Digest(message: seq<Byte>): (d: seq<Byte>)
    ensures |d| == 16
  {
    var r := Fold(Padded(message));
    Bytes32(r[0]) + Bytes32(r[1]) + Bytes32(r[2]) + Bytes32(r[3])
  }

  /* ---- the source's form of the transform ---- */

  /** The four variables of the loop, which change names instead of being set in turn. */
  datatype Names = Names(a: Word, b: Word, c: Word, d: Word)

  /** The function of a step; the second round's choice is written with its arguments rotated. */
  function Mixed(i: nat, v: Names): Word {
    if i < 16 then F(v.b, v.c, v.d)
    else if i < 32 then F(v.d, v.b, v.c)
    else if i < 48 then H(v.b, v.c, v.d)
    else I(v.b, v.c, v.d)
  }

  function Index(i: nat): (g: nat)
    ensures g < 16
  {
    if i < 16 then i
    else if i < 32 then (5 * i + 1) % 16
    else if i < 48 then (3 * i + 5) % 16
    else 7 * i % 16
  }

  function Summed(a: Word, b: Word, f: Word, m: Word, k: Word, s: nat): Word
    requires 0 < s < 32
  {
    b + Rotate(f + (a + k + m), s)
  }

  function Step(i: nat, v: Names, m: Block): Names
    requires i < 64
  {
    Names(v.d, Summed(v.a, v.b, Mixed(i, v), m[Index(i)], Sine(i), Turn(i)), v.b, v.c)
  }

  function Steps(n: nat, v: Names, m: Block): Names
    requires n <= 64
    decreases n
  {
    if n == 0 then v else Step(n - 1, Steps(n - 1, v, m), m)
  }

  /** The registers under the names they go by before operation `i`. */
  function Named(i: nat, r: Registers): Names {
    var t := Target(i);
    Names(r[t], r[(t + 1) % 4], r[(t + 2) % 4], r[(t + 3) % 4])
  }

  lemma ModuloShift(k: nat, n: nat)
    ensures (16 * k + n) % 16 == n % 16
  {
  }

  lemma SameIndex(i: nat)
    requires i < 64
    ensures Index(i) == WordOf(i / 16, i % 16)
  {
    var round, j := i / 16, i % 16;
    assert i == 16 * round + j && round < 4;
    if round == 1 {
      ModuloShift(5, 1 + 5 * j);
    } else if round == 2 {
      ModuloShift(6, 5 + 3 * j);
    } else if round == 3 {
      ModuloShift(21, 7 * j);
    }
  }

  lemma ChoiceIsSymmetric(b: Word, c: Word, d: Word)
    ensures F(d, b, c) == G(b, c, d)
  {
  }

  lemma SameFunction(i: nat, v: Names)
    requires i < 64
    ensures Mixed(i, v) == Auxiliary(i / 16, v.b, v.c, v.d)
  {
    hide F, G, H, I;
    ChoiceIsSymmetric(v.b, v.c, v.d);
  }

  lemma SumsAgree(a: Word, b: Word, f: Word, m: Word, k: Word, s: nat)
    requires 0 < s < 32
    ensures Summed(a, b, f, m, k, s) == Combined(a, b, f, m, k, s)
  {
    hide Rotate;
    assert f + (a + k + m) == a + f + m + k;
  }

  lemma TargetsFollow(i: nat)
    ensures Target(i + 1) == (Target(i) + 3) % 4
  {
  }

  lemma StepIsOperation(i: nat, r: Registers, m: Block)
    requires i < 64
    ensures Step(i, Named(i, r), m) == Named(i + 1, Operation(i, r, m))
  {
    hide Mixed, Auxiliary, Sine, Turn, Summed, Combined, Index, WordOf, Target;
    var v := Named(i, r);
    SameIndex(i);
    SameFunction(i, v);
    SumsAgree(v.a, v.b, Mixed(i, v), m[Index(i)], Sine(i), Turn(i));
    TargetsFollow(i);
    var t := Target(i);
    if t == 0 {
    } else if t == 1 {
    } else if t == 2 {
    } else {
    }
  }

  /** The renaming loop computes what the RFC's sixty-four operations do. */
  lemma {:induction false} StepsAreOperations(n: nat, r: Registers, m: Block)
    requires n <= 64
    ensures Steps(n, Named(0, r), m) == Named(n, Operations(n, r, m))
    decreases n
  {
    hide Step, Operation, Named;
    if n > 0 {
      StepsAreOperations(n - 1, r, m);
      StepIsOperation(n - 1, Operations(n - 1, r, m), m);
    }
  }

  /** The transform, in terms of the renaming loop. */
  lemma ProcessBySteps(r: Registers, block: seq<Byte>)
    requires |block| == 64
    ensures var v := Steps(64, Names(r[0], r[1], r[2], r[3]), WordsOf(block));
            Process(r, block) == Added(r, [v.a, v.b, v.c, v.d])
  {
    hide Steps, Operations, WordsOf, Named, Added;
    StepsAreOperations(64, r, WordsOf(block));
    FirstNames(0, r);
    var q := Operations(64, r, WordsOf(block));
    FirstNames(64, q);
    assert q == [q[0], q[1], q[2], q[3]];
  }

  lemma FirstNames(i: nat, r: Registers)
    requires i % 4 == 0
    ensures Named(i, r) == Names(r[0], r[1], r[2], r[3])
  {
  }

  method LoadWords(block: seq<Byte>) returns (m: array<Word>)
    requires |block| == 64
    ensures fresh(m) && m.Length == 16 && m[..] == WordsOf(block)
  {
    hide WordAt;
    m := new Word[16];
    for i := 0 to 16
      invariant forall j :: 0 <= j < i ==> m[j] == WordAt(block, j)
    {
      m[i] := WordAt(block, i);
    }
  }

  /** The transform of the source, in place. */
  method Transform(state: array<Word>, block: seq<Byte>)
    requires state.Length == 4 && |block| == 64
    modifies state
    ensures state[..] == Process(old(state[..]), block)
  {
    hide Mixed, Sine, Turn, Summed, Index, Steps, Process, WordsOf, Added;
    ghost var r: Registers := state[..];
    ghost var x := WordsOf(block);
    ProcessBySteps(r, block);
    var m := LoadWords(block);
    var a, b, c, d := state[0], state[1], state[2], state[3];
    ghost var start := Names(a, b, c, d);
    NoSteps(start, x);
    for i := 0 to 64
      invariant m[..] == x
      invariant Names(a, b, c, d) == Steps(i, start, x)
      invariant state[..] == r
    {
      OneStep(i, start, x);
      var f := Mixed(i, Names(a, b, c, d));
      var g := Index(i);
      a, d, c, b := d, c, b, Summed(a, b, f, m[g], Sine(i), Turn(i));
    }
    AddInto(state, a, b, c, d);
  }

  method AddInto(state: array<Word>, a: Word, b: Word, c: Word, d: Word)
    requires state.Length == 4
    modifies state
    ensures state[..] == Added(old(state[..]), [a, b, c, d])
  {
    hide Plus;
    state[0] := Plus(state[0], a);
    state[1] := Plus(state[1], b);
    state[2] := Plus(state[2], c);
    state[3] := Plus(state[3], d);
  }

  lemma NoSteps(v: Names, m: Block)
    ensures Steps(0, v, m) == v
  {
  }

  lemma OneStep(i: nat, v: Names, m: Block)
    requires i < 64
    ensures Steps(i + 1, v, m) == Step(i, Steps(i, v, m), m)
  {
  }

  /* ---- the stream ---- */

  lemma FoldBlock(data: seq<Byte>, block: seq<Byte>)
    requires |data| % 64 == 0 && |block| == 64
    ensures Fold(data + block) == Process(Fold(data), block)
  {
    hide Process;
    assert |data + block| % 64 == 0;
    assert (data + block)[..|data|] == data && (data + block)[|data|..] == block;
  }

  lemma MultiplesDrop(k: nat, r: nat)
    ensures (64 * k + r) % 64 == r % 64
  {
  }

  lemma CountInBlock(n: nat)
    ensures Shown(n) % 64 == n % 64
  {
    var q, r := n / WRAP, n % WRAP;
    assert n == 64 * (WRAP / 64 * q) + r;
    MultiplesDrop(WRAP / 64 * q, r);
  }

  lemma CountAdded(n: nat, k: nat)
    ensures Shown(Shown(n) + k) == Shown(n + k)
  {
  }

  /** The full blocks at the start of some data. */
  ghost function Whole(data: seq<Byte>): (w: seq<Byte>)
    ensures |w| == |data| - |data| % 64 && |w| % 64 == 0 && w <= data
  {
    data[..|data| - |data| % 64]
  }

  lemma WholeUnchanged(data: seq<Byte>, more: seq<Byte>)
    requires |data| % 64 + |more| < 64
    ensures Whole(data + more) == Whole(data) && (data + more)[|Whole(data)|..] == data[|Whole(data)|..] + more
  {
    assert |data + more| % 64 == |data| % 64 + |more|;
  }

  /** Data cut where the block being filled is complete. */
  lemma Completed(data: seq<Byte>, more: seq<Byte>, used: nat)
    requires used == |data| % 64 && 64 - used <= |more|
    ensures Whole(data) + (data[|Whole(data)|..] + more[..64 - used]) + more[64 - used..] == data + more
  {
  }

  lemma WholeIs(data: seq<Byte>, whole: seq<Byte>, rest: seq<Byte>)
    requires whole + rest == data && |whole| % 64 == 0 && |rest| < 64
    ensures Whole(data) == whole && data[|whole|..] == rest
  {
  }

  /** The whole blocks of some input, directly from it. */
  method TransformAll(state: array<Word>, ghost whole: seq<Byte>, data: seq<Byte>)
      returns (rest: seq<Byte>, ghost done: seq<Byte>)
    requires state.Length == 4 && |whole| % 64 == 0 && state[..] == Fold(whole)
    modifies state
    ensures |done| % 64 == 0 && done + rest == whole + data && |rest| < 64 && state[..] == Fold(done)
  {
    hide Fold, Process;
    done, rest := whole, data;
    while |rest| >= 64
      invariant |done| % 64 == 0 && done + rest == whole + data
      invariant state[..] == Fold(done)
      decreases |rest|
    {
      FoldBlock(done, rest[..64]);
      Transform(state, rest[..64]);
      assert done + rest[..64] + rest[64..] == done + rest;
      done := done + rest[..64];
      rest := rest[64..];
    }
  }

  /** The context of the source: chaining state, a 64-bit count of bytes, and the block being filled.
      `fed` is what was given to it. */
  class Context {
    const state: array<Word>
    var count: nat
    const buffer: array<Byte>
    ghost var fed: seq<Byte>

    ghost predicate Valid()
      reads this, state, buffer
    {
      && state.Length == 4 && buffer.Length == 64 && state as object != buffer
      && count == Shown(|fed|)
      && Whole(fed) <= fed
      && state[..] == Fold(Whole(fed))
      && buffer[..|fed| - |Whole(fed)|] == fed[|Whole(fed)|..]
    }

    constructor ()
      ensures Valid() && fed == [] && fresh(state) && fresh(buffer)
    {
      state := new Word[4];
      count := 0;
      buffer := new Byte[64](_ => 0);
      fed := [];
      new;
      state[0], state[1], state[2], state[3] := 0x67452301, 0xefcdab89, 0x98badcfe, 0x10325476;
      assert state[..] == INITIAL;
    }

    /** However the message is cut into updates, the context stands where one update would leave it. */
    method Update(data: seq<Byte>)
      requires Valid()
      modifies this, state, buffer
      ensures Valid() && fed == old(fed) + data
    {
      hide Fold, Process, Whole, Shown;
      var used := count % 64;
      CountInBlock(|fed|);
      CountAdded(|fed|, |data|);
      count := Shown(count + |data|);
      ghost var whole, all := Whole(fed), fed + data;
      var rest := data;
      if used != 0 {
        var space := 64 - used;
        if |data| < space {
          WriteBehind(buffer, used, data);
          WholeUnchanged(fed, data);
          fed := all;
          return;
        }
        Completed(fed, data, used);
        whole := CompleteBlock(whole, used, data[..space]);
        rest := data[space..];
      }
      fed := all;
      TakeBlocks(whole, rest);
    }

    /** The block being filled gets what it lacks. */
    method CompleteBlock(ghost whole: seq<Byte>, used: nat, part: seq<Byte>) returns (ghost done: seq<Byte>)
      requires state.Length == 4 && buffer.Length == 64 && state as object != buffer
      requires used + |part| == 64 && |whole| % 64 == 0 && state[..] == Fold(whole)
      modifies state, buffer
      ensures |done| % 64 == 0 && done == whole + (old(buffer[..used]) + part) && state[..] == Fold(done)
    {
      hide Fold, Process;
      WriteBehind(buffer, used, part);
      assert buffer[..] == buffer[..64];
      FoldBlock(whole, buffer[..]);
      Transform(state, buffer[..]);
      done := whole + buffer[..];
    }

    /** The whole blocks of the input directly, and what is left of it into the buffer. */
    method TakeBlocks(ghost whole: seq<Byte>, data: seq<Byte>)
      requires state.Length == 4 && buffer.Length == 64 && state as object != buffer && count == Shown(|fed|)
      requires |whole| % 64 == 0 && whole + data == fed && state[..] == Fold(whole)
      modifies state, buffer
      ensures Valid()
    {
      hide Fold, Process, Shown, Whole;
      ghost var done;
      var rest;
      rest, done := TransformAll(state, whole, data);
      WriteBehind(buffer, 0, rest);
      WholeIs(fed, done, rest);
    }

    /** Pads, and gives out the digest. The context is wiped. */
    method Final() returns (digest: seq<Byte>)
      requires Valid()
      modifies this, state, buffer
      ensures digest == Digest(old(fed))
      ensures count == 0 && state[..] == [0, 0, 0, 0] && buffer[..] == Zeros(64)
    {
      hide Fold, Process, LittleEndian, PadZeros, Zeros, Bytes32, Shown, Whole;
      ghost var message := fed;
      CountInBlock(|fed|);
      var bits := Shown(count * 8);
      CountInBits(|fed|);
      var used := count % 64;
      var pad := if used < 56 then 56 - used else 120 - used;
      var tail := PaddingTail(pad, bits);
      PadSize(|fed|, pad);
      assert fed + tail == Padded(fed);
      Update(tail);
      WholeIs(fed, fed, []);
      assert fed == Padded(message);
      digest := Bytes32(state[0]) + Bytes32(state[1]) + Bytes32(state[2]) + Bytes32(state[3]);
      Wipe();
    }

    method Wipe()
      requires state.Length == 4 && buffer.Length == 64
      modifies this, state, buffer
      ensures count == 0 && state[..] == [0, 0, 0, 0] && buffer[..] == Zeros(64)
    {
      count := 0;
      fed := [];
      for i := 0 to 4
        invariant count == 0 && forall j :: 0 <= j < i ==> state[j] == 0
      {
        state[i] := 0;
      }
      for i := 0 to 64
        invariant count == 0 && state[..] == [0, 0, 0, 0]
        invariant forall j :: 0 <= j < i ==> buffer[j] == 0
      {
        buffer[i] := 0;
      }
    }
  }

  /** The bytes that pad a message: 0x80, zeros, and the count of bits. */
  method PaddingTail(pad: nat, bits: nat) returns (tail: seq<Byte>)
    requires 1 <= pad <= 64 && bits < WRAP
    ensures tail == [0x80] + Zeros(pad - 1) + LittleEndian(bits, 8)
  {
    hide LittleEndian;
    var buffer := new Byte[72](_ => 0);
    buffer[0] := 0x80;
    assert buffer[..pad] == [0x80] + Zeros(pad - 1);
    PutCount(buffer, pad, bits);
    tail := buffer[..pad + 8];
  }

  /** The count of bits, low-order byte first. */
  method PutCount(buffer: array<Byte>, at: nat, bits: nat)
    requires at + 8 <= buffer.Length
    modifies buffer
    ensures buffer[..at + 8] == old(buffer[..at]) + LittleEndian(bits, 8)
  {
    hide LittleEndian, LowByte;
    var rest := bits;
    ghost var start := buffer[..at];
    for i := 0 to 8
      invariant buffer[..at + i] + LittleEndian(rest, 8 - i) == start + LittleEndian(bits, 8)
    {
      LittleEndianStep(rest, 8 - i);
      ghost var before := buffer[..at + i];
      buffer[at + i] := LowByte(rest);
      assert buffer[..at + i + 1] == before + [LowByte(rest)];
      rest := rest / 256;
    }
  }

  lemma LittleEndianStep(value: nat, n: nat)
    requires n > 0
    ensures LittleEndian(value, n) == [LowByte(value)] + LittleEndian(value / 256, n - 1)
  {
  }

  lemma CountInBits(n: nat)
    ensures Shown(Shown(n) * 8) == Shown(8 * n)
  {
    var q, r := n / WRAP, n % WRAP;
    assert 8 * n == 8 * r + WRAP * (8 * q);
    RoundsDrop(8 * r, 8 * q);
  }

  lemma RoundsDrop(x: nat, k: nat)
    ensures Shown(x + WRAP * k) == Shown(x)
  {
  }

  lemma PadSize(n: nat, pad: nat)
    requires pad == if n % 64 < 56 then 56 - n % 64 else 120 - n % 64
    ensures pad - 1 == PadZeros(n)
  {
  }

  /** The one-call form. */
  method Sum(data: seq<Byte>) returns (digest: seq<Byte>)
    ensures digest == Digest(data)
  {
    hide Digest, Fold, Whole;
    var context := new Context();
    assert [] + data == data;
    context.Update(data);
    digest := context.Final();
  }
}
