/** AES-128 (FIPS 197) as core/dtv_camd_crypt.c computes it: key expansion, the cipher and its
    inverse on a sixteen-byte state held column by column. */
module Aes {
  import opened Buffers
  import opened Bytes
  import opened AesTables
  import opened GaloisField

  type Word = bv32
  type State = s: seq<Byte> | |s| == 16 witness [0, 0, 0, 0, 0, 0, 0, 0, 0, 0, 0, 0, 0, 0, 0, 0]

  /** The byte of a word that goes to row `row`, most significant first. */
  function WordByte(w: Word, row: nat): Byte
    requires row < 4
  {
    if row == 0 then ((w >> 24) & 0xff) as Byte
    else if row == 1 then ((w >> 16) & 0xff) as Byte
    else if row == 2 then ((w >> 8) & 0xff) as Byte
    else (w & 0xff) as Byte
  }

  function Pack4(b0: Byte, b1: Byte, b2: Byte, b3: Byte): Word {
    ((b0 as Word) << 24) | ((b1 as Word) << 16) | ((b2 as Word) << 8) | (b3 as Word)
  }

  /* ---- the transformations of the state ---- */

  function SubBytes(s: State): (r: State)
    ensures forall k :: 0 <= k < 16 ==> r[k] == SBox(s[k])
  {
    seq(16, k requires 0 <= k < 16 => SBox(s[k]))
  }

  function InvSubBytes(s: State): (r: State)
    ensures forall k :: 0 <= k < 16 ==> r[k] == InvSBox(s[k])
  {
    seq(16, k requires 0 <= k < 16 => InvSBox(s[k]))
  }

  /** Row r, the indices congruent to r modulo 4, rotates left by r columns. */
  function ShiftRows(s: State): State {
    [s[0], s[5], s[10], s[15], s[4], s[9], s[14], s[3], s[8], s[13], s[2], s[7], s[12], s[1], s[6], s[11]]
  }

  function InvShiftRows(s: State): State {
    [s[0], s[13], s[10], s[7], s[4], s[1], s[14], s[11], s[8], s[5], s[2], s[15], s[12], s[9], s[6], s[3]]
  }

  function MixColumn(a: seq<Byte>): (r: seq<Byte>)
    requires |a| == 4
    ensures |r| == 4
  {
    [Mix(a[0], a[1], a[2], a[3]), Mix(a[1], a[2], a[3], a[0]), Mix(a[2], a[3], a[0], a[1]), Mix(a[3], a[0], a[1], a[2])]
  }

  function InvMixColumn(a: seq<Byte>): (r: seq<Byte>)
    requires |a| == 4
    ensures |r| == 4
  {
    [InvMix(a[0], a[1], a[2], a[3]), InvMix(a[1], a[2], a[3], a[0]), InvMix(a[2], a[3], a[0], a[1]),
        InvMix(a[3], a[0], a[1], a[2])]
  }

  function Column(s: State, c: nat): (a: seq<Byte>)
    requires c < 4
    ensures |a| == 4
  {
    s[4 * c..4 * c + 4]
  }

  function Join(a: seq<Byte>, b: seq<Byte>, c: seq<Byte>, d: seq<Byte>): State
    requires |a| == |b| == |c| == |d| == 4
  {
    a + b + c + d
  }

  function MixColumns(s: State): State {
    Join(MixColumn(Column(s, 0)), MixColumn(Column(s, 1)), MixColumn(Column(s, 2)), MixColumn(Column(s, 3)))
  }

  function InvMixColumns(s: State): State {
    Join(InvMixColumn(Column(s, 0)), InvMixColumn(Column(s, 1)), InvMixColumn(Column(s, 2)), InvMixColumn(Column(s, 3)))
  }

  function RoundKey(schedule: seq<Word>, round: nat): State
    requires |schedule| == 44 && round <= 10
  {
    seq(16, k requires 0 <= k < 16 => WordByte(schedule[4 * round + k / 4], k % 4))
  }

  function AddRoundKey(s: State, schedule: seq<Word>, round: nat): State
    requires |schedule| == 44 && round <= 10
  {
    XorBytes(s, RoundKey(schedule, round))
  }

  /* ---- the cipher and its inverse ---- */

  /** The state once the first `rounds` rounds are done (section 5.1 of FIPS 197). */
  function EncryptRounds(block: State, schedule: seq<Word>, rounds: nat): State
    requires |schedule| == 44 && rounds <= 10
    decreases rounds
  {
    if rounds == 0 then AddRoundKey(block, schedule, 0)
    else
      var s := ShiftRows(SubBytes(EncryptRounds(block, schedule, rounds - 1)));
      AddRoundKey(if rounds != 10 then MixColumns(s) else s, schedule, rounds)
  }

  /** The state when the inverse cipher has come `steps` rounds back from the last (section 5.3). */
  function DecryptRounds(block: State, schedule: seq<Word>, steps: nat): State
    requires |schedule| == 44 && steps <= 10
    decreases steps
  {
    if steps == 0 then AddRoundKey(block, schedule, 10)
    else
      var s := AddRoundKey(InvSubBytes(InvShiftRows(DecryptRounds(block, schedule, steps - 1))), schedule, 10 - steps);
      if steps != 10 then InvMixColumns(s) else s
  }

  /** Nr, the number of rounds the schedule is for. */
  function RoundCount(schedule: seq<Word>): (n: nat)
    requires |schedule| == 44
    ensures n == 10
  {
    |schedule| / 4 - 1
  }

  function Encrypt(schedule: seq<Word>, block: State): State
    requires |schedule| == 44
  {
    EncryptRounds(block, schedule, RoundCount(schedule))
  }

  function Decrypt(schedule: seq<Word>, block: State): State
    requires |schedule| == 44
  {
    DecryptRounds(block, schedule, RoundCount(schedule))
  }

  lemma SubBytesInverse(s: State)
    ensures InvSubBytes(SubBytes(s)) == s
  {
    forall k | 0 <= k < 16
      ensures InvSubBytes(SubBytes(s))[k] == s[k]
    {
      InvSBoxInverse(s[k]);
    }
  }

  lemma ShiftRowsInverse(s: State)
    ensures InvShiftRows(ShiftRows(s)) == s
  {
  }

  lemma MixColumnInverse(a: seq<Byte>)
    requires |a| == 4
    ensures InvMixColumn(MixColumn(a)) == a
  {
    hide Mix, InvMix;
    MixInverse(a[0], a[1], a[2], a[3]);
    MixInverse(a[1], a[2], a[3], a[0]);
    MixInverse(a[2], a[3], a[0], a[1]);
    MixInverse(a[3], a[0], a[1], a[2]);
  }

  lemma MixColumnsInverse(s: State)
    ensures InvMixColumns(MixColumns(s)) == s
  {
    hide MixColumn, InvMixColumn, Column, Join;
    forall c | 0 <= c < 4
      ensures Column(MixColumns(s), c) == MixColumn(Column(s, c)) &&
          InvMixColumn(Column(MixColumns(s), c)) == Column(s, c)
    {
      MixColumnInverse(Column(s, c));
      ColumnOfJoin(MixColumn(Column(s, 0)), MixColumn(Column(s, 1)), MixColumn(Column(s, 2)),
          MixColumn(Column(s, 3)), c);
    }
    JoinOfColumns(s);
  }

  lemma ColumnOfJoin(a: seq<Byte>, b: seq<Byte>, c: seq<Byte>, d: seq<Byte>, i: nat)
    requires |a| == |b| == |c| == |d| == 4 && i < 4
    ensures Column(Join(a, b, c, d), i) == if i == 0 then a else if i == 1 then b else if i == 2 then c else d
  {
  }

  lemma JoinOfColumns(s: State)
    ensures Join(Column(s, 0), Column(s, 1), Column(s, 2), Column(s, 3)) == s
  {
  }

  lemma AddRoundKeyTwice(s: State, schedule: seq<Word>, round: nat)
    requires |schedule| == 44 && round <= 10
    ensures AddRoundKey(AddRoundKey(s, schedule, round), schedule, round) == s
  {
    hide RoundKey;
    var key := RoundKey(schedule, round);
    forall k | 0 <= k < 16
      ensures (s[k] ^ key[k]) ^ key[k] == s[k]
    {
    }
  }

  /** What the inverse cipher holds after undoing `steps` rounds of `block`'s encipherment. */
  function Meeting(block: State, schedule: seq<Word>, steps: nat): State
    requires |schedule| == 44 && steps <= 10
  {
    if steps == 10 then block else ShiftRows(SubBytes(EncryptRounds(block, schedule, 9 - steps)))
  }

  /** Coming back, the inverse cipher meets at every round the state the cipher had right after
      shifting rows. */
  lemma {:induction false} RoundsMeet(block: State, schedule: seq<Word>, steps: nat)
    requires |schedule| == 44 && steps <= 10
    ensures DecryptRounds(Encrypt(schedule, block), schedule, steps) == Meeting(block, schedule, steps)
    decreases steps
  {
    hide ShiftRows, SubBytes, MixColumns, AddRoundKey, InvShiftRows, InvSubBytes, InvMixColumns;
    if steps == 0 {
      AddRoundKeyTwice(Meeting(block, schedule, 0), schedule, 10);
    } else {
      RoundsMeet(block, schedule, steps - 1);
      var now := EncryptRounds(block, schedule, 10 - steps);
      ShiftRowsInverse(SubBytes(now));
      SubBytesInverse(now);
      if steps == 10 {
        AddRoundKeyTwice(block, schedule, 0);
      } else {
        var shifted := Meeting(block, schedule, steps);
        AddRoundKeyTwice(MixColumns(shifted), schedule, 10 - steps);
        MixColumnsInverse(shifted);
      }
    }
  }

  /** Deciphering undoes enciphering, for every block and every schedule. */
  lemma DecryptInvertsEncrypt(schedule: seq<Word>, block: State)
    requires |schedule| == 44
    ensures Decrypt(schedule, Encrypt(schedule, block)) == block
  {
    RoundsMeet(block, schedule, RoundCount(schedule));
  }

  /* ---- key expansion (section 5.2) ---- */

  function RotWord(w: Word): Word { (w << 8) | (w >> 24) }

  function SubWord(w: Word): Word {
    Pack4(SBox(WordByte(w, 0)), SBox(WordByte(w, 1)), SBox(WordByte(w, 2)), SBox(WordByte(w, 3)))
  }

  /** The round constant x^n. */
  function Rcon(n: nat): Byte {
    if n == 0 then 1 else Mul(Rcon(n - 1), 2)
  }

  function KeyWord(key: seq<Byte>, i: nat): Word
    requires |key| == 16
  {
    if i < 4 then Pack4(key[4 * i], key[4 * i + 1], key[4 * i + 2], key[4 * i + 3])
    else
      var previous := KeyWord(key, i - 1);
      KeyWord(key, i - 4)
      ^ (if i % 4 == 0 then SubWord(RotWord(previous)) ^ ((Rcon(i / 4 - 1) as Word) << 24) else previous)
  }

  function ExpandedKey(key: seq<Byte>): (schedule: seq<Word>)
    requires |key| == 16
    ensures |schedule| == 44
  {
    seq(44, i requires 0 <= i < 44 => KeyWord(key, i))
  }

  /* ---- the code ---- */

  lemma KeyWordStep(key: seq<Byte>, i: nat)
    requires |key| == 16 && i >= 4
    ensures KeyWord(key, i) == KeyWord(key, i - 4) ^
              if i % 4 == 0 then SubWord(RotWord(KeyWord(key, i - 1))) ^ ((Rcon(i / 4 - 1) as Word) << 24)
              else KeyWord(key, i - 1)
    ensures Rcon(i / 4) == Mul(Rcon(i / 4 - 1), 2)
  {
    hide Pack4, SubWord, RotWord, Mul;
  }

  method SetKey(key: seq<Byte>) returns (schedule: seq<Word>)
    requires |key| == 16
    ensures schedule == ExpandedKey(key)
  {
    hide Pack4, SubWord, RotWord, Mul, Rcon;
    var roundKey := new Word[44];
    for i := 0 to 4
      invariant forall j :: 0 <= j < i ==> roundKey[j] == KeyWord(key, j)
    {
      roundKey[i] := Pack4(key[4 * i], key[4 * i + 1], key[4 * i + 2], key[4 * i + 3]);
    }
    FirstRcon();
    ExpandWords(key, roundKey);
    schedule := roundKey[..];
  }

  lemma FirstRcon()
    ensures Rcon(0) == 1
  {
  }

  method ExpandWords(ghost key: seq<Byte>, roundKey: array<Word>)
    requires |key| == 16 && roundKey.Length == 44 && forall j :: 0 <= j < 4 ==> roundKey[j] == KeyWord(key, j)
    requires Rcon(0) == 1
    modifies roundKey
    ensures forall j :: 0 <= j < 44 ==> roundKey[j] == KeyWord(key, j)
  {
    hide SubWord, RotWord, Mul, Rcon, KeyWord;
    var rcon: Byte := 1;
    for i := 4 to 44
      invariant forall j :: 0 <= j < i ==> roundKey[j] == KeyWord(key, j)
      invariant rcon == Rcon((i - 1) / 4)
    {
      KeyWordStep(key, i);
      var word := roundKey[i - 1];
      if i % 4 == 0 {
        // The first word of a round key mixes in the round constant of its number.
        word := SubWord(RotWord(word)) ^ ((rcon as Word) << 24);
        rcon := ComputeMul(rcon, 2);
      }
      roundKey[i] := roundKey[i - 4] ^ word;
    }
  }

  method AddKey(state: array<Byte>, schedule: seq<Word>, round: nat)
    requires state.Length == 16 && |schedule| == 44 && round <= 10
    modifies state
    ensures state[..] == AddRoundKey(old(state[..]), schedule, round)
  {
    hide WordByte;
    ghost var s, key := state[..], RoundKey(schedule, round);
    for column := 0 to 4
      invariant forall k :: 0 <= k < 16 ==> state[k] == if k < 4 * column then s[k] ^ key[k] else s[k]
    {
      for row := 0 to 4
        invariant forall k :: 0 <= k < 16 ==> state[k] == if k < 4 * column + row then s[k] ^ key[k] else s[k]
      {
        assert key[4 * column + row] == WordByte(schedule[4 * round + column], row);
        state[4 * column + row] := state[4 * column + row] ^ WordByte(schedule[4 * round + column], row);
      }
    }
  }

  method Substitute(state: array<Byte>, inverse: bool)
    requires state.Length == 16
    modifies state
    ensures state[..] == if inverse then InvSubBytes(old(state[..])) else SubBytes(old(state[..]))
  {
    hide SBox, InvSBox;
    for i := 0 to 16
      invariant forall k :: i <= k < 16 ==> state[k] == old(state[k])
      invariant forall k :: 0 <= k < i ==> state[k] == if inverse then InvSBox(old(state[k])) else SBox(old(state[k]))
    {
      state[i] := if inverse then InvSBox(state[i]) else SBox(state[i]);
    }
  }

  lemma ShiftIndex(s: State, c: nat, r: nat)
    requires c < 4 && r < 4
    ensures ShiftRows(s)[4 * c + r] == s[4 * ((c + r) % 4) + r]
    ensures InvShiftRows(s)[4 * ((c + r) % 4) + r] == s[4 * c + r]
  {
    hide ShiftRows, InvShiftRows;
    ShiftColumn(s, c);
    assert r == 0 || r == 1 || r == 2 || r == 3;
  }

  lemma ShiftColumn(s: State, c: nat)
    requires c < 4
    ensures var t := ShiftRows(s);
            && t[4 * c] == s[4 * c] && t[4 * c + 1] == s[4 * ((c + 1) % 4) + 1]
            && t[4 * c + 2] == s[4 * ((c + 2) % 4) + 2] && t[4 * c + 3] == s[4 * ((c + 3) % 4) + 3]
    ensures var t := InvShiftRows(s);
            && t[4 * c] == s[4 * c] && t[4 * ((c + 1) % 4) + 1] == s[4 * c + 1]
            && t[4 * ((c + 2) % 4) + 2] == s[4 * c + 2] && t[4 * ((c + 3) % 4) + 3] == s[4 * c + 3]
  {
    if c == 0 {
    } else if c == 1 {
    } else if c == 2 {
    } else {
      assert c == 3;
    }
  }

  /** Column by column, each byte fetched from as many columns further on as its row says. */
  method Shift(state: array<Byte>)
    requires state.Length == 16
    modifies state
    ensures state[..] == ShiftRows(old(state[..]))
  {
    hide ShiftRows, Splice;
    var shifted := new Byte[16];
    ghost var s := state[..];
    for column := 0 to 4
      invariant state[..] == s
      invariant forall k :: 0 <= k < 4 * column ==> shifted[k] == ShiftRows(s)[k]
    {
      for i := 0 to 4
        invariant state[..] == s
        invariant forall k :: 0 <= k < 4 * column + i ==> shifted[k] == ShiftRows(s)[k]
      {
        ShiftIndex(s, column, i);
        shifted[4 * column + i] := state[4 * ((column + i) % 4) + i];
      }
    }
    assert shifted[..] == ShiftRows(s);
    Write(state, 0, shifted[..]);
  }

  /** The column that position `p` was rotated away from. */
  ghost function CameFrom(p: nat): nat { (p / 4 + 4 - p % 4) % 4 }

  lemma OnlyTarget(column: nat, row: nat)
    requires column < 4 && row < 4
    ensures forall p :: 0 <= p < 16 ==> (CameFrom(p) == column && p % 4 == row <==> p == 4 * ((column + row) % 4) + row)
    ensures forall p :: 0 <= p < 16 ==> 0 <= CameFrom(p) < 4
  {
    hide CameFrom;
    forall p | 0 <= p < 16
      ensures CameFrom(p) == column && p % 4 == row <==> p == 4 * ((column + row) % 4) + row
      ensures 0 <= CameFrom(p) < 4
    {
      Target(column, row, p);
    }
  }

  lemma Target(column: nat, row: nat, p: nat)
    requires column < 4 && row < 4 && p < 16
    ensures CameFrom(p) == column && p % 4 == row <==> p == 4 * ((column + row) % 4) + row
    ensures 0 <= CameFrom(p) < 4
  {
    var c := p / 4;
    assert p == 4 * c + p % 4;
  }

  /** And back again. */
  method Unshift(state: array<Byte>)
    requires state.Length == 16
    modifies state
    ensures state[..] == InvShiftRows(old(state[..]))
  {
    hide InvShiftRows, Splice, CameFrom;
    var shifted := new Byte[16];
    ghost var s := state[..];
    OnlyTarget(0, 0);
    for column := 0 to 4
      invariant state[..] == s
      invariant forall p :: 0 <= p < 16 && CameFrom(p) < column ==> shifted[p] == InvShiftRows(s)[p]
    {
      for i := 0 to 4
        invariant state[..] == s
        invariant forall p :: 0 <= p < 16 && (CameFrom(p) < column || (CameFrom(p) == column && p % 4 < i))
                              ==> shifted[p] == InvShiftRows(s)[p]
      {
        ShiftIndex(s, column, i);
        OnlyTarget(column, i);
        shifted[4 * ((column + i) % 4) + i] := state[4 * column + i];
      }
    }
    assert shifted[..] == InvShiftRows(s);
    Write(state, 0, shifted[..]);
  }

  method MixInPlace(state: array<Byte>)
    requires state.Length == 16
    modifies state
    ensures state[..] == MixColumns(old(state[..]))
  {
    hide Mul, Sum4, Add, Splice, MixColumn, Column, Join;
    ghost var s := state[..];
    for column := 0 to 4
      invariant forall c :: 0 <= c < column ==> Column(state[..], c) == MixColumn(Column(s, c))
      invariant forall c :: column <= c < 4 ==> Column(state[..], c) == Column(s, c)
    {
      MixOne(state, column);
    }
    JoinOfColumns(state[..]);
  }

  method MixOne(state: array<Byte>, column: nat)
    requires state.Length == 16 && column < 4
    modifies state
    ensures Column(state[..], column) == MixColumn(old(Column(state[..], column)))
    ensures forall c :: 0 <= c < 4 && c != column ==> Column(state[..], c) == old(Column(state[..], c))
  {
    hide Mul, Sum4;
    var a0, a1, a2, a3 := state[4 * column], state[4 * column + 1], state[4 * column + 2], state[4 * column + 3];
    state[4 * column] := Mix(a0, a1, a2, a3);
    state[4 * column + 1] := Mix(a1, a2, a3, a0);
    state[4 * column + 2] := Mix(a2, a3, a0, a1);
    state[4 * column + 3] := Mix(a3, a0, a1, a2);
  }

  method UnmixInPlace(state: array<Byte>)
    requires state.Length == 16
    modifies state
    ensures state[..] == InvMixColumns(old(state[..]))
  {
    hide Mul, Sum4, Add, Splice, InvMixColumn, Column, Join;
    ghost var s := state[..];
    for column := 0 to 4
      invariant forall c :: 0 <= c < column ==> Column(state[..], c) == InvMixColumn(Column(s, c))
      invariant forall c :: column <= c < 4 ==> Column(state[..], c) == Column(s, c)
    {
      UnmixOne(state, column);
    }
    JoinOfColumns(state[..]);
  }

  method UnmixOne(state: array<Byte>, column: nat)
    requires state.Length == 16 && column < 4
    modifies state
    ensures Column(state[..], column) == InvMixColumn(old(Column(state[..], column)))
    ensures forall c :: 0 <= c < 4 && c != column ==> Column(state[..], c) == old(Column(state[..], c))
  {
    hide Mul, Sum4;
    var a0, a1, a2, a3 := state[4 * column], state[4 * column + 1], state[4 * column + 2], state[4 * column + 3];
    state[4 * column] := InvMix(a0, a1, a2, a3);
    state[4 * column + 1] := InvMix(a1, a2, a3, a0);
    state[4 * column + 2] := InvMix(a2, a3, a0, a1);
    state[4 * column + 3] := InvMix(a3, a0, a1, a2);
  }

  /** Enciphers one block. `out` may be where `input` came from. */
  method EncryptBlock(schedule: seq<Word>, input: seq<Byte>, out: array<Byte>, at: nat)
    requires |schedule| == 44 && |input| == 16 && at + 16 <= out.Length
    modifies out
    ensures out[..] == Splice(old(out[..]), at, Encrypt(schedule, input))
  {
    hide ShiftRows, SubBytes, MixColumns, AddRoundKey, Splice;
    var state := new Byte[16];
    Write(state, 0, input);
    AddKey(state, schedule, 0);
    for round := 1 to 11
      invariant state[..] == EncryptRounds(input, schedule, round - 1)
      invariant out[..] == old(out[..])
    {
      Substitute(state, false);
      Shift(state);
      if round != 10 {
        MixInPlace(state);
      }
      AddKey(state, schedule, round);
    }
    Write(out, at, state[..]);
  }

  method DecryptBlock(schedule: seq<Word>, input: seq<Byte>, out: array<Byte>, at: nat)
    requires |schedule| == 44 && |input| == 16 && at + 16 <= out.Length
    modifies out
    ensures out[..] == Splice(old(out[..]), at, Decrypt(schedule, input))
  {
    hide InvShiftRows, InvSubBytes, InvMixColumns, AddRoundKey, Splice;
    var state := new Byte[16];
    Write(state, 0, input);
    AddKey(state, schedule, 10);
    for round := 10 downto 0
      invariant state[..] == DecryptRounds(input, schedule, 10 - round)
      invariant out[..] == old(out[..])
    {
      Unshift(state);
      Substitute(state, true);
      AddKey(state, schedule, round);
      if round != 0 {
        UnmixInPlace(state);
      }
    }
    Write(out, at, state[..]);
  }
}
