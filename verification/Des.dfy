/** DES on bit strings, after FIPS 46-3, and what makes it a cipher: running the rounds with the
    subkeys reversed undoes them, whatever the round function does. */
module Des {
  import opened Bytes
  import opened DesTables

  /** The bits of `bits` that a table names, in its order. */
  function Select(bits: seq<bool>, t: Table): (out: seq<bool>)
    requires |bits| == t.Source()
    ensures |out| == t.Size()
    ensures forall i :: 0 <= i < |out| ==> out[i] == bits[t.At(i) - 1]
  {
    seq(t.Size(), i requires 0 <= i < t.Size() => bits[t.At(i) - 1])
  }

  function BitValue(b: bool): nat { if b then 1 else 0 }

  function SBoxRow(x: seq<bool>, box: nat): (row: nat)
    requires |x| == 48 && box < 8
    ensures row < 4
  {
    2 * BitValue(x[6 * box]) + BitValue(x[6 * box + 5])
  }

  function SBoxColumn(x: seq<bool>, box: nat): (column: nat)
    requires |x| == 48 && box < 8
    ensures column < 16
  {
    8 * BitValue(x[6 * box + 1]) + 4 * BitValue(x[6 * box + 2]) + 2 * BitValue(x[6 * box + 3]) +
        BitValue(x[6 * box + 4])
  }

  /** Bit `k` of a four-bit value, most significant first. */
  predicate NibbleBit(value: nat, k: nat)
    requires k < 4
  {
    (if k == 0 then value / 8 else if k == 1 then value / 4 else if k == 2 then value / 2 else value) % 2 == 1
  }

  function Substitute(x: seq<bool>): (y: seq<bool>)
    requires |x| == 48
    ensures |y| == 32
    ensures forall j :: 0 <= j < 32 ==> y[j] == NibbleBit(SBox(j / 4, SBoxRow(x, j / 4), SBoxColumn(x, j / 4)), j % 4)
  {
    seq(32, j requires 0 <= j < 32 => NibbleBit(SBox(j / 4, SBoxRow(x, j / 4), SBoxColumn(x, j / 4)), j % 4))
  }

  /** The cipher function f(R, K). */
  function F(right: seq<bool>, subkey: seq<bool>): (out: seq<bool>)
    requires |right| == 32 && |subkey| == 48
    ensures |out| == 32
  {
    Select(Substitute(XorBits(Select(right, E), subkey)), P)
  }

  ghost predicate AreSubkeys(keys: seq<seq<bool>>) {
    forall i :: 0 <= i < |keys| ==> |keys[i]| == 48
  }

  datatype Halves = Halves(left: seq<bool>, right: seq<bool>) {
    ghost predicate Valid() { |left| == 32 && |right| == 32 }

    function Swap(): Halves { Halves(right, left) }
  }

  /** One Feistel round per subkey, in order. */
  function Rounds(h: Halves, keys: seq<seq<bool>>): (r: Halves)
    requires h.Valid() && AreSubkeys(keys)
    ensures r.Valid()
    decreases |keys|
  {
    if keys == [] then h
    else Rounds(Halves(h.right, XorBits(h.left, F(h.right, keys[0]))), keys[1..])
  }

  /** A whole block: initial permutation, the rounds, the last swap and the final permutation. */
  function Cipher(block: seq<bool>, keys: seq<seq<bool>>): (out: seq<bool>)
    requires |block| == 64 && AreSubkeys(keys)
    ensures |out| == 64
  {
    var permuted := Select(block, IP);
    var h := Rounds(Halves(permuted[..32], permuted[32..]), keys);
    Select(h.right + h.left, FP)
  }

  function Reversed(keys: seq<seq<bool>>): (r: seq<seq<bool>>)
    ensures |r| == |keys|
    ensures forall i :: 0 <= i < |keys| ==> r[i] == keys[|keys| - 1 - i]
  {
    if keys == [] then [] else Reversed(keys[1..]) + [keys[0]]
  }

  lemma XorCancels(x: seq<bool>, y: seq<bool>)
    requires |x| == |y|
    ensures XorBits(XorBits(x, y), y) == x
  {
  }

  lemma {:induction false} RoundsOfConcat(h: Halves, a: seq<seq<bool>>, b: seq<seq<bool>>)
    requires h.Valid() && AreSubkeys(a) && AreSubkeys(b)
    ensures AreSubkeys(a + b)
    ensures Rounds(h, a + b) == Rounds(Rounds(h, a), b)
    decreases |a|
  {
    if a == [] {
      assert a + b == b;
    } else {
      assert (a + b)[1..] == a[1..] + b;
      RoundsOfConcat(Halves(h.right, XorBits(h.left, F(h.right, a[0]))), a[1..], b);
    }
  }

  /** The Feistel network: the rounds with reversed subkeys lead from the swapped result back to
      the swapped start. Nothing about the S-boxes is needed. */
  lemma {:induction false} RoundsInverse(h: Halves, keys: seq<seq<bool>>)
    requires h.Valid() && AreSubkeys(keys)
    ensures AreSubkeys(Reversed(keys))
    ensures Rounds(Rounds(h, keys).Swap(), Reversed(keys)) == h.Swap()
    decreases |keys|
  {
    if keys != [] {
      var next := Halves(h.right, XorBits(h.left, F(h.right, keys[0])));
      var back := Reversed(keys[1..]);
      RoundsInverse(next, keys[1..]);
      RoundsOfConcat(Rounds(h, keys).Swap(), back, [keys[0]]);
      assert Rounds(next.Swap(), [keys[0]]) == Rounds(Halves(h.right, h.left), []) by {
        XorCancels(h.left, F(h.right, keys[0]));
        assert [keys[0]][1..] == [];
      }
    }
  }

  /** Where one table undoes another, selecting by the two gives back the bit. */
  lemma SelectCancels(x: seq<bool>, t: Table, u: Table, i: nat)
    requires |x| == t.Source() == t.Size() == u.Source() == u.Size()
    requires i < |x| && t.At(u.At(i) - 1) == i + 1
    ensures Select(Select(x, t), u)[i] == x[i]
  {
    hide Table.At, Select;
    var k := u.At(i) - 1;
    assert Select(x, t)[k] == x[t.At(k) - 1];
  }

  lemma PermutationsCancel(x: seq<bool>)
    requires |x| == 64
    ensures Select(Select(x, FP), IP) == x && Select(Select(x, IP), FP) == x
  {
    hide Table.At, Select;
    forall i | 0 <= i < 64
      ensures Select(Select(x, FP), IP)[i] == x[i] && Select(Select(x, IP), FP)[i] == x[i]
    {
      InverseTables(i);
      SelectCancels(x, FP, IP, i);
      SelectCancels(x, IP, FP, i);
    }
  }

  /** Deciphering is enciphering with the subkeys in reverse order (FIPS 46-3). */
  lemma CipherInverse(block: seq<bool>, keys: seq<seq<bool>>)
    requires |block| == 64 && AreSubkeys(keys)
    ensures AreSubkeys(Reversed(keys))
    ensures Cipher(Cipher(block, keys), Reversed(keys)) == block
  {
    var permuted := Select(block, IP);
    var start := Halves(permuted[..32], permuted[32..]);
    var h := Rounds(start, keys);
    PermutationsCancel(h.right + h.left);
    assert (h.right + h.left)[..32] == h.right && (h.right + h.left)[32..] == h.left;
    RoundsInverse(start, keys);
    assert start.left + start.right == permuted;
    PermutationsCancel(block);
  }

  lemma ReversedTwice(keys: seq<seq<bool>>)
    ensures Reversed(Reversed(keys)) == keys
  {
  }

  /* ---- key schedule ---- */

  function RotateLeft(half: seq<bool>, count: nat): (r: seq<bool>)
    requires count <= |half|
    ensures |r| == |half|
  {
    half[count..] + half[..count]
  }

  /** Left shifts accumulated before round `round`, itself included. */
  function ShiftsThrough(round: nat): (s: nat)
    requires round < 16
    ensures round < s <= 2 * round + 2 && s <= 28
  {
    if round == 0 then 1
    else if round < 8 then 2 * round
    else if round < 15 then 2 * round - 1
    else 28
  }

  function Subkey(key: seq<bool>, round: nat): (k: seq<bool>)
    requires |key| == 64 && round < 16
    ensures |k| == 48
  {
    var chosen := Select(key, PC1);
    Select(RotateLeft(chosen[..28], ShiftsThrough(round)) + RotateLeft(chosen[28..], ShiftsThrough(round)), PC2)
  }

  function Subkeys(key: seq<bool>): (keys: seq<seq<bool>>)
    requires |key| == 64
    ensures |keys| == 16 && AreSubkeys(keys)
    ensures forall i :: 0 <= i < 16 ==> keys[i] == Subkey(key, i)
  {
    seq(16, i requires 0 <= i < 16 => Subkey(key, i))
  }

  /** The accumulated shifts are the running total of the table the standard prints. */
  lemma ShiftsAccumulate(round: nat)
    requires round < 16
    ensures ShiftsThrough(round) == Shift(round) + if round == 0 then 0 else ShiftsThrough(round - 1)
  {
  }

  lemma RotateTwice(half: seq<bool>, a: nat, b: nat)
    requires a + b <= |half|
    ensures RotateLeft(RotateLeft(half, a), b) == RotateLeft(half, a + b)
  {
  }

  /* ---- complementation: E, P, PC1, PC2 and the exclusive or commute with negation ---- */

  function Not(x: seq<bool>): (y: seq<bool>)
    ensures |y| == |x|
    ensures forall i :: 0 <= i < |x| ==> y[i] == !x[i]
  {
    seq(|x|, i requires 0 <= i < |x| => !x[i])
  }

  lemma SelectOfNot(x: seq<bool>, t: Table)
    requires |x| == t.Source()
    ensures Select(Not(x), t) == Not(Select(x, t))
  {
  }

  lemma SubkeyOfNot(key: seq<bool>, round: nat)
    requires |key| == 64 && round < 16
    ensures Subkey(Not(key), round) == Not(Subkey(key, round))
  {
    SelectOfNot(key, PC1);
    var chosen := Select(key, PC1);
    var n := ShiftsThrough(round);
    assert RotateLeft(Not(chosen)[..28], n) + RotateLeft(Not(chosen)[28..], n)
        == Not(RotateLeft(chosen[..28], n) + RotateLeft(chosen[28..], n));
    SelectOfNot(RotateLeft(chosen[..28], n) + RotateLeft(chosen[28..], n), PC2);
  }

  lemma FOfNot(right: seq<bool>, subkey: seq<bool>)
    requires |right| == 32 && |subkey| == 48
    ensures F(Not(right), Not(subkey)) == F(right, subkey)
  {
    SelectOfNot(right, E);
    assert XorBits(Not(Select(right, E)), Not(subkey)) == XorBits(Select(right, E), subkey);
  }

  function NotEach(keys: seq<seq<bool>>): (r: seq<seq<bool>>)
    ensures |r| == |keys|
    ensures forall i :: 0 <= i < |keys| ==> r[i] == Not(keys[i])
  {
    seq(|keys|, i requires 0 <= i < |keys| => Not(keys[i]))
  }

  lemma {:induction false} RoundsOfNot(h: Halves, keys: seq<seq<bool>>)
    requires h.Valid() && AreSubkeys(keys)
    ensures Rounds(Halves(Not(h.left), Not(h.right)), NotEach(keys))
         == Halves(Not(Rounds(h, keys).left), Not(Rounds(h, keys).right))
    decreases |keys|
  {
    if keys != [] {
      var f := F(h.right, keys[0]);
      FOfNot(h.right, keys[0]);
      assert XorBits(Not(h.left), f) == Not(XorBits(h.left, f));
      assert NotEach(keys)[1..] == NotEach(keys[1..]);
      RoundsOfNot(Halves(h.right, XorBits(h.left, f)), keys[1..]);
    }
  }

  /** The complementation property of DES: complementing key and block complements the result.
      It ties the key schedule, the expansion and the round permutation together. */
  lemma Complementation(key: seq<bool>, block: seq<bool>)
    requires |key| == 64 && |block| == 64
    ensures Cipher(Not(block), Subkeys(Not(key))) == Not(Cipher(block, Subkeys(key)))
  {
    forall i | 0 <= i < 16
      ensures Subkeys(Not(key))[i] == NotEach(Subkeys(key))[i]
    {
      SubkeyOfNot(key, i);
    }
    assert Subkeys(Not(key)) == NotEach(Subkeys(key));
    SelectOfNot(block, IP);
    var permuted := Select(block, IP);
    var start := Halves(permuted[..32], permuted[32..]);
    assert Not(permuted)[..32] == Not(start.left) && Not(permuted)[32..] == Not(start.right);
    RoundsOfNot(start, Subkeys(key));
    var h := Rounds(start, Subkeys(key));
    assert Not(h.right) + Not(h.left) == Not(h.right + h.left);
    SelectOfNot(h.right + h.left, FP);
  }
}
