/** The constant tables of DES, as FIPS 46-3 prints them: 1-based bit positions. */
module DesTables {
  /** Entry `k` of a printed row; entries past the end read the last column. */
  function Row8(k: int, v0: nat, v1: nat, v2: nat, v3: nat, v4: nat, v5: nat, v6: nat, v7: nat): nat {
    if k < 4 then (if k < 2 then (if k < 1 then v0 else v1) else (if k < 3 then v2 else v3))
    else (if k < 6 then (if k < 5 then v4 else v5) else (if k < 7 then v6 else v7))
  }

  function InitialPermutation(i: nat): (position: nat)
    ensures 1 <= position <= 64
  {
    if i < 8 then Row8(i, 58, 50, 42, 34, 26, 18, 10, 2)
    else if i < 16 then Row8(i - 8, 60, 52, 44, 36, 28, 20, 12, 4)
    else if i < 24 then Row8(i - 16, 62, 54, 46, 38, 30, 22, 14, 6)
    else if i < 32 then Row8(i - 24, 64, 56, 48, 40, 32, 24, 16, 8)
    else if i < 40 then Row8(i - 32, 57, 49, 41, 33, 25, 17, 9, 1)
    else if i < 48 then Row8(i - 40, 59, 51, 43, 35, 27, 19, 11, 3)
    else if i < 56 then Row8(i - 48, 61, 53, 45, 37, 29, 21, 13, 5)
    else Row8(i - 56, 63, 55, 47, 39, 31, 23, 15, 7)
  }

  function FinalPermutation(i: nat): (position: nat)
    ensures 1 <= position <= 64
  {
    if i < 8 then Row8(i, 40, 8, 48, 16, 56, 24, 64, 32)
    else if i < 16 then Row8(i - 8, 39, 7, 47, 15, 55, 23, 63, 31)
    else if i < 24 then Row8(i - 16, 38, 6, 46, 14, 54, 22, 62, 30)
    else if i < 32 then Row8(i - 24, 37, 5, 45, 13, 53, 21, 61, 29)
    else if i < 40 then Row8(i - 32, 36, 4, 44, 12, 52, 20, 60, 28)
    else if i < 48 then Row8(i - 40, 35, 3, 43, 11, 51, 19, 59, 27)
    else if i < 56 then Row8(i - 48, 34, 2, 42, 10, 50, 18, 58, 26)
    else Row8(i - 56, 33, 1, 41, 9, 49, 17, 57, 25)
  }

  function Expansion(i: nat): (position: nat)
    ensures 1 <= position <= 32
  {
    if i < 8 then Row8(i, 32, 1, 2, 3, 4, 5, 4, 5)
    else if i < 16 then Row8(i - 8, 6, 7, 8, 9, 8, 9, 10, 11)
    else if i < 24 then Row8(i - 16, 12, 13, 12, 13, 14, 15, 16, 17)
    else if i < 32 then Row8(i - 24, 16, 17, 18, 19, 20, 21, 20, 21)
    else if i < 40 then Row8(i - 32, 22, 23, 24, 25, 24, 25, 26, 27)
    else Row8(i - 40, 28, 29, 28, 29, 30, 31, 32, 1)
  }

  function RoundPermutation(i: nat): (position: nat)
    ensures 1 <= position <= 32
  {
    if i < 8 then Row8(i, 16, 7, 20, 21, 29, 12, 28, 17)
    else if i < 16 then Row8(i - 8, 1, 15, 23, 26, 5, 18, 31, 10)
    else if i < 24 then Row8(i - 16, 2, 8, 24, 14, 32, 27, 3, 9)
    else Row8(i - 24, 19, 13, 30, 6, 22, 11, 4, 25)
  }

  function KeyChoice1(i: nat): (position: nat)
    ensures 1 <= position <= 64
  {
    if i < 8 then Row8(i, 57, 49, 41, 33, 25, 17, 9, 1)
    else if i < 16 then Row8(i - 8, 58, 50, 42, 34, 26, 18, 10, 2)
    else if i < 24 then Row8(i - 16, 59, 51, 43, 35, 27, 19, 11, 3)
    else if i < 32 then Row8(i - 24, 60, 52, 44, 36, 63, 55, 47, 39)
    else if i < 40 then Row8(i - 32, 31, 23, 15, 7, 62, 54, 46, 38)
    else if i < 48 then Row8(i - 40, 30, 22, 14, 6, 61, 53, 45, 37)
    else Row8(i - 48, 29, 21, 13, 5, 28, 20, 12, 4)
  }

  function KeyChoice2(i: nat): (position: nat)
    ensures 1 <= position <= 56
  {
    if i < 8 then Row8(i, 14, 17, 11, 24, 1, 5, 3, 28)
    else if i < 16 then Row8(i - 8, 15, 6, 21, 10, 23, 19, 12, 4)
    else if i < 24 then Row8(i - 16, 26, 8, 16, 7, 27, 20, 13, 2)
    else if i < 32 then Row8(i - 24, 41, 52, 31, 37, 47, 55, 30, 40)
    else if i < 40 then Row8(i - 32, 51, 45, 33, 48, 44, 49, 39, 56)
    else Row8(i - 40, 34, 53, 46, 42, 50, 36, 29, 32)
  }

  datatype Table = IP | FP | E | P | PC1 | PC2 {
    /** How many bits the permutation produces. */
    function Size(): nat {
      match this case IP => 64 case FP => 64 case E => 48 case P => 32 case PC1 => 56 case PC2 => 48
    }

    /** How many bits it reads from. */
    function Source(): nat {
      match this case IP => 64 case FP => 64 case E => 32 case P => 32 case PC1 => 64 case PC2 => 56
    }

    function At(i: nat): (position: nat)
      requires i < Size()
      ensures 1 <= position <= Source()
    {
      match this
      case IP => InitialPermutation(i)
      case FP => FinalPermutation(i)
      case E => Expansion(i)
      case P => RoundPermutation(i)
      case PC1 => KeyChoice1(i)
      case PC2 => KeyChoice2(i)
    }
  }

  /** How far both key halves rotate before round `round`. */
  function Shift(round: nat): (s: nat)
    requires round < 16
  {
    if round == 0 || round == 1 || round == 8 || round == 15 then 1 else 2
  }

  function Row16(k: nat, v0: nat, v1: nat, v2: nat, v3: nat, v4: nat, v5: nat, v6: nat, v7: nat,
                 v8: nat, v9: nat, v10: nat, v11: nat, v12: nat, v13: nat, v14: nat, v15: nat): nat
  {
    if k < 8 then Row8(k, v0, v1, v2, v3, v4, v5, v6, v7) else Row8(k - 8, v8, v9, v10, v11, v12, v13, v14, v15)
  }

  function SBox1(row: nat, column: nat): (value: nat)
    ensures value < 16
  {
    if row == 0 then Row16(column, 14, 4, 13, 1, 2, 15, 11, 8, 3, 10, 6, 12, 5, 9, 0, 7)
    else if row == 1 then Row16(column, 0, 15, 7, 4, 14, 2, 13, 1, 10, 6, 12, 11, 9, 5, 3, 8)
    else if row == 2 then Row16(column, 4, 1, 14, 8, 13, 6, 2, 11, 15, 12, 9, 7, 3, 10, 5, 0)
    else Row16(column, 15, 12, 8, 2, 4, 9, 1, 7, 5, 11, 3, 14, 10, 0, 6, 13)
  }

  function SBox2(row: nat, column: nat): (value: nat)
    ensures value < 16
  {
    if row == 0 then Row16(column, 15, 1, 8, 14, 6, 11, 3, 4, 9, 7, 2, 13, 12, 0, 5, 10)
    else if row == 1 then Row16(column, 3, 13, 4, 7, 15, 2, 8, 14, 12, 0, 1, 10, 6, 9, 11, 5)
    else if row == 2 then Row16(column, 0, 14, 7, 11, 10, 4, 13, 1, 5, 8, 12, 6, 9, 3, 2, 15)
    else Row16(column, 13, 8, 10, 1, 3, 15, 4, 2, 11, 6, 7, 12, 0, 5, 14, 9)
  }

  function SBox3(row: nat, column: nat): (value: nat)
    ensures value < 16
  {
    if row == 0 then Row16(column, 10, 0, 9, 14, 6, 3, 15, 5, 1, 13, 12, 7, 11, 4, 2, 8)
    else if row == 1 then Row16(column, 13, 7, 0, 9, 3, 4, 6, 10, 2, 8, 5, 14, 12, 11, 15, 1)
    else if row == 2 then Row16(column, 13, 6, 4, 9, 8, 15, 3, 0, 11, 1, 2, 12, 5, 10, 14, 7)
    else Row16(column, 1, 10, 13, 0, 6, 9, 8, 7, 4, 15, 14, 3, 11, 5, 2, 12)
  }

  function SBox4(row: nat, column: nat): (value: nat)
    ensures value < 16
  {
    if row == 0 then Row16(column, 7, 13, 14, 3, 0, 6, 9, 10, 1, 2, 8, 5, 11, 12, 4, 15)
    else if row == 1 then Row16(column, 13, 8, 11, 5, 6, 15, 0, 3, 4, 7, 2, 12, 1, 10, 14, 9)
    else if row == 2 then Row16(column, 10, 6, 9, 0, 12, 11, 7, 13, 15, 1, 3, 14, 5, 2, 8, 4)
    else Row16(column, 3, 15, 0, 6, 10, 1, 13, 8, 9, 4, 5, 11, 12, 7, 2, 14)
  }

  function SBox5(row: nat, column: nat): (value: nat)
    ensures value < 16
  {
    if row == 0 then Row16(column, 2, 12, 4, 1, 7, 10, 11, 6, 8, 5, 3, 15, 13, 0, 14, 9)
    else if row == 1 then Row16(column, 14, 11, 2, 12, 4, 7, 13, 1, 5, 0, 15, 10, 3, 9, 8, 6)
    else if row == 2 then Row16(column, 4, 2, 1, 11, 10, 13, 7, 8, 15, 9, 12, 5, 6, 3, 0, 14)
    else Row16(column, 11, 8, 12, 7, 1, 14, 2, 13, 6, 15, 0, 9, 10, 4, 5, 3)
  }

  function SBox6(row: nat, column: nat): (value: nat)
    ensures value < 16
  {
    if row == 0 then Row16(column, 12, 1, 10, 15, 9, 2, 6, 8, 0, 13, 3, 4, 14, 7, 5, 11)
    else if row == 1 then Row16(column, 10, 15, 4, 2, 7, 12, 9, 5, 6, 1, 13, 14, 0, 11, 3, 8)
    else if row == 2 then Row16(column, 9, 14, 15, 5, 2, 8, 12, 3, 7, 0, 4, 10, 1, 13, 11, 6)
    else Row16(column, 4, 3, 2, 12, 9, 5, 15, 10, 11, 14, 1, 7, 6, 0, 8, 13)
  }

  function SBox7(row: nat, column: nat): (value: nat)
    ensures value < 16
  {
    if row == 0 then Row16(column, 4, 11, 2, 14, 15, 0, 8, 13, 3, 12, 9, 7, 5, 10, 6, 1)
    else if row == 1 then Row16(column, 13, 0, 11, 7, 4, 9, 1, 10, 14, 3, 5, 12, 2, 15, 8, 6)
    else if row == 2 then Row16(column, 1, 4, 11, 13, 12, 3, 7, 14, 10, 15, 6, 8, 0, 5, 9, 2)
    else Row16(column, 6, 11, 13, 8, 1, 4, 10, 7, 9, 5, 0, 15, 14, 2, 3, 12)
  }

  function SBox8(row: nat, column: nat): (value: nat)
    ensures value < 16
  {
    if row == 0 then Row16(column, 13, 2, 8, 4, 6, 15, 11, 1, 10, 9, 3, 14, 5, 0, 12, 7)
    else if row == 1 then Row16(column, 1, 15, 13, 8, 10, 3, 7, 4, 12, 5, 6, 11, 0, 14, 9, 2)
    else if row == 2 then Row16(column, 7, 11, 4, 1, 9, 12, 14, 2, 0, 6, 10, 13, 15, 3, 5, 8)
    else Row16(column, 2, 1, 14, 7, 4, 10, 8, 13, 15, 12, 9, 0, 3, 5, 6, 11)
  }

  /** The eight substitution boxes, four rows of sixteen each. */
  function SBox(box: nat, row: nat, column: nat): (value: nat)
    requires box < 8
    ensures value < 16
  {
    match box
    case 0 => SBox1(row, column)
    case 1 => SBox2(row, column)
    case 2 => SBox3(row, column)
    case 3 => SBox4(row, column)
    case 4 => SBox5(row, column)
    case 5 => SBox6(row, column)
    case 6 => SBox7(row, column)
    case _ => SBox8(row, column)
  }

  /** IP and FP undo each other. */
  lemma InverseTables(i: nat)
    requires i < 64
    ensures FP.At(IP.At(i) - 1) == i + 1 && IP.At(FP.At(i) - 1) == i + 1
  {
    FinalUndoesInitial(i);
    InitialUndoesFinal(i);
  }

  lemma FinalUndoesInitial(i: nat)
    requires i < 64
    ensures FinalPermutation(InitialPermutation(i) - 1) == i + 1
  {
  }

  lemma InitialUndoesFinal(i: nat)
    requires i < 64
    ensures InitialPermutation(FinalPermutation(i) - 1) == i + 1
  {
  }
}
