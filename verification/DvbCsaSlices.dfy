/** The stream cipher of the bit-sliced library as it stands in third_party/libdvbcsa/dvbcsa_bs_stream.c: on
    words, one bit of each for every packet. What happens in a lane is what module DvbCsaLane says. */
module DvbCsaSlices {
  import opened Bytes
  import opened DvbCsa
  import opened DvbCsaLane
  import opened DvbCsaWords
  import opened DvbCsaTranspose

  /** Four words, a bit of a nibble each. */
  datatype Four = Four(b0: Word, b1: Word, b2: Word, b3: Word)

  function Zero(): Word { OfBytes([0]) }

  function Ones(): (w: Word)
    ensures forall i :: 0 <= i < BITS ==> w[i] == 1
  {
    hide BitOf;
    AllOnes();
    OfBytes([0xff])
  }

  lemma AllOnes()
    ensures forall k :: 0 <= k < 8 ==> BitOf(0xff, k) == 1 && BitOf(0, k) == 0
  {
  }

  /* ---- the seven substitutions ---- */

  function Words1a(a: Word, b: Word, c: Word, d: Word, e: Word): Word {
    var t0 := Xor(a, Xor(b, Not(Or(Xor(Or(a, b), c), Xor(c, d)))));
    var t1 := Xor(Or(a, b), Not(And(c, Or(a, Xor(b, d)))));
    Xor(t0, And(e, t1))
  }

  function Words1b(a: Word, b: Word, c: Word, d: Word, e: Word): Word {
    var t2 := Xor(a, Xor(And(b, d), Or(And(a, d), c)));
    var t3 := Xor(And(a, c), Xor(a, Or(And(a, b), d)));
    Xor(t2, And(e, t3))
  }

  function Words2a(a: Word, b: Word, c: Word, d: Word, e: Word): Word {
    var t0 := Xor(a, Xor(And(b, Or(c, d)), Xor(c, Not(d))));
    var t1 := Or(And(a, Xor(b, d)), And(Or(a, b), c));
    Xor(t0, And(e, t1))
  }

  function Words2b(a: Word, b: Word, c: Word, d: Word, e: Word): Word {
    var t2 := Xor(And(b, d), Or(And(a, d), Xor(b, Not(c))));
    var t3 := Or(And(a, d), Xor(a, Xor(b, And(c, d))));
    Xor(t2, And(e, t3))
  }

  function Words3a(a: Word, b: Word, c: Word, d: Word, e: Word): Word {
    var t0 := Xor(a, Xor(b, Xor(And(c, Or(a, d)), d)));
    var t1 := Xor(And(a, c), Or(Xor(a, d), Xor(Or(b, c), Not(d))));
    Xor(t0, And(Not(e), t1))
  }

  function Words3b(a: Word, b: Word, c: Word, d: Word, e: Word): Word {
    var t2 := Xor(a, Xor(And(Xor(b, c), d), c));
    Xor(t2, e)
  }

  function Words4a(a: Word, b: Word, c: Word, d: Word, e: Word): Word {
    var t0 := Xor(a, Or(And(c, Xor(a, d)), Xor(b, Or(c, Not(d)))));
    var t1 := Xor(And(a, b), Xor(b, Xor(And(Or(a, c), d), c)));
    Xor(t0, And(e, Xor(t1, t0)))
  }

  function Words4b(a: Word, b: Word, c: Word, d: Word, e: Word): Word {
    var t2 := Xor(a, Or(And(b, c), Xor(Or(And(a, Xor(b, d)), c), d)));
    Xor(Xor(Words4a(a, b, c, d, e), t2), e)
  }

  function Words5a(a: Word, b: Word, c: Word, d: Word, e: Word): Word {
    var t0 := Or(Xor(And(a, Or(b, c)), b), Xor(Or(Xor(a, c), d), Ones()));
    var t1 := Xor(b, And(Xor(c, d), Xor(c, Or(b, Xor(a, d)))));
    Xor(t0, And(e, t1))
  }

  function Words5b(a: Word, b: Word, c: Word, d: Word, e: Word): Word {
    var t2 := Xor(And(a, c), Xor(b, And(Or(b, Xor(a, c)), d)));
    var t3 := Or(And(Xor(a, b), Xor(c, Ones())), d);
    Xor(t2, And(e, t3))
  }

  function Words6a(a: Word, b: Word, c: Word, d: Word, e: Word): Word {
    var t0 := Xor(And(And(a, c), d), Xor(And(b, Or(a, d)), c));
    var t1 := Not(And(Xor(a, c), d));
    Xor(t0, And(e, t1))
  }

  function Words6b(a: Word, b: Word, c: Word, d: Word, e: Word): Word {
    var t2 := Xor(And(a, Or(b, c)), Xor(b, Or(And(b, c), d)));
    var t3 := And(c, Xor(And(a, Xor(b, d)), Or(b, d)));
    Xor(t2, And(e, t3))
  }

  function Words7a(a: Word, b: Word, c: Word, d: Word, e: Word): Word {
    var t0 := Xor(b, Or(And(c, d), Xor(a, Xor(c, d))));
    var t1 := And(Or(b, d), Or(And(a, c), Xor(b, Xor(c, d))));
    Xor(t0, And(e, t1))
  }

  function Words7b(a: Word, b: Word, c: Word, d: Word, e: Word): Word {
    var t2 := Xor(Or(a, b), Xor(And(c, Or(b, d)), d));
    var t3 := Or(d, Xor(And(a, c), Ones()));
    Xor(t2, And(e, t3))
  }

  lemma InLane1(a: Word, b: Word, c: Word, d: Word, e: Word, n: nat)
    requires n < BITS
    ensures Words1a(a, b, c, d, e)[n] == S1a(a[n], b[n], c[n], d[n], e[n])
    ensures Words1b(a, b, c, d, e)[n] == S1b(a[n], b[n], c[n], d[n], e[n])
  {
    hide And, Or, Xor, Not;
  }

  lemma InLane2(a: Word, b: Word, c: Word, d: Word, e: Word, n: nat)
    requires n < BITS
    ensures Words2a(a, b, c, d, e)[n] == S2a(a[n], b[n], c[n], d[n], e[n])
    ensures Words2b(a, b, c, d, e)[n] == S2b(a[n], b[n], c[n], d[n], e[n])
  {
    hide And, Or, Xor, Not;
  }

  lemma InLane3(a: Word, b: Word, c: Word, d: Word, e: Word, n: nat)
    requires n < BITS
    ensures Words3a(a, b, c, d, e)[n] == S3a(a[n], b[n], c[n], d[n], e[n])
    ensures Words3b(a, b, c, d, e)[n] == S3b(a[n], b[n], c[n], d[n], e[n])
  {
    hide And, Or, Xor, Not;
  }

  lemma InLane4(a: Word, b: Word, c: Word, d: Word, e: Word, n: nat)
    requires n < BITS
    ensures Words4a(a, b, c, d, e)[n] == S4a(a[n], b[n], c[n], d[n], e[n])
    ensures Words4b(a, b, c, d, e)[n] == S4b(a[n], b[n], c[n], d[n], e[n])
  {
    hide And, Or, Xor, Not;
  }

  lemma InLane5(a: Word, b: Word, c: Word, d: Word, e: Word, n: nat)
    requires n < BITS
    ensures Words5a(a, b, c, d, e)[n] == S5a(a[n], b[n], c[n], d[n], e[n])
    ensures Words5b(a, b, c, d, e)[n] == S5b(a[n], b[n], c[n], d[n], e[n])
  {
    hide And, Or, Xor, Not, Ones;
  }

  lemma InLane6(a: Word, b: Word, c: Word, d: Word, e: Word, n: nat)
    requires n < BITS
    ensures Words6a(a, b, c, d, e)[n] == S6a(a[n], b[n], c[n], d[n], e[n])
    ensures Words6b(a, b, c, d, e)[n] == S6b(a[n], b[n], c[n], d[n], e[n])
  {
    hide And, Or, Xor, Not;
  }

  lemma InLane7(a: Word, b: Word, c: Word, d: Word, e: Word, n: nat)
    requires n < BITS
    ensures Words7a(a, b, c, d, e)[n] == S7a(a[n], b[n], c[n], d[n], e[n])
    ensures Words7b(a, b, c, d, e)[n] == S7b(a[n], b[n], c[n], d[n], e[n])
  {
    hide And, Or, Xor, Not, Ones;
  }

  /* ---- registers of ten nibbles ---- */

  type Bank = r: seq<Four> | |r| == 10 witness seq(10, _ => Four(Zero(), Zero(), Zero(), Zero()))

  function NibbleOf(w: Four, n: nat): bv4
    requires n < BITS
  {
    Nibble(w.b3[n], w.b2[n], w.b1[n], w.b0[n])
  }

  function Ten(n9: bv4, n8: bv4, n7: bv4, n6: bv4, n5: bv4, n4: bv4, n3: bv4, n2: bv4, n1: bv4, n0: bv4): bv40 {
    ((n9 as bv40) << 36) | ((n8 as bv40) << 32) | ((n7 as bv40) << 28) | ((n6 as bv40) << 24) | ((n5 as bv40) << 20)
        | ((n4 as bv40) << 16) | ((n3 as bv40) << 12) | ((n2 as bv40) << 8) | ((n1 as bv40) << 4) | (n0 as bv40)
  }

  /** A lane of them. */
  function BankOf(r: Bank, n: nat): bv40
    requires n < BITS
  {
    Ten(NibbleOf(r[9], n), NibbleOf(r[8], n), NibbleOf(r[7], n), NibbleOf(r[6], n), NibbleOf(r[5], n),
        NibbleOf(r[4], n), NibbleOf(r[3], n), NibbleOf(r[2], n), NibbleOf(r[1], n), NibbleOf(r[0], n))
  }

  lemma NibbleBits(b3: bv1, b2: bv1, b1: bv1, b0: bv1)
    ensures var v := Nibble(b3, b2, b1, b0);
            Bit4(v, 0) == b0 && Bit4(v, 1) == b1 && Bit4(v, 2) == b2 && Bit4(v, 3) == b3
  {
  }

  lemma NibbleOfTen0(n9: bv4, n8: bv4, n7: bv4, n6: bv4, n5: bv4, n4: bv4, n3: bv4, n2: bv4, n1: bv4, n0: bv4)
    ensures var t := Ten(n9, n8, n7, n6, n5, n4, n3, n2, n1, n0);
            At(t, 0, 0) == Bit4(n0, 0) && At(t, 0, 1) == Bit4(n0, 1)
            && At(t, 0, 2) == Bit4(n0, 2) && At(t, 0, 3) == Bit4(n0, 3)
  {
  }

  lemma NibbleOfTen1(n9: bv4, n8: bv4, n7: bv4, n6: bv4, n5: bv4, n4: bv4, n3: bv4, n2: bv4, n1: bv4, n0: bv4)
    ensures var t := Ten(n9, n8, n7, n6, n5, n4, n3, n2, n1, n0);
            At(t, 1, 0) == Bit4(n1, 0) && At(t, 1, 1) == Bit4(n1, 1)
            && At(t, 1, 2) == Bit4(n1, 2) && At(t, 1, 3) == Bit4(n1, 3)
  {
  }

  lemma NibbleOfTen2(n9: bv4, n8: bv4, n7: bv4, n6: bv4, n5: bv4, n4: bv4, n3: bv4, n2: bv4, n1: bv4, n0: bv4)
    ensures var t := Ten(n9, n8, n7, n6, n5, n4, n3, n2, n1, n0);
            At(t, 2, 0) == Bit4(n2, 0) && At(t, 2, 1) == Bit4(n2, 1)
            && At(t, 2, 2) == Bit4(n2, 2) && At(t, 2, 3) == Bit4(n2, 3)
  {
  }

  lemma NibbleOfTen3(n9: bv4, n8: bv4, n7: bv4, n6: bv4, n5: bv4, n4: bv4, n3: bv4, n2: bv4, n1: bv4, n0: bv4)
    ensures var t := Ten(n9, n8, n7, n6, n5, n4, n3, n2, n1, n0);
            At(t, 3, 0) == Bit4(n3, 0) && At(t, 3, 1) == Bit4(n3, 1)
            && At(t, 3, 2) == Bit4(n3, 2) && At(t, 3, 3) == Bit4(n3, 3)
  {
  }

  lemma NibbleOfTen4(n9: bv4, n8: bv4, n7: bv4, n6: bv4, n5: bv4, n4: bv4, n3: bv4, n2: bv4, n1: bv4, n0: bv4)
    ensures var t := Ten(n9, n8, n7, n6, n5, n4, n3, n2, n1, n0);
            At(t, 4, 0) == Bit4(n4, 0) && At(t, 4, 1) == Bit4(n4, 1)
            && At(t, 4, 2) == Bit4(n4, 2) && At(t, 4, 3) == Bit4(n4, 3)
  {
  }

  lemma NibbleOfTen5(n9: bv4, n8: bv4, n7: bv4, n6: bv4, n5: bv4, n4: bv4, n3: bv4, n2: bv4, n1: bv4, n0: bv4)
    ensures var t := Ten(n9, n8, n7, n6, n5, n4, n3, n2, n1, n0);
            At(t, 5, 0) == Bit4(n5, 0) && At(t, 5, 1) == Bit4(n5, 1)
            && At(t, 5, 2) == Bit4(n5, 2) && At(t, 5, 3) == Bit4(n5, 3)
  {
  }

  lemma NibbleOfTen6(n9: bv4, n8: bv4, n7: bv4, n6: bv4, n5: bv4, n4: bv4, n3: bv4, n2: bv4, n1: bv4, n0: bv4)
    ensures var t := Ten(n9, n8, n7, n6, n5, n4, n3, n2, n1, n0);
            At(t, 6, 0) == Bit4(n6, 0) && At(t, 6, 1) == Bit4(n6, 1)
            && At(t, 6, 2) == Bit4(n6, 2) && At(t, 6, 3) == Bit4(n6, 3)
  {
  }

  lemma NibbleOfTen7(n9: bv4, n8: bv4, n7: bv4, n6: bv4, n5: bv4, n4: bv4, n3: bv4, n2: bv4, n1: bv4, n0: bv4)
    ensures var t := Ten(n9, n8, n7, n6, n5, n4, n3, n2, n1, n0);
            At(t, 7, 0) == Bit4(n7, 0) && At(t, 7, 1) == Bit4(n7, 1)
            && At(t, 7, 2) == Bit4(n7, 2) && At(t, 7, 3) == Bit4(n7, 3)
  {
  }

  lemma NibbleOfTen8(n9: bv4, n8: bv4, n7: bv4, n6: bv4, n5: bv4, n4: bv4, n3: bv4, n2: bv4, n1: bv4, n0: bv4)
    ensures var t := Ten(n9, n8, n7, n6, n5, n4, n3, n2, n1, n0);
            At(t, 8, 0) == Bit4(n8, 0) && At(t, 8, 1) == Bit4(n8, 1)
            && At(t, 8, 2) == Bit4(n8, 2) && At(t, 8, 3) == Bit4(n8, 3)
  {
  }

  lemma NibbleOfTen9(n9: bv4, n8: bv4, n7: bv4, n6: bv4, n5: bv4, n4: bv4, n3: bv4, n2: bv4, n1: bv4, n0: bv4)
    ensures var t := Ten(n9, n8, n7, n6, n5, n4, n3, n2, n1, n0);
            At(t, 9, 0) == Bit4(n9, 0) && At(t, 9, 1) == Bit4(n9, 1)
            && At(t, 9, 2) == Bit4(n9, 2) && At(t, 9, 3) == Bit4(n9, 3)
  {
  }

  lemma TopsOfTen(n9: bv4, n8: bv4, n7: bv4, n6: bv4, n5: bv4, n4: bv4, n3: bv4, n2: bv4, n1: bv4, n0: bv4)
    ensures var t := Ten(n9, n8, n7, n6, n5, n4, n3, n2, n1, n0); Top(t, 9) == n9 && Top(t, 6) == n6
  {
  }

  lemma ShiftedTen(n9: bv4, n8: bv4, n7: bv4, n6: bv4, n5: bv4, n4: bv4, n3: bv4, n2: bv4, n1: bv4, n0: bv4, m: bv4)
    ensures Shifted(Ten(n9, n8, n7, n6, n5, n4, n3, n2, n1, n0), m) == Ten(n8, n7, n6, n5, n4, n3, n2, n1, n0, m)
  {
  }

  lemma BankBits(r: Bank, n: nat)
    requires n < BITS
    ensures At(BankOf(r, n), 0, 0) == r[0].b0[n] && At(BankOf(r, n), 0, 1) == r[0].b1[n]
    ensures At(BankOf(r, n), 0, 2) == r[0].b2[n] && At(BankOf(r, n), 0, 3) == r[0].b3[n]
    ensures At(BankOf(r, n), 1, 0) == r[1].b0[n] && At(BankOf(r, n), 1, 1) == r[1].b1[n]
    ensures At(BankOf(r, n), 1, 2) == r[1].b2[n] && At(BankOf(r, n), 1, 3) == r[1].b3[n]
    ensures At(BankOf(r, n), 2, 0) == r[2].b0[n] && At(BankOf(r, n), 2, 1) == r[2].b1[n]
    ensures At(BankOf(r, n), 2, 2) == r[2].b2[n] && At(BankOf(r, n), 2, 3) == r[2].b3[n]
    ensures At(BankOf(r, n), 3, 0) == r[3].b0[n] && At(BankOf(r, n), 3, 1) == r[3].b1[n]
    ensures At(BankOf(r, n), 3, 2) == r[3].b2[n] && At(BankOf(r, n), 3, 3) == r[3].b3[n]
    ensures At(BankOf(r, n), 4, 0) == r[4].b0[n] && At(BankOf(r, n), 4, 1) == r[4].b1[n]
    ensures At(BankOf(r, n), 4, 2) == r[4].b2[n] && At(BankOf(r, n), 4, 3) == r[4].b3[n]
    ensures At(BankOf(r, n), 5, 0) == r[5].b0[n] && At(BankOf(r, n), 5, 1) == r[5].b1[n]
    ensures At(BankOf(r, n), 5, 2) == r[5].b2[n] && At(BankOf(r, n), 5, 3) == r[5].b3[n]
    ensures At(BankOf(r, n), 6, 0) == r[6].b0[n] && At(BankOf(r, n), 6, 1) == r[6].b1[n]
    ensures At(BankOf(r, n), 6, 2) == r[6].b2[n] && At(BankOf(r, n), 6, 3) == r[6].b3[n]
    ensures At(BankOf(r, n), 7, 0) == r[7].b0[n] && At(BankOf(r, n), 7, 1) == r[7].b1[n]
    ensures At(BankOf(r, n), 7, 2) == r[7].b2[n] && At(BankOf(r, n), 7, 3) == r[7].b3[n]
    ensures At(BankOf(r, n), 8, 0) == r[8].b0[n] && At(BankOf(r, n), 8, 1) == r[8].b1[n]
    ensures At(BankOf(r, n), 8, 2) == r[8].b2[n] && At(BankOf(r, n), 8, 3) == r[8].b3[n]
    ensures At(BankOf(r, n), 9, 0) == r[9].b0[n] && At(BankOf(r, n), 9, 1) == r[9].b1[n]
    ensures At(BankOf(r, n), 9, 2) == r[9].b2[n] && At(BankOf(r, n), 9, 3) == r[9].b3[n]
  {
    hide At, Ten, Nibble, Bit4;
    var n0 := NibbleOf(r[0], n);
    NibbleBits(r[0].b3[n], r[0].b2[n], r[0].b1[n], r[0].b0[n]);
    var n1 := NibbleOf(r[1], n);
    NibbleBits(r[1].b3[n], r[1].b2[n], r[1].b1[n], r[1].b0[n]);
    var n2 := NibbleOf(r[2], n);
    NibbleBits(r[2].b3[n], r[2].b2[n], r[2].b1[n], r[2].b0[n]);
    var n3 := NibbleOf(r[3], n);
    NibbleBits(r[3].b3[n], r[3].b2[n], r[3].b1[n], r[3].b0[n]);
    var n4 := NibbleOf(r[4], n);
    NibbleBits(r[4].b3[n], r[4].b2[n], r[4].b1[n], r[4].b0[n]);
    var n5 := NibbleOf(r[5], n);
    NibbleBits(r[5].b3[n], r[5].b2[n], r[5].b1[n], r[5].b0[n]);
    var n6 := NibbleOf(r[6], n);
    NibbleBits(r[6].b3[n], r[6].b2[n], r[6].b1[n], r[6].b0[n]);
    var n7 := NibbleOf(r[7], n);
    NibbleBits(r[7].b3[n], r[7].b2[n], r[7].b1[n], r[7].b0[n]);
    var n8 := NibbleOf(r[8], n);
    NibbleBits(r[8].b3[n], r[8].b2[n], r[8].b1[n], r[8].b0[n]);
    var n9 := NibbleOf(r[9], n);
    NibbleBits(r[9].b3[n], r[9].b2[n], r[9].b1[n], r[9].b0[n]);
    NibbleOfTen0(n9, n8, n7, n6, n5, n4, n3, n2, n1, n0);
    NibbleOfTen1(n9, n8, n7, n6, n5, n4, n3, n2, n1, n0);
    NibbleOfTen2(n9, n8, n7, n6, n5, n4, n3, n2, n1, n0);
    NibbleOfTen3(n9, n8, n7, n6, n5, n4, n3, n2, n1, n0);
    NibbleOfTen4(n9, n8, n7, n6, n5, n4, n3, n2, n1, n0);
    NibbleOfTen5(n9, n8, n7, n6, n5, n4, n3, n2, n1, n0);
    NibbleOfTen6(n9, n8, n7, n6, n5, n4, n3, n2, n1, n0);
    NibbleOfTen7(n9, n8, n7, n6, n5, n4, n3, n2, n1, n0);
    NibbleOfTen8(n9, n8, n7, n6, n5, n4, n3, n2, n1, n0);
    NibbleOfTen9(n9, n8, n7, n6, n5, n4, n3, n2, n1, n0);
  }

  /* ---- the substitutions of A ---- */

  function Boxes1a(r: Bank): Word { Words1a(r[0].b2, r[5].b1, r[6].b3, r[8].b0, r[3].b0) }

  function Boxes1b(r: Bank): Word { Words1b(r[0].b2, r[5].b1, r[6].b3, r[8].b0, r[3].b0) }

  function Boxes2a(r: Bank): Word { Words2a(r[2].b2, r[5].b3, r[6].b0, r[8].b1, r[1].b1) }

  function Boxes2b(r: Bank): Word { Words2b(r[2].b2, r[5].b3, r[6].b0, r[8].b1, r[1].b1) }

  function Boxes3a(r: Bank): Word { Words3a(r[1].b0, r[4].b1, r[4].b3, r[5].b2, r[0].b3) }

  function Boxes3b(r: Bank): Word { Words3b(r[1].b0, r[4].b1, r[4].b3, r[5].b2, r[0].b3) }

  function Boxes4a(r: Bank): Word { Words4a(r[0].b1, r[1].b3, r[3].b2, r[7].b0, r[2].b3) }

  function Boxes4b(r: Bank): Word { Words4b(r[0].b1, r[1].b3, r[3].b2, r[7].b0, r[2].b3) }

  function Boxes5a(r: Bank): Word { Words5a(r[3].b3, r[5].b0, r[7].b1, r[8].b2, r[4].b2) }

  function Boxes5b(r: Bank): Word { Words5b(r[3].b3, r[5].b0, r[7].b1, r[8].b2, r[4].b2) }

  function Boxes6a(r: Bank): Word { Words6a(r[3].b1, r[4].b0, r[6].b2, r[8].b3, r[2].b1) }

  function Boxes6b(r: Bank): Word { Words6b(r[3].b1, r[4].b0, r[6].b2, r[8].b3, r[2].b1) }

  function Boxes7a(r: Bank): Word { Words7a(r[2].b0, r[6].b1, r[7].b2, r[7].b3, r[1].b2) }

  function Boxes7b(r: Bank): Word { Words7b(r[2].b0, r[6].b1, r[7].b2, r[7].b3, r[1].b2) }

  lemma BoxInLane1(r: Bank, n: nat)
    requires n < BITS
    ensures Boxes1a(r)[n] == Box1a(BankOf(r, n)) && Boxes1b(r)[n] == Box1b(BankOf(r, n))
  {
    hide At, BankOf, S1a, S1b, Words1a, Words1b;
    BankBits(r, n);
    InLane1(r[0].b2, r[5].b1, r[6].b3, r[8].b0, r[3].b0, n);
  }

  lemma BoxInLane2(r: Bank, n: nat)
    requires n < BITS
    ensures Boxes2a(r)[n] == Box2a(BankOf(r, n)) && Boxes2b(r)[n] == Box2b(BankOf(r, n))
  {
    hide At, BankOf, S2a, S2b, Words2a, Words2b;
    BankBits(r, n);
    InLane2(r[2].b2, r[5].b3, r[6].b0, r[8].b1, r[1].b1, n);
  }

  lemma BoxInLane3(r: Bank, n: nat)
    requires n < BITS
    ensures Boxes3a(r)[n] == Box3a(BankOf(r, n)) && Boxes3b(r)[n] == Box3b(BankOf(r, n))
  {
    hide At, BankOf, S3a, S3b, Words3a, Words3b;
    BankBits(r, n);
    InLane3(r[1].b0, r[4].b1, r[4].b3, r[5].b2, r[0].b3, n);
  }

  lemma BoxInLane4(r: Bank, n: nat)
    requires n < BITS
    ensures Boxes4a(r)[n] == Box4a(BankOf(r, n)) && Boxes4b(r)[n] == Box4b(BankOf(r, n))
  {
    hide At, BankOf, S4a, S4b, Words4a, Words4b;
    BankBits(r, n);
    InLane4(r[0].b1, r[1].b3, r[3].b2, r[7].b0, r[2].b3, n);
  }

  lemma BoxInLane5(r: Bank, n: nat)
    requires n < BITS
    ensures Boxes5a(r)[n] == Box5a(BankOf(r, n)) && Boxes5b(r)[n] == Box5b(BankOf(r, n))
  {
    hide At, BankOf, S5a, S5b, Words5a, Words5b;
    BankBits(r, n);
    InLane5(r[3].b3, r[5].b0, r[7].b1, r[8].b2, r[4].b2, n);
  }

  lemma BoxInLane6(r: Bank, n: nat)
    requires n < BITS
    ensures Boxes6a(r)[n] == Box6a(BankOf(r, n)) && Boxes6b(r)[n] == Box6b(BankOf(r, n))
  {
    hide At, BankOf, S6a, S6b, Words6a, Words6b;
    BankBits(r, n);
    InLane6(r[3].b1, r[4].b0, r[6].b2, r[8].b3, r[2].b1, n);
  }

  lemma BoxInLane7(r: Bank, n: nat)
    requires n < BITS
    ensures Boxes7a(r)[n] == Box7a(BankOf(r, n)) && Boxes7b(r)[n] == Box7b(BankOf(r, n))
  {
    hide At, BankOf, S7a, S7b, Words7a, Words7b;
    BankBits(r, n);
    InLane7(r[2].b0, r[6].b1, r[7].b2, r[7].b3, r[1].b2, n);
  }

  /* ---- a round ---- */

  datatype Slices = Slices(a: Bank, b: Bank, x: Four, y: Four, z: Four, d: Four, e: Four, f: Four, p: Word, q: Word,
                           r: Word)

  /** What one packet has of all the words. */
  function LaneOf(s: Slices, n: nat): Lane
    requires n < BITS
  {
    Lane(BankOf(s.a, n), BankOf(s.b, n), NibbleOf(s.x, n), NibbleOf(s.y, n), NibbleOf(s.z, n), NibbleOf(s.d, n),
         NibbleOf(s.e, n), NibbleOf(s.f, n), s.p[n], s.q[n], s.r[n])
  }

  function XorFour(v: Four, w: Four): Four {
    Four(Xor(v.b0, w.b0), Xor(v.b1, w.b1), Xor(v.b2, w.b2), Xor(v.b3, w.b3))
  }

  function ExtraWords(b: Bank): Four {
    Four(Xor(Xor(Xor(b[8].b2, b[5].b3), b[2].b1), b[7].b0), Xor(Xor(Xor(b[4].b3, b[7].b2), b[3].b0), b[4].b1),
         Xor(Xor(Xor(b[5].b0, b[7].b1), b[2].b3), b[3].b2), Xor(Xor(Xor(b[2].b0, b[5].b1), b[6].b2), b[8].b3))
  }

  function TurnedWords(v: Four, p: Word): Four {
    Four(Xor(v.b0, And(Xor(v.b0, v.b3), p)), Xor(v.b1, And(Xor(v.b1, v.b0), p)),
         Xor(v.b2, And(Xor(v.b2, v.b1), p)), Xor(v.b3, And(Xor(v.b3, v.b2), p)))
  }

  function SumWord(z: Word, e: Word, q: Word, carry: Word): Word { Xor(e, And(q, Xor(z, carry))) }

  function CarryWord(z: Word, e: Word, carry: Word): Word { Or(And(z, e), And(Xor(z, e), carry)) }

  function SumWords(s: Slices): (Four, Word) {
    var c1 := CarryWord(s.z.b0, s.e.b0, s.r);
    var c2 := CarryWord(s.z.b1, s.e.b1, c1);
    var c3 := CarryWord(s.z.b2, s.e.b2, c2);
    var c4 := CarryWord(s.z.b3, s.e.b3, c3);
    (Four(SumWord(s.z.b0, s.e.b0, s.q, s.r), SumWord(s.z.b1, s.e.b1, s.q, c1),
          SumWord(s.z.b2, s.e.b2, s.q, c2), SumWord(s.z.b3, s.e.b3, s.q, c3)),
     Xor(s.r, And(s.q, Xor(c4, s.r))))
  }

  function ShiftedIn(r: Bank, v: Four): Bank { [v] + r[..9] }

  function SlicedStep(s: Slices, first: Four, second: Four): Slices {
    var sum := SumWords(s);
    Slices(ShiftedIn(s.a, first), ShiftedIn(s.b, TurnedWords(second, s.p)),
           Four(Boxes1a(s.a), Boxes2a(s.a), Boxes3b(s.a), Boxes4b(s.a)),
           Four(Boxes3a(s.a), Boxes4a(s.a), Boxes5b(s.a), Boxes6b(s.a)),
           Four(Boxes5a(s.a), Boxes6a(s.a), Boxes1b(s.a), Boxes2b(s.a)),
           XorFour(XorFour(s.e, s.z), ExtraWords(s.b)), s.f, sum.0, Boxes7a(s.a), Boxes7b(s.a), sum.1)
  }

  function SlicedRound(s: Slices): Slices {
    SlicedStep(s, XorFour(s.a[9], s.x), XorFour(XorFour(s.b[6], s.b[9]), s.y))
  }

  function SlicedInitRound(s: Slices, inA: Four, inB: Four): Slices {
    SlicedStep(s, XorFour(XorFour(XorFour(s.a[9], s.x), s.d), inA),
               XorFour(XorFour(XorFour(s.b[6], s.b[9]), s.y), inB))
  }

  lemma NibbleXor(a3: bv1, a2: bv1, a1: bv1, a0: bv1, b3: bv1, b2: bv1, b1: bv1, b0: bv1)
    ensures Nibble(a3 ^ b3, a2 ^ b2, a1 ^ b1, a0 ^ b0) == Nibble(a3, a2, a1, a0) ^ Nibble(b3, b2, b1, b0)
  {
  }

  lemma XorInLane(v: Four, w: Four, n: nat)
    requires n < BITS
    ensures NibbleOf(XorFour(v, w), n) == NibbleOf(v, n) ^ NibbleOf(w, n)
  {
    hide Nibble, Xor;
    NibbleXor(v.b3[n], v.b2[n], v.b1[n], v.b0[n], w.b3[n], w.b2[n], w.b1[n], w.b0[n]);
  }

  lemma ExtraInLane(b: Bank, n: nat)
    requires n < BITS
    ensures NibbleOf(ExtraWords(b), n) == Extra(BankOf(b, n))
  {
    hide Nibble, Xor, At, BankOf;
    BankBits(b, n);
  }

  lemma TurnedInLane(v: Four, p: Word, n: nat)
    requires n < BITS
    ensures NibbleOf(TurnedWords(v, p), n) == Turned(NibbleOf(v, n), p[n])
  {
    hide Nibble, Xor, And, Bit4;
    NibbleBits(v.b3[n], v.b2[n], v.b1[n], v.b0[n]);
  }

  lemma CarryInLane(z: Word, e: Word, carry: Word, n: nat)
    requires n < BITS
    ensures CarryWord(z, e, carry)[n] == Carry(z[n], e[n], carry[n])
  {
    hide Xor, And, Or;
  }

  lemma SumBitInLane(z: Word, e: Word, q: Word, carry: Word, n: nat)
    requires n < BITS
    ensures SumWord(z, e, q, carry)[n] == SumBit(z[n], e[n], q[n], carry[n])
  {
    hide Xor, And;
  }

  lemma SumInLane(s: Slices, n: nat)
    requires n < BITS
    ensures var sum, lane := SumWords(s), Sum(LaneOf(s, n)); NibbleOf(sum.0, n) == lane.0 && sum.1[n] == lane.1
  {
    hide Nibble, Xor, And, Bit4, BankOf, CarryWord, Carry, SumWord, SumBit;
    NibbleBits(s.z.b3[n], s.z.b2[n], s.z.b1[n], s.z.b0[n]);
    NibbleBits(s.e.b3[n], s.e.b2[n], s.e.b1[n], s.e.b0[n]);
    var c1 := CarryWord(s.z.b0, s.e.b0, s.r);
    var c2 := CarryWord(s.z.b1, s.e.b1, c1);
    var c3 := CarryWord(s.z.b2, s.e.b2, c2);
    CarryInLane(s.z.b0, s.e.b0, s.r, n);
    CarryInLane(s.z.b1, s.e.b1, c1, n);
    CarryInLane(s.z.b2, s.e.b2, c2, n);
    CarryInLane(s.z.b3, s.e.b3, c3, n);
    SumBitInLane(s.z.b0, s.e.b0, s.q, s.r, n);
    SumBitInLane(s.z.b1, s.e.b1, s.q, c1, n);
    SumBitInLane(s.z.b2, s.e.b2, s.q, c2, n);
    SumBitInLane(s.z.b3, s.e.b3, s.q, c3, n);
  }

  lemma ShiftedInLane(r: Bank, v: Four, n: nat)
    requires n < BITS
    ensures BankOf(ShiftedIn(r, v), n) == Shifted(BankOf(r, n), NibbleOf(v, n))
  {
    hide Ten, Shifted, NibbleOf;
    ShiftedTen(NibbleOf(r[9], n), NibbleOf(r[8], n), NibbleOf(r[7], n), NibbleOf(r[6], n), NibbleOf(r[5], n),
               NibbleOf(r[4], n), NibbleOf(r[3], n), NibbleOf(r[2], n), NibbleOf(r[1], n), NibbleOf(r[0], n),
               NibbleOf(v, n));
  }

  lemma TopsInLane(r: Bank, n: nat)
    requires n < BITS
    ensures Top(BankOf(r, n), 9) == NibbleOf(r[9], n) && Top(BankOf(r, n), 6) == NibbleOf(r[6], n)
  {
    hide Ten, Top, NibbleOf;
    TopsOfTen(NibbleOf(r[9], n), NibbleOf(r[8], n), NibbleOf(r[7], n), NibbleOf(r[6], n), NibbleOf(r[5], n),
              NibbleOf(r[4], n), NibbleOf(r[3], n), NibbleOf(r[2], n), NibbleOf(r[1], n), NibbleOf(r[0], n));
  }

  /** A round of the words is a round in every lane. */
  lemma StepInLane(s: Slices, first: Four, second: Four, n: nat)
    requires n < BITS
    ensures LaneOf(SlicedStep(s, first, second), n) ==
              LaneStepped(LaneOf(s, n), NibbleOf(first, n), NibbleOf(second, n))
  {
    hide Nibble, Shifted, BankOf, Extra, Turned, Sum, ShiftedIn, TurnedWords, SumWords, ExtraWords, XorFour;
    hide Box1a, Box1b, Box2a, Box2b, Box3a, Box3b, Box4a, Box4b, Box5a, Box5b, Box6a, Box6b, Box7a, Box7b;
    hide Boxes1a, Boxes1b, Boxes2a, Boxes2b, Boxes3a, Boxes3b, Boxes4a, Boxes4b, Boxes5a, Boxes5b, Boxes6a, Boxes6b,
        Boxes7a, Boxes7b;
    BoxInLane1(s.a, n);
    BoxInLane2(s.a, n);
    BoxInLane3(s.a, n);
    BoxInLane4(s.a, n);
    BoxInLane5(s.a, n);
    BoxInLane6(s.a, n);
    BoxInLane7(s.a, n);
    SumInLane(s, n);
    ShiftedInLane(s.a, first, n);
    TurnedInLane(second, s.p, n);
    ShiftedInLane(s.b, TurnedWords(second, s.p), n);
    XorInLane(s.e, s.z, n);
    ExtraInLane(s.b, n);
    XorInLane(XorFour(s.e, s.z), ExtraWords(s.b), n);
  }

  lemma RoundInLane(s: Slices, n: nat)
    requires n < BITS
    ensures LaneOf(SlicedRound(s), n) == LaneRound(LaneOf(s, n))
  {
    hide SlicedStep, LaneStepped, NibbleOf, BankOf, Top, XorFour;
    StepInLane(s, XorFour(s.a[9], s.x), XorFour(XorFour(s.b[6], s.b[9]), s.y), n);
    TopsInLane(s.a, n);
    TopsInLane(s.b, n);
    XorInLane(s.a[9], s.x, n);
    XorInLane(s.b[6], s.b[9], n);
    XorInLane(XorFour(s.b[6], s.b[9]), s.y, n);
  }

  lemma InitRoundInLane(s: Slices, inA: Four, inB: Four, n: nat)
    requires n < BITS
    ensures LaneOf(SlicedInitRound(s, inA, inB), n) == LaneInitRound(LaneOf(s, n), NibbleOf(inA, n), NibbleOf(inB, n))
  {
    hide SlicedStep, LaneStepped, NibbleOf, BankOf, Top, XorFour;
    var a, b := XorFour(XorFour(s.a[9], s.x), s.d), XorFour(XorFour(s.b[6], s.b[9]), s.y);
    StepInLane(s, XorFour(a, inA), XorFour(b, inB), n);
    TopsInLane(s.a, n);
    TopsInLane(s.b, n);
    XorInLane(s.a[9], s.x, n);
    XorInLane(XorFour(s.a[9], s.x), s.d, n);
    XorInLane(a, inA, n);
    XorInLane(s.b[6], s.b[9], n);
    XorInLane(XorFour(s.b[6], s.b[9]), s.y, n);
    XorInLane(b, inB, n);
  }

  /* ---- the start ---- */

  function Nothing(): Four { Four(Zero(), Zero(), Zero(), Zero()) }

  /** The number whose bit worth 4 is the other one. */
  function Flipped(i: nat): nat { if i / 4 % 2 == 0 then i + 4 else i - 4 }

  /** The stream's part of the key, dvbcsa_bs_key_set: a word for each bit of the control word. */
  function StreamKey(word: seq<Byte>): (k: seq<Word>)
    requires |word| == 8
    ensures |k| == 64
  {
    seq(64, i requires 0 <= i < 64 => if BitOf(word[Flipped(i) / 8], Flipped(i) % 8) == 1 then Ones() else Zero())
  }

  function KeyNibble(k: seq<Word>, i: nat): Four
    requires 4 * i + 4 <= |k|
  {
    Four(k[4 * i], k[4 * i + 1], k[4 * i + 2], k[4 * i + 3])
  }

  function KeyBank(k: seq<Word>, i: nat): Bank
    requires 4 * i + 32 <= |k|
  {
    [KeyNibble(k, i), KeyNibble(k, i + 1), KeyNibble(k, i + 2), KeyNibble(k, i + 3), KeyNibble(k, i + 4),
     KeyNibble(k, i + 5), KeyNibble(k, i + 6), KeyNibble(k, i + 7), Nothing(), Nothing()]
  }

  /** All registers of all packets before the first block goes in. */
  function Start(k: seq<Word>): Slices
    requires |k| == 64
  {
    Slices(KeyBank(k, 0), KeyBank(k, 8), Nothing(), Nothing(), Nothing(), Nothing(), Nothing(), Nothing(),
           Zero(), Zero(), Zero())
  }

  lemma NibblesOfByte(b: Byte)
    ensures High(b) == Nibble(BitOf(b, 7), BitOf(b, 6), BitOf(b, 5), BitOf(b, 4))
    ensures Low(b) == Nibble(BitOf(b, 3), BitOf(b, 2), BitOf(b, 1), BitOf(b, 0))
  {
  }

  lemma ZeroBits(n: nat)
    requires n < BITS
    ensures Zero()[n] == 0
  {
    hide BitOf;
    AllOnes();
  }

  lemma KeyBit(word: seq<Byte>, i: nat, n: nat)
    requires |word| == 8 && i < 64 && n < BITS
    ensures StreamKey(word)[i][n] == BitOf(word[Flipped(i) / 8], Flipped(i) % 8)
  {
    hide BitOf, Ones, Zero, Flipped;
    ZeroBits(n);
  }

  lemma KeyByteBit(word: seq<Byte>, j: nat, b: nat, n: nat)
    requires |word| == 8 && j < 8 && b < 8 && n < BITS
    ensures StreamKey(word)[8 * j + b][n] == BitOf(word[j], if b < 4 then b + 4 else b - 4)
  {
    hide BitOf, StreamKey;
    KeyBit(word, 8 * j + b, n);
    FlippedInByte(j, b);
  }

  lemma FlippedInByte(j: nat, b: nat)
    requires b < 8
    ensures Flipped(8 * j + b) == 8 * j + (if b < 4 then b + 4 else b - 4)
    ensures Flipped(8 * j + b) / 8 == j && Flipped(8 * j + b) % 8 == if b < 4 then b + 4 else b - 4
  {
  }

  /** The nibbles of a byte come the high one first. */
  lemma KeyNibbles(word: seq<Byte>, j: nat, n: nat)
    requires |word| == 8 && j < 8 && n < BITS
    ensures NibbleOf(KeyNibble(StreamKey(word), 2 * j), n) == High(word[j])
    ensures NibbleOf(KeyNibble(StreamKey(word), 2 * j + 1), n) == Low(word[j])
  {
    hide BitOf, StreamKey, Nibble, High, Low;
    NibblesOfByte(word[j]);
    KeyByteBit(word, j, 0, n);
    KeyByteBit(word, j, 1, n);
    KeyByteBit(word, j, 2, n);
    KeyByteBit(word, j, 3, n);
    KeyByteBit(word, j, 4, n);
    KeyByteBit(word, j, 5, n);
    KeyByteBit(word, j, 6, n);
    KeyByteBit(word, j, 7, n);
  }

  /** A byte at its place in 32 bits. */
  function Byte0(b: Byte): bv32 { b as bv32 }

  function Byte1(b: Byte): bv32 { (b as bv32) << 8 }

  function Byte2(b: Byte): bv32 { (b as bv32) << 16 }

  function Byte3(b: Byte): bv32 { (b as bv32) << 24 }

  function FourBytes(b0: Byte, b1: Byte, b2: Byte, b3: Byte): bv32 {
    Or32(Or32(Or32(Byte3(b3), Byte2(b2)), Byte1(b1)), Byte0(b0))
  }

  function Or32(v: bv32, w: bv32): bv32 { v | w }

  function Or40(v: bv40, w: bv40): bv40 { v | w }

  lemma StreamBitsOfOr(v: bv32, w: bv32)
    ensures StreamBits(Or32(v, w)) == Or32(StreamBits(v), StreamBits(w))
  {
  }

  lemma ByteSwapped(b: Byte)
    ensures StreamBits(Byte0(b)) == Byte0(SwapNibbles(b)) && StreamBits(Byte1(b)) == Byte1(SwapNibbles(b))
    ensures StreamBits(Byte2(b)) == Byte2(SwapNibbles(b)) && StreamBits(Byte3(b)) == Byte3(SwapNibbles(b))
  {
  }

  lemma LoadedSwapped(w0: Byte, w1: Byte, w2: Byte, w3: Byte)
    ensures StreamBits(FourBytes(w0, w1, w2, w3)) ==
              FourBytes(SwapNibbles(w0), SwapNibbles(w1), SwapNibbles(w2), SwapNibbles(w3))
  {
    hide StreamBits, SwapNibbles, Or32, Byte0, Byte1, Byte2, Byte3;
    ByteSwapped(w0);
    ByteSwapped(w1);
    ByteSwapped(w2);
    ByteSwapped(w3);
    StreamBitsOfOr(Byte3(w3), Byte2(w2));
    StreamBitsOfOr(Or32(Byte3(w3), Byte2(w2)), Byte1(w1));
    StreamBitsOfOr(Or32(Or32(Byte3(w3), Byte2(w2)), Byte1(w1)), Byte0(w0));
  }

  lemma EightNibblesOfOr(v: bv32, w: bv32)
    ensures EightNibbles(Or32(v, w)) == Or40(EightNibbles(v), EightNibbles(w))
  {
  }

  lemma NibblesOf(b: Byte)
    ensures EightNibbles(Byte0(b)) == Ten(0, 0, 0, 0, 0, 0, 0, 0, High(b), Low(b))
    ensures EightNibbles(Byte1(b)) == Ten(0, 0, 0, 0, 0, 0, High(b), Low(b), 0, 0)
    ensures EightNibbles(Byte2(b)) == Ten(0, 0, 0, 0, High(b), Low(b), 0, 0, 0, 0)
    ensures EightNibbles(Byte3(b)) == Ten(0, 0, High(b), Low(b), 0, 0, 0, 0, 0, 0)
  {
  }

  lemma TensOr(n7: bv4, n6: bv4, n5: bv4, n4: bv4, n3: bv4, n2: bv4, n1: bv4, n0: bv4)
    ensures Or40(Or40(Or40(Ten(0, 0, n7, n6, 0, 0, 0, 0, 0, 0), Ten(0, 0, 0, 0, n5, n4, 0, 0, 0, 0)),
                      Ten(0, 0, 0, 0, 0, 0, n3, n2, 0, 0)), Ten(0, 0, 0, 0, 0, 0, 0, 0, n1, n0))
            == Ten(0, 0, n7, n6, n5, n4, n3, n2, n1, n0)
  {
  }

  lemma NibblesInOrder(v0: Byte, v1: Byte, v2: Byte, v3: Byte)
    ensures EightNibbles(FourBytes(v0, v1, v2, v3)) ==
              Ten(0, 0, High(v3), Low(v3), High(v2), Low(v2), High(v1), Low(v1), High(v0), Low(v0))
  {
    hide EightNibbles, Ten, High, Low, Or32, Or40, Byte0, Byte1, Byte2, Byte3;
    NibblesOf(v0);
    NibblesOf(v1);
    NibblesOf(v2);
    NibblesOf(v3);
    EightNibblesOfOr(Byte3(v3), Byte2(v2));
    EightNibblesOfOr(Or32(Byte3(v3), Byte2(v2)), Byte1(v1));
    EightNibblesOfOr(Or32(Or32(Byte3(v3), Byte2(v2)), Byte1(v1)), Byte0(v0));
    TensOr(High(v3), Low(v3), High(v2), Low(v2), High(v1), Low(v1), High(v0), Low(v0));
  }

  lemma LoadedTen(w0: Byte, w1: Byte, w2: Byte, w3: Byte)
    ensures EightNibbles(StreamBits(Load32([w0, w1, w2, w3]))) ==
              Ten(0, 0, Low(w3), High(w3), Low(w2), High(w2), Low(w1), High(w1), Low(w0), High(w0))
  {
    hide StreamBits, Ten, High, Low, SwapNibbles, EightNibbles;
    assert Load32([w0, w1, w2, w3]) == FourBytes(w0, w1, w2, w3);
    hide FourBytes, Load32;
    LoadedSwapped(w0, w1, w2, w3);
    NibblesInOrder(SwapNibbles(w0), SwapNibbles(w1), SwapNibbles(w2), SwapNibbles(w3));
    NibblesSwapped(w0);
    NibblesSwapped(w1);
    NibblesSwapped(w2);
    NibblesSwapped(w3);
  }

  lemma NothingInLane(n: nat)
    requires n < BITS
    ensures NibbleOf(Nothing(), n) == 0
  {
    hide Zero;
    ZeroBits(n);
  }

  lemma BankLoaded(word: seq<Byte>, j: nat, n: nat)
    requires |word| == 8 && j <= 4 && n < BITS
    ensures BankOf(KeyBank(StreamKey(word), 2 * j), n) == EightNibbles(StreamBits(Load32(word[j..j + 4])))
  {
    hide Ten, StreamKey, KeyNibble, NibbleOf, High, Low, EightNibbles, StreamBits, Load32, Nothing;
    KeyNibbles(word, j, n);
    KeyNibbles(word, j + 1, n);
    KeyNibbles(word, j + 2, n);
    KeyNibbles(word, j + 3, n);
    NothingInLane(n);
    assert word[j..j + 4] == [word[j], word[j + 1], word[j + 2], word[j + 3]];
    LoadedTen(word[j], word[j + 1], word[j + 2], word[j + 3]);
  }

  lemma StartInLane(word: seq<Byte>, n: nat)
    requires |word| == 8 && n < BITS
    ensures LaneOf(Start(StreamKey(word)), n) == LaneLoaded(word)
  {
    hide BankOf, KeyBank, StreamKey, NibbleOf, EightNibbles, StreamBits, Load32, Nothing, Zero;
    BankLoaded(word, 0, n);
    BankLoaded(word, 4, n);
    assert word[0..4] == word[..4] && word[4..8] == word[4..];
    NothingInLane(n);
    ZeroBits(n);
  }

  /** Rows of the transposed blocks as nibbles. */
  function RowNibble(rows: seq<Word>, i: nat): Four
    requires 4 * i + 4 <= |rows|
  {
    Four(rows[4 * i], rows[4 * i + 1], rows[4 * i + 2], rows[4 * i + 3])
  }

  lemma RowBit(x: seq<Byte>, rows: seq<Word>, n: nat, i: nat, b: nat)
    requires |rows| == 64 && n < BITS && i < 8 && b < 8 && |x| >= 8 && InLane(x, rows, n)
    ensures rows[8 * i + b][n] == BitOf(x[i], b)
  {
    hide BitOf;
    BitNumber(i, b);
  }

  lemma RowsInLane(x: seq<Byte>, rows: seq<Word>, n: nat, i: nat)
    requires |rows| == 64 && n < BITS && i < 8 && |x| >= 8 && InLane(x, rows, n)
    ensures NibbleOf(RowNibble(rows, 2 * i + 1), n) == High(x[i]) && NibbleOf(RowNibble(rows, 2 * i), n) == Low(x[i])
  {
    hide BitOf, Nibble, High, Low, InLane;
    NibblesOfByte(x[i]);
    RowBit(x, rows, n, i, 0);
    RowBit(x, rows, n, i, 1);
    RowBit(x, rows, n, i, 2);
    RowBit(x, rows, n, i, 3);
    RowBit(x, rows, n, i, 4);
    RowBit(x, rows, n, i, 5);
    RowBit(x, rows, n, i, 6);
    RowBit(x, rows, n, i, 7);
  }

  function SlicedFed(s: Slices, in1: Four, in2: Four): Slices {
    SlicedInitRound(SlicedInitRound(SlicedInitRound(SlicedInitRound(s, in1, in2), in2, in1), in1, in2), in2, in1)
  }

  lemma FedInLane(s: Slices, in1: Four, in2: Four, iv: Byte, n: nat)
    requires n < BITS && NibbleOf(in1, n) == High(iv) && NibbleOf(in2, n) == Low(iv)
    ensures LaneOf(SlicedFed(s, in1, in2), n) == LaneFed(LaneOf(s, n), iv)
  {
    hide LaneOf, SlicedInitRound, LaneInitRound, NibbleOf, High, Low;
    var s1 := SlicedInitRound(s, in1, in2);
    var s2 := SlicedInitRound(s1, in2, in1);
    var s3 := SlicedInitRound(s2, in1, in2);
    InitRoundInLane(s, in1, in2, n);
    InitRoundInLane(s1, in2, in1, n);
    InitRoundInLane(s2, in1, in2, n);
    InitRoundInLane(s3, in2, in1, n);
  }

  /* ---- the bytes put out ---- */

  /** The two words that a round puts out. */
  function OutWord(d: Four, high: bool): Word { if high then Xor(d.b2, d.b3) else Xor(d.b0, d.b1) }

  lemma TwoBitsInLane(d: Four, n: nat)
    requires n < BITS
    ensures TwoBits(NibbleOf(d, n)) == ((OutWord(d, true)[n] as Byte) << 1) | (OutWord(d, false)[n] as Byte)
  {
    hide Nibble, Bit4, Xor;
    NibbleBits(d.b3[n], d.b2[n], d.b1[n], d.b0[n]);
  }

  lemma GatheredBits(c7: bv1, c6: bv1, c5: bv1, c4: bv1, c3: bv1, c2: bv1, c1: bv1, c0: bv1)
    ensures OfBits(c0, c1, c2, c3, c4, c5, c6, c7) ==
              Gathered(((c7 as Byte) << 1) | (c6 as Byte), ((c5 as Byte) << 1) | (c4 as Byte),
                       ((c3 as Byte) << 1) | (c2 as Byte), ((c1 as Byte) << 1) | (c0 as Byte))
  {
  }

  /** The eight words of four rounds: two from each, the last round's first. */
  function ByteWords(s: Slices): (cb: seq<Word>)
    ensures |cb| == 8
  {
    var s1 := SlicedRound(s);
    var s2 := SlicedRound(s1);
    var s3 := SlicedRound(s2);
    var s4 := SlicedRound(s3);
    [OutWord(s4.d, false), OutWord(s4.d, true), OutWord(s3.d, false), OutWord(s3.d, true),
     OutWord(s2.d, false), OutWord(s2.d, true), OutWord(s1.d, false), OutWord(s1.d, true)]
  }

  function SlicedFourRounds(s: Slices): Slices { SlicedRound(SlicedRound(SlicedRound(SlicedRound(s)))) }

  lemma ByteInLane(s: Slices, n: nat)
    requires n < BITS
    ensures ByteAcross(ByteWords(s), n) == LaneByte(LaneOf(s, n))
    ensures LaneOf(SlicedFourRounds(s), n) == LaneFourRounds(LaneOf(s, n))
  {
    hide SlicedRound, LaneRound, OutWord, TwoBits, NibbleOf, BankOf, OfBits, Gathered;
    var s1 := SlicedRound(s);
    var s2 := SlicedRound(s1);
    var s3 := SlicedRound(s2);
    var s4 := SlicedRound(s3);
    RoundInLane(s, n);
    RoundInLane(s1, n);
    RoundInLane(s2, n);
    RoundInLane(s3, n);
    TwoBitsInLane(s1.d, n);
    TwoBitsInLane(s2.d, n);
    TwoBitsInLane(s3.d, n);
    TwoBitsInLane(s4.d, n);
    GatheredBits(OutWord(s1.d, true)[n], OutWord(s1.d, false)[n], OutWord(s2.d, true)[n], OutWord(s2.d, false)[n],
                 OutWord(s3.d, true)[n], OutWord(s3.d, false)[n], OutWord(s4.d, true)[n], OutWord(s4.d, false)[n]);
  }

  /* ---- in place ---- */

  function SlicedRounds(s: Slices, n: nat): Slices { if n == 0 then s else SlicedRound(SlicedRounds(s, n - 1)) }

  /** Eight nibbles of the key, and two that are zero. */
  method LoadBank(k: seq<Word>, lo: nat) returns (bank: array<Four>)
    requires 4 * lo + 32 <= |k|
    ensures fresh(bank) && bank.Length == 10 && bank[..] == KeyBank(k, lo)
  {
    hide KeyNibble, Nothing;
    bank := new Four[10](_ => Nothing());
    for i := 0 to 8
      invariant forall j :: 0 <= j < 10 ==> bank[j] == if j < i then KeyNibble(k, lo + j) else Nothing()
    {
      bank[i] := KeyNibble(k, lo + i);
    }
    assert bank[0] == KeyNibble(k, lo);
  }

  /** Ten nibbles moved up one place. */
  method Push(bank: array<Four>, v: Four)
    requires bank.Length == 10
    modifies bank
    ensures bank[..] == ShiftedIn(old(bank[..]), v)
  {
    var k := 9;
    while k > 0
      invariant 0 <= k <= 9
      invariant forall j :: 0 <= j < 10 ==> bank[j] == if j > k then old(bank[j - 1]) else old(bank[j])
    {
      bank[k] := bank[k - 1];
      k := k - 1;
    }
    bank[0] := v;
  }

  lemma FourInARow(s: Slices)
    ensures SlicedRounds(s, 1) == SlicedRound(s) && SlicedRounds(s, 2) == SlicedRound(SlicedRound(s))
    ensures SlicedRounds(s, 3) == SlicedRound(SlicedRound(SlicedRound(s)))
    ensures SlicedRounds(s, 4) == SlicedFourRounds(s)
  {
    hide SlicedRound;
    assert SlicedRounds(s, 0) == s;
    assert SlicedRounds(s, 1) == SlicedRound(SlicedRounds(s, 0));
    assert SlicedRounds(s, 2) == SlicedRound(SlicedRounds(s, 1));
    assert SlicedRounds(s, 3) == SlicedRound(SlicedRounds(s, 2));
    assert SlicedRounds(s, 4) == SlicedRound(SlicedRounds(s, 3));
  }

  /** The words of dvbcsa_bs_stream_cipher_batch. */
  class Registers {
    const a: array<Four>
    const b: array<Four>
    var x: Four
    var y: Four
    var z: Four
    var d: Four
    var e: Four
    var f: Four
    var p: Word
    var q: Word
    var r: Word

    ghost predicate Valid() { a.Length == 10 && b.Length == 10 && a != b }

    ghost function Now(): Slices
      reads this, a, b
      requires Valid()
    {
      Slices(a[..], b[..], x, y, z, d, e, f, p, q, r)
    }

    constructor (k: seq<Word>)
      requires |k| == 64
      ensures Valid() && fresh(a) && fresh(b) && Now() == Start(k)
    {
      var low := LoadBank(k, 0);
      var high := LoadBank(k, 8);
      a, b := low, high;
      x, y, z := Nothing(), Nothing(), Nothing();
      d, e, f := Nothing(), Nothing(), Nothing();
      p, q, r := Zero(), Zero(), Zero();
    }

    method Step(first: Four, second: Four)
      requires Valid()
      modifies this, a, b
      ensures Now() == SlicedStep(old(Now()), first, second)
    {
      hide Boxes1a, Boxes1b, Boxes2a, Boxes2b, Boxes3a, Boxes3b, Boxes4a, Boxes4b, Boxes5a, Boxes5b, Boxes6a, Boxes6b,
          Boxes7a, Boxes7b, ShiftedIn, TurnedWords, SumWords, XorFour, ExtraWords;
      var s := a[..];
      var extra, sum := ExtraWords(b[..]), SumWords(Slices(a[..], b[..], x, y, z, d, e, f, p, q, r));
      Push(a, first);
      Push(b, TurnedWords(second, p));
      d := XorFour(XorFour(e, z), extra);
      e, f, r := f, sum.0, sum.1;
      x := Four(Boxes1a(s), Boxes2a(s), Boxes3b(s), Boxes4b(s));
      y := Four(Boxes3a(s), Boxes4a(s), Boxes5b(s), Boxes6b(s));
      z := Four(Boxes5a(s), Boxes6a(s), Boxes1b(s), Boxes2b(s));
      p, q := Boxes7a(s), Boxes7b(s);
    }

    method Round()
      requires Valid()
      modifies this, a, b
      ensures Now() == SlicedRound(old(Now()))
    {
      hide SlicedStep, XorFour;
      Step(XorFour(a[9], x), XorFour(XorFour(b[6], b[9]), y));
    }

    method InitRound(inA: Four, inB: Four)
      requires Valid()
      modifies this, a, b
      ensures Now() == SlicedInitRound(old(Now()), inA, inB)
    {
      hide SlicedStep, XorFour;
      Step(XorFour(XorFour(XorFour(a[9], x), d), inA), XorFour(XorFour(XorFour(b[6], b[9]), y), inB));
    }

    /** Byte `i` of the first blocks. */
    method Feed(rows: array<Word>, i: nat)
      requires Valid() && rows.Length == 64 && i < 8
      modifies this, a, b
      ensures Now() == SlicedFed(old(Now()), RowNibble(old(rows[..]), 2 * i + 1), RowNibble(old(rows[..]), 2 * i))
    {
      hide SlicedInitRound;
      var in1, in2 := RowNibble(rows[..], 2 * i + 1), RowNibble(rows[..], 2 * i);
      InitRound(in1, in2);
      InitRound(in2, in1);
      InitRound(in1, in2);
      InitRound(in2, in1);
    }

    /** Four rounds put out a byte of every packet's stream. */
    method Generate() returns (cb: array<Word>)
      requires Valid()
      modifies this, a, b
      ensures fresh(cb) && cb.Length == 8 && cb[..] == ByteWords(old(Now())) && Now() == SlicedFourRounds(old(Now()))
    {
      hide SlicedRound, OutWord;
      ghost var s := Now();
      cb := new Word[8];
      for j := 0 to 4
        invariant Now() == SlicedRounds(s, j)
        invariant forall i {:trigger SlicedRounds(s, i)} :: 0 < i <= j ==>
          cb[9 - 2 * i] == OutWord(SlicedRounds(s, i).d, true) && cb[8 - 2 * i] == OutWord(SlicedRounds(s, i).d, false)
      {
        Round();
        cb[7 - 2 * j] := OutWord(d, true);
        cb[6 - 2 * j] := OutWord(d, false);
      }
      FourInARow(s);
      assert cb[0] == cb[8 - 2 * 4] && cb[2] == cb[8 - 2 * 3] && cb[4] == cb[8 - 2 * 2] && cb[6] == cb[8 - 2 * 1];
      assert cb[..] == ByteWords(s);
    }
  }
}
