/** Arithmetic in GF(2^8) with the AES polynomial (section 4 of FIPS 197), up to the fact that
    InvMixColumns undoes MixColumns. */
module GaloisField {
  import opened Bytes

  /** Addition in GF(2^8). A function, so that proofs can treat it as a symbol with laws. */
  function Add(a: Byte, b: Byte): Byte { a ^ b }

  function XTime(a: Byte): Byte {
    (a << 1) ^ (if a & 0x80 != 0 then 0x1b else 0)
  }

  /** The partial product for the lowest bit of `k`. */
  function Term(a: Byte, k: nat): Byte { if k % 2 == 1 then a else 0 }

  /** Multiplication with the AES polynomial: double and add over the bits of `k`. */
  function Mul(a: Byte, k: nat): Byte
    decreases k
  {
    if k == 0 then 0 else Add(Term(a, k), Mul(XTime(a), k / 2))
  }

  lemma AddLaws(a: Byte, b: Byte, c: Byte)
    ensures Add(a, b) == Add(b, a) && Add(Add(a, b), c) == Add(a, Add(b, c)) && Add(a, a) == 0 && Add(a, 0) == a &&
        Add(0, a) == a
  {
  }

  lemma AddInterchange(a: Byte, b: Byte, p: Byte, q: Byte)
    ensures Add(Add(a, b), Add(p, q)) == Add(Add(a, p), Add(b, q))
  {
    hide Add;
    AddLaws(a, b, Add(p, q));
    AddLaws(b, p, q);
    AddLaws(p, b, q);
    AddLaws(a, p, Add(b, q));
  }

  lemma XorInterchange(a: Byte, b: Byte, p: Byte, q: Byte)
    ensures (a ^ b) ^ (p ^ q) == (a ^ p) ^ (b ^ q)
  {
  }

  lemma XTimeLinear(a: Byte, b: Byte)
    ensures XTime(Add(a, b)) == Add(XTime(a), XTime(b))
  {
    ShiftOfXor(a, b);
    TopBitOfXor(a, b);
    XorInterchange(a << 1, b << 1, if a & 0x80 != 0 then 0x1b else 0, if b & 0x80 != 0 then 0x1b else 0);
  }

  lemma ShiftOfXor(a: Byte, b: Byte)
    ensures (a ^ b) << 1 == (a << 1) ^ (b << 1)
  {
  }

  lemma TopBitOfXor(a: Byte, b: Byte)
    ensures (a ^ b) & 0x80 != 0 <==> ((a & 0x80 != 0) != (b & 0x80 != 0))
  {
  }

  /** Multiplication by a constant distributes over addition. */
  lemma {:induction false} MulLinear(a: Byte, b: Byte, k: nat)
    ensures Mul(Add(a, b), k) == Add(Mul(a, k), Mul(b, k))
    decreases k
  {
    if k == 0 {
      AddLaws(0, 0, 0);
    } else {
      hide Add, XTime, Term;
      XTimeLinear(a, b);
      MulLinear(XTime(a), XTime(b), k / 2);
      TermLinear(a, b, k);
      AddInterchange(Term(a, k), Term(b, k), Mul(XTime(a), k / 2), Mul(XTime(b), k / 2));
    }
  }

  lemma TermLinear(a: Byte, b: Byte, k: nat)
    ensures Term(Add(a, b), k) == Add(Term(a, k), Term(b, k))
  {
  }

  /** The source's gf_mul. */
  method ComputeMul(a: Byte, b: nat) returns (result: Byte)
    ensures result == Mul(a, b)
  {
    hide XTime, Add;
    result := 0;
    var x, y := a, b;
    AddLaws(Mul(a, b), 0, 0);
    while y > 0
      invariant Add(result, Mul(x, y)) == Mul(a, b)
    {
      AddLaws(result, Term(x, y), Mul(XTime(x), y / 2));
      if y % 2 == 1 {
        result := AddTo(result, x);
      }
      x := XTime(x);
      y := y / 2;
    }
    AddLaws(result, 0, 0);
  }

  method AddTo(a: Byte, b: Byte) returns (r: Byte)
    ensures r == Add(a, b)
  {
    r := a ^ b;
  }

  /* ---- sums of four, and MixColumns ---- */

  function Sum4(a: Byte, b: Byte, c: Byte, d: Byte): Byte { Add(Add(a, b), Add(c, d)) }

  lemma AddBits(k: nat)
    requires k < 8
    ensures forall u: Byte, v: Byte {:trigger Bit(Add(u, v), k)} :: Bit(Add(u, v), k) == (Bit(u, k) != Bit(v, k))
  {
    forall u: Byte, v: Byte
      ensures Bit(Add(u, v), k) == (Bit(u, k) != Bit(v, k))
    {
      BitOfXor(u, v, k);
    }
  }

  /** The multiples FIPS 197 uses, as sums of powers of x. */
  lemma MulPolynomials(a: Byte)
    ensures var x1 := XTime(a); var x2 := XTime(x1); var x3 := XTime(x2);
            && Mul(a, 2) == x1 && Mul(a, 3) == Add(a, x1)
            && Mul(a, 9) == Add(a, x3) && Mul(a, 11) == Add(a, Add(x1, x3))
            && Mul(a, 13) == Add(a, Add(x2, x3)) && Mul(a, 14) == Add(x1, Add(x2, x3))
  {
    hide Add, XTime, Mul;
    var x1 := XTime(a);
    var x2 := XTime(x1);
    MulSmall(a); MulSmall(x2);
    MulUnfold(a, 9); MulUnfold(x1, 4);
    MulUnfold(a, 11); MulUnfold(x1, 5);
    MulUnfold(a, 13); MulUnfold(x1, 6);
    MulUnfold(a, 14); MulUnfold(x1, 7);
    AddZero(Mul(x2, 2)); AddZero(Mul(x2, 3)); AddZero(Mul(x1, 7));
  }

  lemma MulUnfold(a: Byte, k: nat)
    requires k > 0
    ensures Mul(a, k) == Add(Term(a, k), Mul(XTime(a), k / 2))
  {
  }

  lemma MulSmall(a: Byte)
    ensures Mul(a, 1) == a && Mul(a, 2) == XTime(a) && Mul(a, 3) == Add(a, XTime(a))
  {
    hide Add, XTime;
    AddZero(a);
    AddZero(XTime(a));
    assert Mul(XTime(a), 1) == XTime(a) by { MulByOne(XTime(a)); }
  }

  lemma AddZero(a: Byte)
    ensures Add(a, 0) == a && Add(0, a) == a
  {
  }

  lemma MulByOne(a: Byte)
    ensures Mul(a, 1) == a
  {
    AddZero(a);
  }

  /** The four coefficients of InvMixColumns after MixColumns, as polynomials in x: one, and
      three zeros. No reduction modulo the AES polynomial is needed. */
  lemma PolynomialSums(t0: Byte, t1: Byte, t2: Byte, t3: Byte, t4: Byte)
    ensures var (k9, k11, k13, k14) := (Add(t0, t3), Add(t0, Add(t1, t3)), Add(t0, Add(t2, t3)), Add(t1, Add(t2, t3)));
            var (d9, d11, d13, d14) := (Add(t1, t4), Add(t1, Add(t2, t4)), Add(t1, Add(t3, t4)), Add(t2, Add(t3, t4)));
            && Sum4(d14, k11, k13, Add(k9, d9)) == t0
            && Sum4(Add(k14, d14), d11, k13, k9) == 0
            && Sum4(k14, Add(k11, d11), d13, k9) == 0
            && Sum4(k14, k11, Add(k13, d13), d9) == 0
  {
    var (k9, k11, k13, k14) := (Add(t0, t3), Add(t0, Add(t1, t3)), Add(t0, Add(t2, t3)), Add(t1, Add(t2, t3)));
    var (d9, d11, d13, d14) := (Add(t1, t4), Add(t1, Add(t2, t4)), Add(t1, Add(t3, t4)), Add(t2, Add(t3, t4)));
    var s0, s1 := Sum4(d14, k11, k13, Add(k9, d9)), Sum4(Add(k14, d14), d11, k13, k9);
    var s2, s3 := Sum4(k14, Add(k11, d11), d13, k9), Sum4(k14, k11, Add(k13, d13), d9);
    hide Add, Sum4, Bit;
    forall k | 0 <= k < 8
      ensures Bit(s0, k) == Bit(t0, k) && Bit(s1, k) == Bit(0, k) && Bit(s2, k) == Bit(0, k) && Bit(s3, k) == Bit(0, k)
    {
      PolynomialSumsAt(t0, t1, t2, t3, t4, k);
    }
    SameBitsSameByte(s0, t0);
    SameBitsSameByte(s1, 0);
    SameBitsSameByte(s2, 0);
    SameBitsSameByte(s3, 0);
  }

  lemma PolynomialSumsAt(t0: Byte, t1: Byte, t2: Byte, t3: Byte, t4: Byte, k: nat)
    requires k < 8
    ensures var (k9, k11, k13, k14) := (Add(t0, t3), Add(t0, Add(t1, t3)), Add(t0, Add(t2, t3)), Add(t1, Add(t2, t3)));
            var (d9, d11, d13, d14) := (Add(t1, t4), Add(t1, Add(t2, t4)), Add(t1, Add(t3, t4)), Add(t2, Add(t3, t4)));
            && Bit(Sum4(d14, k11, k13, Add(k9, d9)), k) == Bit(t0, k)
            && Bit(Sum4(Add(k14, d14), d11, k13, k9), k) == Bit(0, k)
            && Bit(Sum4(k14, Add(k11, d11), d13, k9), k) == Bit(0, k)
            && Bit(Sum4(k14, k11, Add(k13, d13), d9), k) == Bit(0, k)
  {
    hide Add, Bit;
    AddBits(k);
    NoBits(k);
  }

  lemma NoBits(k: nat)
    requires k < 8
    ensures !Bit(0, k)
  {
  }

  lemma Coefficients(a: Byte)
    ensures var (a2, a3) := (Mul(a, 2), Mul(a, 3));
            && Sum4(Mul(a2, 14), Mul(a, 11), Mul(a, 13), Mul(a3, 9)) == a
            && Sum4(Mul(a3, 14), Mul(a2, 11), Mul(a, 13), Mul(a, 9)) == 0
            && Sum4(Mul(a, 14), Mul(a3, 11), Mul(a2, 13), Mul(a, 9)) == 0
            && Sum4(Mul(a, 14), Mul(a, 11), Mul(a3, 13), Mul(a2, 9)) == 0
  {
    hide Add, XTime, Mul, Sum4;
    var x1 := XTime(a);
    var x2 := XTime(x1);
    MulPolynomials(a);
    MulPolynomials(x1);
    MulLinear(a, x1, 9); MulLinear(a, x1, 11); MulLinear(a, x1, 13); MulLinear(a, x1, 14);
    PolynomialSums(a, x1, x2, XTime(x2), XTime(XTime(x2)));
  }

  lemma Mul4Linear(a: Byte, b: Byte, c: Byte, d: Byte, k: nat)
    ensures Mul(Sum4(a, b, c, d), k) == Sum4(Mul(a, k), Mul(b, k), Mul(c, k), Mul(d, k))
  {
    hide Add, Mul;
    MulLinear(Add(a, b), Add(c, d), k);
    MulLinear(a, b, k);
    MulLinear(c, d, k);
  }

  /** Four sums of four, added up the other way. */
  lemma Sum4Transpose(a: Byte, b: Byte, c: Byte, d: Byte, e: Byte, f: Byte, g: Byte, h: Byte,
                      i: Byte, j: Byte, k: Byte, l: Byte, m: Byte, n: Byte, o: Byte, p: Byte)
    ensures Sum4(Sum4(a, b, c, d), Sum4(e, f, g, h), Sum4(i, j, k, l), Sum4(m, n, o, p))
         == Sum4(Sum4(a, e, i, m), Sum4(b, f, j, n), Sum4(c, g, k, o), Sum4(d, h, l, p))
  {
    hide Add, Sum4;
    Sum4Interchange(a, b, c, d, e, f, g, h);
    Sum4Interchange(i, j, k, l, m, n, o, p);
    Sum4Interchange(Add(a, e), Add(b, f), Add(c, g), Add(d, h), Add(i, m), Add(j, n), Add(k, o), Add(l, p));
    Sum4Pairs(Sum4(a, b, c, d), Sum4(e, f, g, h), Sum4(i, j, k, l), Sum4(m, n, o, p));
    Sum4Pairs(a, e, i, m);
    Sum4Pairs(b, f, j, n);
    Sum4Pairs(c, g, k, o);
    Sum4Pairs(d, h, l, p);
  }

  lemma Sum4Pairs(a: Byte, b: Byte, c: Byte, d: Byte)
    ensures Sum4(a, b, c, d) == Add(Add(a, b), Add(c, d))
  {
    hide Add;
  }

  lemma Sum4Interchange(a: Byte, b: Byte, c: Byte, d: Byte, e: Byte, f: Byte, g: Byte, h: Byte)
    ensures Add(Sum4(a, b, c, d), Sum4(e, f, g, h)) == Sum4(Add(a, e), Add(b, f), Add(c, g), Add(d, h))
  {
    hide Add;
    AddInterchange(Add(a, b), Add(c, d), Add(e, f), Add(g, h));
    AddInterchange(a, b, e, f);
    AddInterchange(c, d, g, h);
  }

  /** One row of MixColumns; the other three are this one with its arguments rotated. */
  function Mix(a0: Byte, a1: Byte, a2: Byte, a3: Byte): Byte {
    Sum4(Mul(a0, 2), Mul(a1, 3), a2, a3)
  }

  /** One row of InvMixColumns. */
  function InvMix(a0: Byte, a1: Byte, a2: Byte, a3: Byte): Byte {
    Sum4(Mul(a0, 14), Mul(a1, 11), Mul(a2, 13), Mul(a3, 9))
  }

  /** InvMixColumns undoes MixColumns. */
  lemma MixInverse(a0: Byte, a1: Byte, a2: Byte, a3: Byte)
    ensures InvMix(Mix(a0, a1, a2, a3), Mix(a1, a2, a3, a0), Mix(a2, a3, a0, a1), Mix(a3, a0, a1, a2)) == a0
  {
    hide Add, Mul, Sum4;
    Coefficients(a0); Coefficients(a1); Coefficients(a2); Coefficients(a3);
    Mul4Linear(Mul(a0, 2), Mul(a1, 3), a2, a3, 14);
    Mul4Linear(Mul(a1, 2), Mul(a2, 3), a3, a0, 11);
    Mul4Linear(Mul(a2, 2), Mul(a3, 3), a0, a1, 13);
    Mul4Linear(Mul(a3, 2), Mul(a0, 3), a1, a2, 9);
    // Each row of products, with the terms of a0, a1, a2, a3 in that order.
    Sum4Rotate(Mul(Mul(a1, 2), 11), Mul(Mul(a2, 3), 11), Mul(a3, 11), Mul(a0, 11));
    Sum4Rotate(Mul(Mul(a2, 2), 13), Mul(Mul(a3, 3), 13), Mul(a0, 13), Mul(a1, 13));
    Sum4Rotate(Mul(Mul(a3, 2), 9), Mul(Mul(a0, 3), 9), Mul(a1, 9), Mul(a2, 9));
    Sum4Transpose(
      Mul(Mul(a0, 2), 14), Mul(Mul(a1, 3), 14), Mul(a2, 14), Mul(a3, 14),
      Mul(a0, 11), Mul(Mul(a1, 2), 11), Mul(Mul(a2, 3), 11), Mul(a3, 11),
      Mul(a0, 13), Mul(a1, 13), Mul(Mul(a2, 2), 13), Mul(Mul(a3, 3), 13),
      Mul(Mul(a0, 3), 9), Mul(a1, 9), Mul(a2, 9), Mul(Mul(a3, 2), 9));
    Sum4Zero(a0);
  }

  lemma Sum4Rotate(a: Byte, b: Byte, c: Byte, d: Byte)
    ensures Sum4(a, b, c, d) == Sum4(d, a, b, c) == Sum4(c, d, a, b) == Sum4(b, c, d, a)
  {
    hide Add;
    AddLaws(Add(a, b), Add(c, d), 0);
    AddLaws(Add(b, c), Add(d, a), 0);
    AddInterchange(a, b, d, c);
    AddLaws(c, d, 0);
    AddLaws(a, d, 0);
  }

  lemma Sum4Zero(a: Byte)
    ensures Sum4(a, 0, 0, 0) == a
  {
    hide Add;
    AddZero(a);
    AddZero(0);
  }
}
