/** The bit-sliced stream cipher of third_party/libdvbcsa/dvbcsa_bs_stream.c. A bit of each of its words
    belongs to one packet, and every step is a logical operation bit by bit; so one packet sees the circuit
    below. It makes the stream that dvbcsa_stream.c makes with tables. */
module DvbCsaLane {
  import opened Bytes
  import opened DvbCsaTables
  import opened DvbCsa

  /** Ten nibbles each of A and B, six nibbles more, and three bits: a lane of all the words. */
  datatype Lane = Lane(a: bv40, b: bv40, x: bv4, y: bv4, z: bv4, d: bv4, e: bv4, f: bv4, p: bv1, q: bv1, r: bv1)

  /** Bit `i` of nibble `k`. */
  function At(a: bv40, k: bv40, i: bv40): bv1
    requires k < 10 && i < 4
  {
    ((a >> (4 * k + i)) & 1) as bv1
  }

  function Bit4(n: bv4, i: bv4): bv1
    requires i < 4
  {
    ((n >> i) & 1) as bv1
  }

  function Nibble(b3: bv1, b2: bv1, b1: bv1, b0: bv1): bv4 {
    ((b3 as bv4) << 3) | ((b2 as bv4) << 2) | ((b1 as bv4) << 1) | (b0 as bv4)
  }

  /* ---- the circuits of the seven substitutions ---- */

  function S1a(a: bv1, b: bv1, c: bv1, d: bv1, e: bv1): bv1 {
    var t0 := a ^ b ^ !(((a | b) ^ c) | (c ^ d));
    var t1 := (a | b) ^ !(c & (a | (b ^ d)));
    t0 ^ (e & t1)
  }

  function S1b(a: bv1, b: bv1, c: bv1, d: bv1, e: bv1): bv1 {
    var t2 := a ^ (b & d) ^ ((a & d) | c);
    var t3 := (a & c) ^ a ^ ((a & b) | d);
    t2 ^ (e & t3)
  }

  function S2a(a: bv1, b: bv1, c: bv1, d: bv1, e: bv1): bv1 {
    var t0 := a ^ (b & (c | d)) ^ c ^ !d;
    var t1 := (a & (b ^ d)) | ((a | b) & c);
    t0 ^ (e & t1)
  }

  function S2b(a: bv1, b: bv1, c: bv1, d: bv1, e: bv1): bv1 {
    var t2 := (b & d) ^ ((a & d) | (b ^ !c));
    var t3 := (a & d) | (a ^ b ^ (c & d));
    t2 ^ (e & t3)
  }

  function S3a(a: bv1, b: bv1, c: bv1, d: bv1, e: bv1): bv1 {
    var t0 := a ^ b ^ (c & (a | d)) ^ d;
    var t1 := (a & c) ^ ((a ^ d) | ((b | c) ^ !d));
    t0 ^ (!e & t1)
  }

  function S3b(a: bv1, b: bv1, c: bv1, d: bv1, e: bv1): bv1 {
    var t2 := a ^ ((b ^ c) & d) ^ c;
    t2 ^ e
  }

  function S4a(a: bv1, b: bv1, c: bv1, d: bv1, e: bv1): bv1 {
    var t0 := a ^ ((c & (a ^ d)) | (b ^ (c | !d)));
    var t1 := (a & b) ^ b ^ ((a | c) & d) ^ c;
    t0 ^ (e & (t1 ^ t0))
  }

  function S4b(a: bv1, b: bv1, c: bv1, d: bv1, e: bv1): bv1 {
    var t2 := a ^ ((b & c) | (((a & (b ^ d)) | c) ^ d));
    S4a(a, b, c, d, e) ^ t2 ^ e
  }

  function S5a(a: bv1, b: bv1, c: bv1, d: bv1, e: bv1): bv1 {
    var t0 := ((a & (b | c)) ^ b) | !((a ^ c) | d);
    var t1 := b ^ ((c ^ d) & (c ^ (b | (a ^ d))));
    t0 ^ (e & t1)
  }

  function S5b(a: bv1, b: bv1, c: bv1, d: bv1, e: bv1): bv1 {
    var t2 := (a & c) ^ b ^ ((b | (a ^ c)) & d);
    var t3 := ((a ^ b) & !c) | d;
    t2 ^ (e & t3)
  }

  function S6a(a: bv1, b: bv1, c: bv1, d: bv1, e: bv1): bv1 {
    var t0 := (a & c & d) ^ (b & (a | d)) ^ c;
    var t1 := !((a ^ c) & d);
    t0 ^ (e & t1)
  }

  function S6b(a: bv1, b: bv1, c: bv1, d: bv1, e: bv1): bv1 {
    var t2 := (a & (b | c)) ^ b ^ ((b & c) | d);
    var t3 := c & ((a & (b ^ d)) ^ (b | d));
    t2 ^ (e & t3)
  }

  function S7a(a: bv1, b: bv1, c: bv1, d: bv1, e: bv1): bv1 {
    var t0 := b ^ ((c & d) | (a ^ c ^ d));
    var t1 := (b | d) & ((a & c) | (b ^ c ^ d));
    t0 ^ (e & t1)
  }

  function S7b(a: bv1, b: bv1, c: bv1, d: bv1, e: bv1): bv1 {
    var t2 := (a | b) ^ (c & (b | d)) ^ d;
    var t3 := d | !(a & c);
    t2 ^ (e & t3)
  }

  /* ---- each on its five bits of the register ---- */

  function Box1a(a: bv40): bv1 { S1a(At(a, 0, 2), At(a, 5, 1), At(a, 6, 3), At(a, 8, 0), At(a, 3, 0)) }

  function Box1b(a: bv40): bv1 { S1b(At(a, 0, 2), At(a, 5, 1), At(a, 6, 3), At(a, 8, 0), At(a, 3, 0)) }

  function Box2a(a: bv40): bv1 { S2a(At(a, 2, 2), At(a, 5, 3), At(a, 6, 0), At(a, 8, 1), At(a, 1, 1)) }

  function Box2b(a: bv40): bv1 { S2b(At(a, 2, 2), At(a, 5, 3), At(a, 6, 0), At(a, 8, 1), At(a, 1, 1)) }

  function Box3a(a: bv40): bv1 { S3a(At(a, 1, 0), At(a, 4, 1), At(a, 4, 3), At(a, 5, 2), At(a, 0, 3)) }

  function Box3b(a: bv40): bv1 { S3b(At(a, 1, 0), At(a, 4, 1), At(a, 4, 3), At(a, 5, 2), At(a, 0, 3)) }

  function Box4a(a: bv40): bv1 { S4a(At(a, 0, 1), At(a, 1, 3), At(a, 3, 2), At(a, 7, 0), At(a, 2, 3)) }

  function Box4b(a: bv40): bv1 { S4b(At(a, 0, 1), At(a, 1, 3), At(a, 3, 2), At(a, 7, 0), At(a, 2, 3)) }

  function Box5a(a: bv40): bv1 { S5a(At(a, 3, 3), At(a, 5, 0), At(a, 7, 1), At(a, 8, 2), At(a, 4, 2)) }

  function Box5b(a: bv40): bv1 { S5b(At(a, 3, 3), At(a, 5, 0), At(a, 7, 1), At(a, 8, 2), At(a, 4, 2)) }

  function Box6a(a: bv40): bv1 { S6a(At(a, 3, 1), At(a, 4, 0), At(a, 6, 2), At(a, 8, 3), At(a, 2, 1)) }

  function Box6b(a: bv40): bv1 { S6b(At(a, 3, 1), At(a, 4, 0), At(a, 6, 2), At(a, 8, 3), At(a, 2, 1)) }

  function Box7a(a: bv40): bv1 { S7a(At(a, 2, 0), At(a, 6, 1), At(a, 7, 2), At(a, 7, 3), At(a, 1, 2)) }

  function Box7b(a: bv40): bv1 { S7b(At(a, 2, 0), At(a, 6, 1), At(a, 7, 2), At(a, 7, 3), At(a, 1, 2)) }

  /* ---- against the tables ---- */

  /** The ten nibbles of a register that are ever read. */
  function Kept(u: bv64): bv40 { (u & 0xff_ffff_ffff) as bv40 }

  function Pair(a: bv1, i: bv32, b: bv1, j: bv32): bv32
    requires i < 32 && j < 32
  {
    ((a as bv32) << i) | ((b as bv32) << j)
  }

  lemma Table1(u: bv64, n: bv4)
    ensures StreamTable0(Index0(Pushed(u, Wide(n)))) == Pair(Box1a(Kept(u)), 0, Box1b(Kept(u)), 10)
  {
  }

  lemma Table2(u: bv64, n: bv4)
    ensures StreamTable1(Index1(Pushed(u, Wide(n)))) == Pair(Box2a(Kept(u)), 1, Box2b(Kept(u)), 11)
  {
  }

  lemma Table3(u: bv64, n: bv4)
    ensures StreamTable2(Index2(Pushed(u, Wide(n)))) == Pair(Box3a(Kept(u)), 4, Box3b(Kept(u)), 2)
  {
  }

  lemma Table4(u: bv64, n: bv4)
    ensures StreamTable3(Index3(Pushed(u, Wide(n)))) == Pair(Box4a(Kept(u)), 5, Box4b(Kept(u)), 3)
  {
  }

  lemma Table5(u: bv64, n: bv4)
    ensures StreamTable4(Index4(Pushed(u, Wide(n)))) == Pair(Box5a(Kept(u)), 8, Box5b(Kept(u)), 6)
  {
  }

  lemma Table6(u: bv64, n: bv4)
    ensures StreamTable5(Index5(Pushed(u, Wide(n)))) == Pair(Box6a(Kept(u)), 9, Box6b(Kept(u)), 7)
  {
  }

  lemma Table7(u: bv64, n: bv4)
    ensures StreamTable6(Index6(Pushed(u, Wide(n)))) == Pair(Box7a(Kept(u)), 12, Box7b(Kept(u)), 13)
  {
  }

  /** The bits of the seven substitutions, each in its place. */
  function Flags(a: bv40): bv32 {
    Joined(Pair(Box2a(a), 1, Box2b(a), 11),
           Pair(Box5a(a), 8, Box5b(a), 6),
           Pair(Box6a(a), 9, Box6b(a), 7),
           Pair(Box1a(a), 0, Box1b(a), 10),
           Pair(Box3a(a), 4, Box3b(a), 2),
           Pair(Box4a(a), 5, Box4b(a), 3),
           Pair(Box7a(a), 12, Box7b(a), 13))
  }

  lemma SubstitutedAgrees(u: bv64, n: bv4)
    ensures Substituted(Pushed(u, Wide(n))) == Flags(Kept(u))
  {
    hide Kept, Pushed, Pair, Joined;
    hide Box1a, Box1b, Box2a, Box2b, Box3a, Box3b, Box4a, Box4b, Box5a, Box5b, Box6a, Box6b, Box7a, Box7b;
    hide StreamTable0, StreamTable1, StreamTable2, StreamTable3, StreamTable4, StreamTable5, StreamTable6;
    hide Index0, Index1, Index2, Index3, Index4, Index5, Index6;
    Table1(u, n);
    Table2(u, n);
    Table3(u, n);
    Table4(u, n);
    Table5(u, n);
    Table6(u, n);
    Table7(u, n);
  }

  /* ---- a round of the circuit ---- */

  /** A lane after its words are replaced by the substitutions of A as it was. */
  function Boxed(l: Lane, a: bv40, b: bv40, d: bv4, e: bv4, f: bv4, r: bv1): Lane {
    var o := l.a;
    Lane(a, b, Nibble(Box4b(o), Box3b(o), Box2a(o), Box1a(o)), Nibble(Box6b(o), Box5b(o), Box4a(o), Box3a(o)),
         Nibble(Box2b(o), Box1b(o), Box6a(o), Box5a(o)), d, e, f, Box7a(o), Box7b(o), r)
  }

  /** What B adds to D. */
  function Extra(b: bv40): bv4 {
    Nibble(At(b, 2, 0) ^ At(b, 5, 1) ^ At(b, 6, 2) ^ At(b, 8, 3), At(b, 5, 0) ^ At(b, 7, 1) ^ At(b, 2, 3) ^ At(b, 3, 2),
           At(b, 4, 3) ^ At(b, 7, 2) ^ At(b, 3, 0) ^ At(b, 4, 1), At(b, 8, 2) ^ At(b, 5, 3) ^ At(b, 2, 1) ^ At(b, 7, 0))
  }

  /** Each bit takes the one below it where p is set, the lowest the highest. */
  function Turned(n: bv4, p: bv1): bv4 {
    var n3, n2, n1, n0 := Bit4(n, 3), Bit4(n, 2), Bit4(n, 1), Bit4(n, 0);
    Nibble(n3 ^ ((n3 ^ n2) & p), n2 ^ ((n2 ^ n1) & p), n1 ^ ((n1 ^ n0) & p), n0 ^ ((n0 ^ n3) & p))
  }

  /** One bit of the sum: the bit that F takes, and the carry. */
  function SumBit(z: bv1, e: bv1, q: bv1, carry: bv1): bv1 { e ^ (q & (z ^ carry)) }

  function Carry(z: bv1, e: bv1, carry: bv1): bv1 { (z & e) | ((z ^ e) & carry) }

  /** F takes E, or the sum of Z, E and r if q is set; r then takes the last carry. */
  function Sum(l: Lane): (bv4, bv1) {
    var c1 := Carry(Bit4(l.z, 0), Bit4(l.e, 0), l.r);
    var c2 := Carry(Bit4(l.z, 1), Bit4(l.e, 1), c1);
    var c3 := Carry(Bit4(l.z, 2), Bit4(l.e, 2), c2);
    var c4 := Carry(Bit4(l.z, 3), Bit4(l.e, 3), c3);
    (Nibble(SumBit(Bit4(l.z, 3), Bit4(l.e, 3), l.q, c3), SumBit(Bit4(l.z, 2), Bit4(l.e, 2), l.q, c2),
            SumBit(Bit4(l.z, 1), Bit4(l.e, 1), l.q, c1), SumBit(Bit4(l.z, 0), Bit4(l.e, 0), l.q, l.r)),
     l.r ^ (l.q & (c4 ^ l.r)))
  }

  function Top(a: bv40, k: bv40): bv4
    requires k < 10
  {
    ((a >> (4 * k)) & 0xf) as bv4
  }

  function Shifted(a: bv40, n: bv4): bv40 { (a << 4) | (n as bv40) }

  /** What is fed back into A and B, and what D takes. */
  function FirstBits(l: Lane): bv4 { Top(l.a, 9) ^ l.x }

  function InitFirstBits(l: Lane, inA: bv4): bv4 { Top(l.a, 9) ^ l.x ^ l.d ^ inA }

  function SecondBits(l: Lane): bv4 { Top(l.b, 6) ^ Top(l.b, 9) ^ l.y }

  function InitSecondBits(l: Lane, inB: bv4): bv4 { Top(l.b, 6) ^ Top(l.b, 9) ^ l.y ^ inB }

  function NextD(l: Lane): bv4 { l.e ^ l.z ^ Extra(l.b) }

  /** A round of the start: `inA` and `inB` are the nibbles of the block fed in. */
  function LaneInitRound(l: Lane, inA: bv4, inB: bv4): Lane {
    LaneStepped(l, InitFirstBits(l, inA), InitSecondBits(l, inB))
  }

  function LaneRound(l: Lane): Lane {
    LaneStepped(l, FirstBits(l), SecondBits(l))
  }

  function LaneStepped(l: Lane, first: bv4, second: bv4): Lane {
    var sum := Sum(l);
    Boxed(l, Shifted(l.a, first), Shifted(l.b, Turned(second, l.p)), NextD(l), l.f, sum.0, sum.1)
  }

  /* ---- it is the round of the tables ---- */

  function Wide(n: bv4): bv32 { n as bv32 }

  function PackedP(x: bv4, y: bv4, z: bv4, p: bv1, q: bv1): bv32 {
    (x as bv32) | ((y as bv32) << 4) | ((z as bv32) << 8) | ((p as bv32) << 12) | ((q as bv32) << 13)
  }

  function PackedC(d: bv4, e: bv4, f: bv4, r: bv1): bv32 {
    (d as bv32) | ((e as bv32) << 4) | ((f as bv32) << 8) | ((r as bv32) << 12)
  }

  /** The registers of the table-driven cipher hold what the lane does. */
  ghost predicate Agrees(s: Stream, l: Lane) {
    && Kept(s.a) == l.a && Kept(s.b) == l.b
    && s.pqzyx == PackedP(l.x, l.y, l.z, l.p, l.q) && s.cfed == PackedC(l.d, l.e, l.f, l.r)
  }

  lemma SelectedBits(v: bv64)
    ensures Selected(v) == Wide(Extra(Kept(v >> 4)))
  {
  }

  lemma Unpushed(u: bv64, n: bv32)
    requires n < 16
    ensures Kept(Pushed(u, n) >> 4) == Kept(u)
  {
  }

  lemma ExtraAgrees(u: bv64, n: bv4)
    ensures Selected(Pushed(u, Wide(n))) == Wide(Extra(Kept(u)))
  {
    assert Wide(n) < 16;
    hide Selected, Pushed, Wide, Kept, Extra;
    Unpushed(u, Wide(n));
    SelectedBits(Pushed(u, Wide(n)));
  }

  lemma TurnedAgrees(l: Lane, n: bv4)
    ensures Rotated(PackedP(l.x, l.y, l.z, l.p, l.q), Wide(n)) == Wide(Turned(n, l.p))
  {
  }

  /* The large table: D takes Z and E mixed, F takes E, or with q set the sum of Z, E and the carry, which
     overflows into the next carry. */

  function Mixed(x: Byte): bv32 { (((x >> 4) ^ x) & 0xf) as bv32 }

  function SumOf(x: Byte, carry: bv32): bv32 { ((x >> 4) as bv32) + ((x & 0xf) as bv32) + carry }

  lemma SumTable00IsE(x: Byte)
    ensures SumTable00(x) == Mixed(x) | (((x & 0xf) as bv32) << 8)
  {
  }

  lemma SumTable01IsE(x: Byte)
    ensures SumTable01(x) == Mixed(x) | (((x & 0xf) as bv32) << 8) | 0x1000
  {
  }

  lemma SumTable10IsSum(x: Byte)
    ensures SumTable10(x) == Mixed(x) | (SumOf(x, 0) << 8)
  {
  }

  lemma SumTable11IsSum(x: Byte)
    ensures SumTable11(x) == Mixed(x) | (SumOf(x, 1) << 8)
  {
  }

  /** One byte of Z over E, and the part of the table that q and the carry choose. */
  function ZE(l: Lane): Byte { ((l.z as Byte) << 4) | (l.e as Byte) }

  function Part(q: bv1, r: bv1, x: Byte): bv32 {
    if q == 0 then (if r == 0 then SumTable00(x) else SumTable01(x))
    else (if r == 0 then SumTable10(x) else SumTable11(x))
  }

  function Joint(q: bv1, r: bv1, x: Byte): bv32 { ((q as bv32) << 9) | ((r as bv32) << 8) | (x as bv32) }

  lemma SumTableParts(q: bv1, r: bv1, x: Byte)
    ensures Joint(q, r, x) < 0x400 && SumTable(Joint(q, r, x)) == Part(q, r, x)
  {
    hide SumTable00, SumTable01, SumTable10, SumTable11;
  }

  lemma SumIndexParts(l: Lane)
    ensures SumIndex(PackedP(l.x, l.y, l.z, l.p, l.q), PackedC(l.d, l.e, l.f, l.r)) == Joint(l.q, l.r, ZE(l))
  {
  }

  lemma PassedF(l: Lane)
    ensures (PackedC(l.d, l.e, l.f, l.r) & 0x0f00) >> 4 == Wide(l.f) << 4
  {
  }

  lemma LookedUp(l: Lane)
    ensures Advanced(PackedP(l.x, l.y, l.z, l.p, l.q), PackedC(l.d, l.e, l.f, l.r)) == (Wide(l.f) << 4) |
        Part(l.q, l.r, ZE(l))
  {
    hide SumTable, SumIndex, Part, Joint, ZE, PackedP, PackedC, Wide;
    SumIndexParts(l);
    SumTableParts(l.q, l.r, ZE(l));
    PassedF(l);
  }

  lemma PartIsSum(l: Lane)
    ensures var sum := Sum(l); Part(l.q, l.r, ZE(l)) == PackedC(l.e ^ l.z, 0, sum.0, sum.1)
  {
    hide SumTable00, SumTable01, SumTable10, SumTable11;
    SumTable00IsE(ZE(l));
    SumTable01IsE(ZE(l));
    SumTable10IsSum(ZE(l));
    SumTable11IsSum(ZE(l));
  }

  lemma SumAgrees(l: Lane, b: bv64)
    requires Selected(b) == Wide(Extra(l.b))
    ensures var sum := Sum(l);
            Cfed(PackedP(l.x, l.y, l.z, l.p, l.q), PackedC(l.d, l.e, l.f, l.r), b) ==
                PackedC(NextD(l), l.f, sum.0, sum.1)
  {
    hide Selected, Extra, Part, Advanced, Sum;
    LookedUp(l);
    PartIsSum(l);
  }

  lemma PushedNibble(u: bv64, n: bv4)
    ensures Pushed(u, Wide(n)) == (u << 4) | (n as bv64)
  {
  }

  lemma KeptNibble(u: bv64, n: bv4)
    ensures Kept((u << 4) | (n as bv64)) == Shifted(Kept(u), n)
  {
  }

  lemma PushedAgrees(u: bv64, n: bv4)
    ensures Kept(Pushed(u, Wide(n))) == Shifted(Kept(u), n)
  {
    hide Pushed, Wide, Kept, Shifted;
    PushedNibble(u, n);
    KeptNibble(u, n);
  }

  lemma FlagsPacked(s1a: bv1, s1b: bv1, s2a: bv1, s2b: bv1, s3a: bv1, s3b: bv1, s4a: bv1, s4b: bv1,
                    s5a: bv1, s5b: bv1, s6a: bv1, s6b: bv1, s7a: bv1, s7b: bv1)
    ensures Joined(Pair(s2a, 1, s2b, 11),
                   Pair(s5a, 8, s5b, 6),
                   Pair(s6a, 9, s6b, 7),
                   Pair(s1a, 0, s1b, 10),
                   Pair(s3a, 4, s3b, 2),
                   Pair(s4a, 5, s4b, 3),
                   Pair(s7a, 12, s7b, 13))
         == PackedP(Nibble(s4b, s3b, s2a, s1a), Nibble(s6b, s5b, s4a, s3a), Nibble(s2b, s1b, s6a, s5a), s7a, s7b)
  {
  }

  lemma BoxedAgrees(l: Lane, a: bv40, b: bv40, d: bv4, e: bv4, f: bv4, r: bv1)
    ensures var m := Boxed(l, a, b, d, e, f, r); Flags(l.a) == PackedP(m.x, m.y, m.z, m.p, m.q)
  {
    hide Pair, Joined, Nibble, PackedP;
    hide Box1a, Box1b, Box2a, Box2b, Box3a, Box3b, Box4a, Box4b, Box5a, Box5b, Box6a, Box6b, Box7a, Box7b;
    var o := l.a;
    FlagsPacked(Box1a(o), Box1b(o), Box2a(o), Box2b(o), Box3a(o), Box3b(o), Box4a(o), Box4b(o),
                Box5a(o), Box5b(o), Box6a(o), Box6b(o), Box7a(o), Box7b(o));
  }

  lemma CfedAgrees(s: Stream, l: Lane, turned: bv4)
    requires Agrees(s, l)
    ensures var sum := Sum(l);
            Cfed(s.pqzyx, s.cfed, Pushed(s.b, Wide(turned))) == PackedC(NextD(l), l.f, sum.0, sum.1)
  {
    hide Kept, PackedP, PackedC, Cfed, Selected, Extra, Sum, Pushed, Wide, NextD;
    ExtraAgrees(s.b, turned);
    SumAgrees(l, Pushed(s.b, Wide(turned)));
  }

  lemma SteppedAgrees(s: Stream, l: Lane, first: bv4, second: bv4)
    requires Agrees(s, l)
    ensures Agrees(Stepped(s, Wide(first), Wide(second)), LaneStepped(l, first, second))
  {
    hide Kept, PackedP, PackedC, Substituted, Cfed, Rotated, Extra, Turned, Sum, Flags, Pushed, Wide;
    hide Shifted, NextD, Nibble;
    var turned := Turned(second, l.p);
    TurnedAgrees(l, second);
    PushedAgrees(s.a, first);
    PushedAgrees(s.b, turned);
    CfedAgrees(s, l, turned);
    SubstitutedAgrees(s.a, first);
    var next := LaneStepped(l, first, second);
    BoxedAgrees(l, next.a, next.b, next.d, next.e, next.f, next.r);
  }

  lemma FirstAgrees(s: Stream, l: Lane)
    requires Agrees(s, l)
    ensures FirstNibble(s, 0) == Wide(FirstBits(l)) && SecondNibble(s, 0) == Wide(SecondBits(l))
  {
  }

  /** The nibbles of a byte. */
  function High(b: Byte): bv4 { (b >> 4) as bv4 }

  function Low(b: Byte): bv4 { (b & 0xf) as bv4 }

  lemma InitFirstAgrees(s: Stream, l: Lane, iv: Byte)
    requires Agrees(s, l)
    ensures FirstNibble(s, s.cfed ^ ((iv as bv32) >> 4)) == Wide(InitFirstBits(l, High(iv)))
  {
  }

  lemma InitSecondAgrees(s: Stream, l: Lane, iv: Byte)
    requires Agrees(s, l)
    ensures SecondNibble(s, iv as bv32) == Wide(InitSecondBits(l, Low(iv)))
  {
  }

  lemma RoundAgrees(s: Stream, l: Lane)
    requires Agrees(s, l)
    ensures Agrees(Round(s), LaneRound(l))
  {
    hide Agrees, FirstNibble, SecondNibble, Stepped, LaneStepped, FirstBits, SecondBits, Wide;
    FirstAgrees(s, l);
    SteppedAgrees(s, l, FirstBits(l), SecondBits(l));
  }

  lemma InitRoundAgrees(s: Stream, l: Lane, iv: Byte)
    requires Agrees(s, l)
    ensures Agrees(InitRound(s, iv), LaneInitRound(l, High(iv), Low(iv)))
  {
    hide Agrees, FirstNibble, SecondNibble, Stepped, LaneStepped, InitFirstBits, InitSecondBits, Wide, High, Low;
    InitFirstAgrees(s, l, iv);
    InitSecondAgrees(s, l, iv);
    SteppedAgrees(s, l, InitFirstBits(l, High(iv)), InitSecondBits(l, Low(iv)));
  }

  /* ---- whole streams ---- */

  /** The key's 64 words for the stream, here in one lane: bit `i` is bit `i ^ 4` of the control word. */
  function StreamBits(w: bv32): bv32 { ((w >> 4) & 0x0f0f0f0f) | ((w & 0x0f0f0f0f) << 4) }

  function EightNibbles(w: bv32): bv40 { w as bv40 }

  function LaneLoaded(word: seq<Byte>): Lane
    requires |word| == 8
  {
    Lane(EightNibbles(StreamBits(Load32(word[..4]))), EightNibbles(StreamBits(Load32(word[4..]))), 0, 0, 0, 0, 0, 0,
        0, 0, 0)
  }

  function LaneFed(l: Lane, iv: Byte): Lane {
    LaneInitRound(LaneInitRound(LaneInitRound(LaneInitRound(l, High(iv), Low(iv)), Low(iv), High(iv)),
                                High(iv), Low(iv)), Low(iv), High(iv))
  }

  function LaneFedBytes(l: Lane, iv: seq<Byte>): Lane {
    if iv == [] then l else LaneFed(LaneFedBytes(l, iv[..|iv| - 1]), iv[|iv| - 1])
  }

  function LaneStarted(word: seq<Byte>, first: seq<Byte>): Lane
    requires |word| == 8
  {
    LaneFedBytes(LaneLoaded(word), first)
  }

  /** The two bits that a round puts out. */
  function TwoBits(d: bv4): Byte {
    (((Bit4(d, 2) ^ Bit4(d, 3)) as Byte) << 1) | ((Bit4(d, 0) ^ Bit4(d, 1)) as Byte)
  }

  function LaneFourRounds(l: Lane): Lane { LaneRound(LaneRound(LaneRound(LaneRound(l)))) }

  function LaneByte(l: Lane): Byte {
    var l1 := LaneRound(l);
    var l2 := LaneRound(l1);
    var l3 := LaneRound(l2);
    Gathered(TwoBits(l1.d), TwoBits(l2.d), TwoBits(l3.d), TwoBits(LaneRound(l3).d))
  }

  function Gathered(b1: Byte, b2: Byte, b3: Byte, b4: Byte): Byte { (b1 << 6) | (b2 << 4) | (b3 << 2) | b4 }

  function LaneKeystream(l: Lane, n: nat): (k: seq<Byte>)
    ensures |k| == n
    decreases n
  {
    hide LaneByte, LaneFourRounds;
    if n == 0 then [] else [LaneByte(l)] + LaneKeystream(LaneFourRounds(l), n - 1)
  }

  lemma KeptRegister(w: bv32)
    ensures Kept(Register(w)) == EightNibbles(w)
  {
  }

  lemma StreamBitsSwap(w: bv32)
    ensures SwappedHalf(w) == StreamBits(w)
  {
  }

  lemma LoadedAgrees(word: seq<Byte>)
    requires |word| == 8
    ensures Agrees(Loaded(word), LaneLoaded(word))
  {
    hide Load32, StreamBits, SwappedHalf, Kept, Register, EightNibbles, PackedP, PackedC;
    StreamBitsSwap(Load32(word[..4]));
    StreamBitsSwap(Load32(word[4..]));
    KeptRegister(StreamBits(Load32(word[..4])));
    KeptRegister(StreamBits(Load32(word[4..])));
    NothingPacked();
  }

  lemma NothingPacked()
    ensures PackedP(0, 0, 0, 0, 0) == 0 && PackedC(0, 0, 0, 0) == 0
  {
  }

  lemma NibblesSwapped(b: Byte)
    ensures High(SwapNibbles(b)) == Low(b) && Low(SwapNibbles(b)) == High(b)
  {
  }

  lemma FedAgrees(s: Stream, l: Lane, iv: Byte)
    requires Agrees(s, l)
    ensures Agrees(Fed(s, iv), LaneFed(l, iv))
  {
    hide Agrees, InitRound, LaneInitRound, High, Low, SwapNibbles;
    var h, w, swapped := High(iv), Low(iv), SwapNibbles(iv);
    NibblesSwapped(iv);
    var s1, l1 := InitRound(s, iv), LaneInitRound(l, h, w);
    var s2, l2 := InitRound(s1, swapped), LaneInitRound(l1, w, h);
    InitRoundAgrees(s, l, iv);
    InitRoundAgrees(s1, l1, swapped);
    InitRoundAgrees(s2, l2, iv);
    InitRoundAgrees(InitRound(s2, iv), LaneInitRound(l2, h, w), swapped);
  }

  lemma {:induction false} FedBytesAgree(s: Stream, l: Lane, iv: seq<Byte>)
    requires Agrees(s, l)
    ensures Agrees(FedBytes(s, iv), LaneFedBytes(l, iv))
  {
    hide Agrees, Fed, LaneFed;
    if iv != [] {
      FedBytesAgree(s, l, iv[..|iv| - 1]);
      FedAgrees(FedBytes(s, iv[..|iv| - 1]), LaneFedBytes(l, iv[..|iv| - 1]), iv[|iv| - 1]);
    }
  }

  /** Both start alike. */
  lemma StartsAgree(word: seq<Byte>, first: seq<Byte>)
    requires |word| == 8
    ensures Agrees(Started(word, first), LaneStarted(word, first))
  {
    hide Agrees, FedBytes, LaneFedBytes, Loaded, LaneLoaded;
    LoadedAgrees(word);
    FedBytesAgree(Loaded(word), LaneLoaded(word), first);
  }

  lemma OutputAgrees(s: Stream, l: Lane)
    requires Agrees(s, l)
    ensures Output(s) == DoubledBits(TwoBits(l.d))
  {
    LowNibble(l);
    TableOfBits(l.d);
  }

  lemma LowNibble(l: Lane)
    ensures PackedC(l.d, l.e, l.f, l.r) & 0xf == Wide(l.d)
  {
  }

  function DoubledBits(two: Byte): Byte { (two << 6) | (two << 4) | (two << 2) | two }

  lemma TableOfBits(d: bv4)
    ensures OutputTable(Wide(d)) == DoubledBits(TwoBits(d))
  {
  }

  lemma Gathering(b1: Byte, b2: Byte, b3: Byte, b4: Byte)
    requires b1 < 4 && b2 < 4 && b3 < 4 && b4 < 4
    ensures Merged(DoubledBits(b1), DoubledBits(b2), DoubledBits(b3), DoubledBits(b4)) == Gathered(b1, b2, b3, b4)
  {
  }

  lemma TwoBitsSmall(d: bv4)
    ensures TwoBits(d) < 4
  {
  }

  lemma ByteAgrees(s: Stream, l: Lane)
    requires Agrees(s, l)
    ensures OutputByte(s) == LaneByte(l) && Agrees(FourRounds(s), LaneFourRounds(l))
  {
    hide Agrees, Round, LaneRound, Output, TwoBits, DoubledBits, Gathered, Merged;
    var s1, l1 := Round(s), LaneRound(l);
    var s2, l2 := Round(s1), LaneRound(l1);
    var s3, l3 := Round(s2), LaneRound(l2);
    var s4, l4 := Round(s3), LaneRound(l3);
    RoundAgrees(s, l);
    RoundAgrees(s1, l1);
    RoundAgrees(s2, l2);
    RoundAgrees(s3, l3);
    OutputAgrees(s1, l1);
    OutputAgrees(s2, l2);
    OutputAgrees(s3, l3);
    OutputAgrees(s4, l4);
    TwoBitsSmall(l1.d);
    TwoBitsSmall(l2.d);
    TwoBitsSmall(l3.d);
    TwoBitsSmall(l4.d);
    Gathering(TwoBits(l1.d), TwoBits(l2.d), TwoBits(l3.d), TwoBits(l4.d));
  }

  lemma {:induction false} KeystreamsAgree(s: Stream, l: Lane, n: nat)
    requires Agrees(s, l)
    ensures Keystream(s, n) == LaneKeystream(l, n)
    decreases n
  {
    hide Agrees, OutputByte, LaneByte, FourRounds, LaneFourRounds;
    if n > 0 {
      ByteAgrees(s, l);
      KeystreamsAgree(FourRounds(s), LaneFourRounds(l), n - 1);
    }
  }

  /** For every control word and every first block, the circuit makes the stream of the tables, however
      much of it is asked for. */
  lemma SlicedStreamIsStream(word: seq<Byte>, first: seq<Byte>, n: nat)
    requires |word| == 8
    ensures LaneKeystream(LaneStarted(word, first), n) == Keystream(Started(word, first), n)
  {
    hide Agrees, Started, LaneStarted;
    StartsAgree(word, first);
    KeystreamsAgree(Started(word, first), LaneStarted(word, first), n);
  }
}
