/** Modified Julian Days to instants, twice: the integer conversion of engine/usb_dvbs2_engine.c,
    and the floating point formula of ETSI EN 300 468 annex C in core/ts_epg.c. */
module Mjd {
  import opened Calendar

  /** 1858-11-17, day 0 of the count, in days since 1601-01-01; and 1970-01-01 in the same. */
  const EPOCH := 94187
  const UNIX_EPOCH := 134774

  /* ---- the engine's conversion ---- */

  /** mjd_to_date of the engine. All its divisions are of non-negative numbers. */
  function EngineDate(mjd: nat): Date {
    var j := mjd + 2400001 + 68569;
    var n := 4 * j / 146097;
    var j1 := j - (146097 * n + 3) / 4;
    var i := 4000 * (j1 + 1) / 1461001;
    EngineMonthDay(100 * (n - 49) + i, j1 - 1461 * i / 4 + 31)
  }

  /** Its last steps, from the March year and the day of it. */
  function EngineMonthDay(y: int, j2: int): Date {
    var m := 80 * j2 / 2447;
    var j3 := m / 11;
    Date(y + j3, m + 2 - 12 * j3, j2 - 2447 * m / 80)
  }

  /** Year of the century from a day of the century. */
  lemma YearOfCentury(j1: int, i: int)
    requires 0 <= j1 <= 36524 && i == 4000 * (j1 + 1) / 1461001
    ensures 0 <= i <= 99
    ensures var doy := j1 - 1461 * i / 4; 0 <= doy <= 365 && (doy == 365 ==> i % 4 == 3 && (i == 99 ==> j1 == 36524))
    ensures 1461 * i / 4 == 365 * i + i / 4
  {
    var a, b := i / 4, i % 4;
    assert 1461 * i / 4 == 1461 * a + 1461 * b / 4;
    assert 1461001 * i <= 4000 * (j1 + 1) < 1461001 * (i + 1);
  }

  /** Days of a century, and where it starts. */
  lemma CenturyParts(j: int, n: int)
    requires j >= 0 && n == 4 * j / 146097
    ensures var j1 := j - (146097 * n + 3) / 4;
            0 <= j1 <= 36524 && (j1 == 36524 ==> n % 4 == 0)
    ensures (146097 * n + 3) / 4 == 36524 * n + (n + 3) / 4
  {
    var a, b := n / 4, n % 4;
    assert n == 4 * a + b;
  }

  /** The month arithmetic is that of the calendar. */
  lemma EngineMonth(doy: int)
    requires 0 <= doy <= 365
    ensures var j2 := doy + 31;
            var m := 80 * j2 / 2447;
            && 1 <= m <= 12 && m == (5 * doy + 2) / 153 + 1
            && j2 - 2447 * m / 80 == doy - (153 * (m - 1) + 2) / 5 + 1
  {
    var m := 80 * (doy + 31) / 2447;
    assert 1 <= m <= 12;
    EngineMonthTable(m);
    MonthOfDay(doy);
  }

  lemma EngineMonthTable(m: int)
    requires 1 <= m <= 13
    ensures 2447 * m / 80 == (153 * (m - 1) + 2) / 5 + 30
  {
  }

  lemma CenturyDays(c: int, i: int)
    requires 0 <= i <= 99
    ensures YearDays(100 * c + i) == 36524 * c + c / 4 + 365 * i + i / 4
  {
    var y := 100 * c + i;
    assert y / 4 == 25 * c + i / 4 && y / 100 == c;
    assert y / 400 == c / 4 by {
      var a, b := c / 4, c % 4;
      assert y == 400 * a + (100 * b + i);
    }
  }

  lemma LeapCentury(c: int, i: int)
    requires 0 <= i <= 99 && i % 4 == 3 && (i == 99 ==> (c + 1) % 4 == 0)
    ensures IsLeap(100 * c + i + 1)
  {
    var y := 100 * c + i + 1;
    assert y % 4 == 0;
    if i == 99 {
      assert y == 400 * ((c + 1) / 4);
    } else {
      assert y % 100 == i + 1;
    }
  }

  lemma EngineSteps(mjd: nat, j: int, n: int, j1: int, i: int, doy: int)
    requires j == mjd + 2400001 + 68569 && n == 4 * j / 146097 && j1 == j - (146097 * n + 3) / 4
    requires i == 4000 * (j1 + 1) / 1461001 && doy == j1 - 1461 * i / 4 && 0 <= doy <= 365
    ensures EngineDate(mjd) == Assemble(100 * (n - 49) + i, doy)
  {
    hide Assemble, EngineMonthDay;
    LastSteps(n - 49, i, doy);
  }

  /** The March year and its day that the engine's steps lead to. */
  lemma EngineParts(mjd: nat) returns (c: int, i: int, doy: int)
    ensures 0 <= i <= 99 && 0 <= doy <= 365 && c >= 18
    ensures doy == 365 ==> i % 4 == 3 && (i == 99 ==> (c + 1) % 4 == 0)
    ensures EngineDate(mjd) == Assemble(100 * c + i, doy)
    ensures 36524 * c + c / 4 + 365 * i + i / 4 + doy == mjd + 678881
  {
    hide Assemble, EngineDate;
    var j := mjd + 2400001 + 68569;
    var n := 4 * j / 146097;
    CenturyParts(j, n);
    var j1 := j - (146097 * n + 3) / 4;
    i := 4000 * (j1 + 1) / 1461001;
    YearOfCentury(j1, i);
    doy := j1 - 1461 * i / 4;
    c := n - 49;
    EngineSteps(mjd, j, n, j1, i, doy);
    CenturyCount(n, j, j1);
  }

  lemma CenturyCount(n: int, j: int, j1: int)
    requires n >= 0 && j1 == j - (36524 * n + (n + 3) / 4)
    ensures var c := n - 49; 36524 * c + c / 4 + j1 == j - 1789689
    ensures n % 4 == 0 ==> (n - 49 + 1) % 4 == 0
  {
    assert (n + 3) / 4 == 13 + (n - 49) / 4;
  }

  lemma LastSteps(c: int, i: int, doy: int)
    requires 0 <= doy <= 365
    ensures EngineMonthDay(100 * c + i, doy + 31) == Assemble(100 * c + i, doy)
  {
    EngineMonth(doy);
  }

  /** The engine's date is the calendar's date of the day `mjd + 94187`, for every non-negative day
      number: the conversion is linear and inverts the count of days. */
  lemma EngineDateIsLinear(mjd: nat)
    ensures EngineDate(mjd) == DateOf(mjd + 94187)
    ensures EngineDate(mjd).Valid() && EngineDate(mjd).year >= 1601 && DaysFrom1601(EngineDate(mjd)) == mjd + 94187
  {
    hide DateOf, DaysFrom1601, IsLeap, YearDays, Assemble, EngineDate, DaysInMonth;
    var c, i, doy := EngineParts(mjd);
    CenturyDays(c, i);
    if doy == 365 { LeapCentury(c, i); }
    AssembleIsValid(100 * c + i, doy);
    DateOfIsValid(mjd + EPOCH);
    SameDays(EngineDate(mjd), DateOf(mjd + EPOCH));
  }

  lemma SameDays(a: Date, b: Date)
    requires a.Valid() && b.Valid() && a.year >= 1601 && b.year >= 1601 && DaysFrom1601(a) == DaysFrom1601(b)
    ensures a == b
  {
    FormulaCountsDays(a);
    FormulaCountsDays(b);
    SameNumberSameDate(a, b);
  }

  /* ---- the formula of annex C ---- */

  /** Conversion to int in C: towards zero. */
  function Truncate(x: real): int {
    if x >= 0.0 then x.Floor else -((-x).Floor)
  }

  /** The product, by a name under which the prover leaves it alone. */
  function Product(x: real, y: real): real { x * y }

  predicate Near(x: real, y: real, error: real) { -error <= x - y <= error }

  /** How far apart neighbouring doubles are below 131072 = 2^17, at most: 2^-36. */
  const TINY: real := 1.0 / 68719476736.0

  predicate IsSmall(x: real) { -131072.0 <= x <= 131072.0 }

  predicate IsQuarter(x: real) { IsSmall(x) && (4.0 * x).Floor as real == 4.0 * x }

  /** What IEEE 754 says of the rounding to doubles, in any direction and below 131072: the result is a
      neighbouring double, and the value itself where that is a double. */
  ghost predicate IsRounding(round: real -> real) {
    && (forall x :: IsSmall(x) ==> Near(round(x), x, TINY))
    && (forall x :: IsQuarter(x) ==> round(x) == x)
  }

  /** mjd_to_date of core/ts_epg.c, constants and every operation rounded. */
  ghost function AnnexDate(mjd: nat, round: real -> real): Date
    requires IsRounding(round)
  {
    var y := YearCount(mjd, round);
    var yd := DaysOfYears(y, round);
    var m := MonthCount(mjd, yd, round);
    var d := mjd - 14956 - yd - DaysOfMonths(m, round);
    var k := if m == 14 || m == 15 then 1 else 0;
    Date(y + k + 1900, m - 1 - k * 12, d)
  }

  ghost function YearCount(mjd: nat, round: real -> real): int {
    Truncate(round(round(mjd as real - round(15078.2)) / 365.25))
  }

  ghost function DaysOfYears(y: int, round: real -> real): int { Truncate(round(y as real * 365.25)) }

  ghost function MonthCount(mjd: nat, yd: int, round: real -> real): int
    requires IsRounding(round)
  {
    MonthLength(round);
    Truncate(round(round(round(mjd as real - round(14956.1)) - yd as real) / round(30.6001)))
  }

  ghost function DaysOfMonths(m: int, round: real -> real): int {
    Truncate(round(Product(m as real, round(30.6001))))
  }

  /** The same formula in exact arithmetic. */
  function AnnexExact(mjd: nat): Date {
    var y := Truncate((mjd as real - 15078.2) / 365.25);
    var yd := Truncate(y as real * 365.25);
    var m := Truncate((mjd as real - 14956.1 - yd as real) / 30.6001);
    var d := mjd - 14956 - yd - Truncate(m as real * 30.6001);
    var k := if m == 14 || m == 15 then 1 else 0;
    Date(y + k + 1900, m - 1 - k * 12, d)
  }

  /** days_from_civil of core/ts_epg.c, days since 1970-01-01. It is days_from_1601 less a constant,
      for any year, any month from 1 to 12 and any day. */
  function DaysFromCivil(d: Date): int {
    var y := MarchYear(d);
    var era := Truncated(if y >= 0 then y else y - 399, 400);
    var yoe := y - era * 400;
    var doy := Truncated(153 * MarchMonth(d) + 2, 5) + d.day - 1;
    era * 146097 + (yoe * 365 + yoe / 4 - yoe / 100 + doy) - 719468
  }

  /* Rounding plays no part: each value that is truncated is either exact, or further from every integer
     than all the errors together. */

  lemma RoundNear(round: real -> real, x: real)
    requires IsRounding(round) && IsSmall(x)
    ensures Near(round(x), x, TINY)
  {
  }

  /** A fraction that is no integer, and a value closer to it than its denominator's reciprocal, are
      truncated alike. */
  lemma TruncateStable(x: real, r: real, n: int, d: int)
    requires d > 0 && x * d as real == n as real && n % d != 0
    requires -1.0 < (r - x) * d as real < 1.0
    ensures Truncate(r) == Truncate(x)
  {
    hide Truncate;
    var q := n / d;
    RealBounds(n, d, q);
    Between(x, d as real, q as real, n as real);
    assert (r - x) * d as real == r * d as real - x * d as real;
    Between(r, d as real, q as real, r * d as real);
    TruncateBetween(x, q);
    TruncateBetween(r, q);
  }

  lemma RealBounds(n: int, d: int, q: int)
    requires d > 0 && q == n / d && n % d != 0
    ensures q as real * d as real + 1.0 <= n as real <= q as real * d as real + d as real - 1.0
  {
    var p := q * d;
    assert p as real == q as real * d as real;
    assert n == p + n % d;
  }

  lemma TruncateBetween(x: real, q: int)
    requires q as real < x < q as real + 1.0
    ensures Truncate(x) == if q >= 0 then q else q + 1
  {
    assert q >= 0 ==> x.Floor == q;
    assert q < 0 ==> (-x).Floor == -q - 1;
  }

  lemma Between(x: real, d: real, q: real, n: real)
    requires d > 0.0 && x * d == n && q * d < n < q * d + d
    ensures q < x < q + 1.0
  {
    Ordered(q, x, d);
    Ordered(x, q + 1.0, d);
    assert (q + 1.0) * d == q * d + d;
  }

  lemma NotNegative(a: real, b: real)
    requires a >= 0.0 && b >= 0.0
    ensures a * b >= 0.0
  {
  }

  lemma Ordered(x: real, y: real, d: real)
    requires d > 0.0
    ensures x >= y ==> x * d >= y * d
  {
    if x >= y {
      NotNegative(x - y, d);
      assert (x - y) * d == x * d - y * d;
    }
  }

  lemma MonthLength(round: real -> real)
    requires IsRounding(round)
    ensures round(30.6001) > 30.0
  {
    RoundNear(round, 30.6001);
  }

  lemma YearRounded(mjd: nat, round: real -> real)
    requires mjd < 0x1_0000 && IsRounding(round)
    ensures YearCount(mjd, round) == Truncate((mjd as real - 15078.2) / 365.25)
  {
    hide Truncate, IsRounding;
    RoundNear(round, 15078.2);
    var t := mjd as real - round(15078.2);
    RoundNear(round, t);
    var q := round(t) / 365.25;
    RoundNear(round, q);
    var x := (mjd as real - 15078.2) / 365.25;
    assert Near(q, x, TINY);
    var n := 20 * mjd - 301564;
    assert n == 5 * (4 * mjd - 60313) + 1;
    NotMultiple(n, 4 * mjd - 60313);
    TruncateStable(x, round(q), n, 7305);
  }

  lemma NotMultiple(n: int, k: int)
    requires n == 5 * k + 1
    ensures n % 7305 != 0
  {
    var q, r := n / 7305, n % 7305;
    assert n == 7305 * q + r;
    assert r == 5 * (k - 1461 * q) + 1;
  }

  lemma YearDaysRounded(y: int, round: real -> real)
    requires -200 <= y <= 200 && IsRounding(round)
    ensures DaysOfYears(y, round) == Truncate(y as real * 365.25)
  {
    var x := y as real * 365.25;
    assert 4.0 * x == (1461 * y) as real;
    assert IsQuarter(x);
  }

  lemma MonthRounded(mjd: nat, yd: int, e: int, round: real -> real)
    requires mjd < 0x1_0000 && IsRounding(round) && e == mjd - 14956 - yd && -600 <= e <= 600
    ensures MonthCount(mjd, yd, round) == Truncate((e as real - 0.1) / 30.6001)
  {
    hide Truncate, IsRounding, Near;
    var u, c := round(round(mjd as real - round(14956.1)) - yd as real), round(30.6001);
    MonthDividend(mjd, yd, e, round);
    RoundNear(round, 30.6001);
    QuotientNear(u, e as real - 0.1, c);
    RoundNear(round, u / c);
    var r := round(u / c);
    NearNear(r, u / c, (e as real - 0.1) / 30.6001);
    NoWholeMonths(e);
    MonthStable(e, r);
  }

  lemma MonthDividend(mjd: nat, yd: int, e: int, round: real -> real)
    requires mjd < 0x1_0000 && IsRounding(round) && e == mjd - 14956 - yd && -600 <= e <= 600
    ensures Near(round(round(mjd as real - round(14956.1)) - yd as real), e as real - 0.1, 3.0 * TINY)
  {
    hide IsRounding;
    RoundNear(round, 14956.1);
    var a := mjd as real - round(14956.1);
    RoundNear(round, a);
    RoundNear(round, round(a) - yd as real);
  }

  lemma NearNear(r: real, q: real, x: real)
    requires Near(r, q, TINY) && Near(q, x, 0.000001)
    ensures Near(r, x, 0.000002)
  {
  }

  lemma MonthStable(e: int, r: real)
    requires (10000 * e - 1000) % 306001 != 0 && Near(r, (e as real - 0.1) / 30.6001, 0.000002)
    ensures Truncate(r) == Truncate((e as real - 0.1) / 30.6001)
  {
    TruncateStable((e as real - 0.1) / 30.6001, r, 10000 * e - 1000, 306001);
  }

  lemma QuotientNear(u: real, v: real, c: real)
    requires Near(u, v, 3.0 * TINY) && Near(c, 30.6001, TINY) && -601.0 <= v <= 601.0
    ensures c > 30.0 && Near(u / c, v / 30.6001, 0.000001) && IsSmall(u / c)
  {
    var q := u / c;
    assert q * c == u;
    QuotientSmall(q, c);
    var error := q * (30.6001 - c);
    SmallProduct(q, 30.6001 - c);
    assert q * 30.6001 == u + error;
  }

  lemma QuotientSmall(q: real, c: real)
    requires c > 30.0 && -602.0 <= q * c <= 602.0
    ensures -21.0 <= q <= 21.0
  {
    Ordered(q, 21.0, c);
    Ordered(-21.0, q, c);
  }

  lemma SmallProduct(q: real, d: real)
    requires -21.0 <= q <= 21.0 && -TINY <= d <= TINY
    ensures -21.0 * TINY <= q * d <= 21.0 * TINY
    decreases q < 0.0
  {
    if q >= 0.0 {
      NotNegative(q, TINY - d);
      NotNegative(q, TINY + d);
      assert q * (TINY - d) == q * TINY - q * d && q * (TINY + d) == q * TINY + q * d;
    } else {
      SmallProduct(-q, d);
      assert q * d == -(-q * d);
    }
  }

  lemma NoWholeMonths(e: int)
    requires -600 <= e <= 600
    ensures (10000 * e - 1000) % 306001 != 0
  {
    var n := 10000 * e - 1000;
    var k, r := n / 306001, n % 306001;
    assert n == 306001 * k + r && -21 <= k <= 21;
    assert k + r == 1000 * (10 * e - 1 - 306 * k);
  }

  lemma NoWholeDays(m: int)
    requires -21 <= m <= 21 && m != 0
    ensures (306001 * m) % 10000 != 0
  {
    var q, r := 306001 * m / 10000, 306001 * m % 10000;
    assert 306001 * m == 10000 * q + r;
    assert 6001 * m - r == 10000 * (q - 30 * m);
  }

  lemma MonthDaysRounded(m: int, round: real -> real)
    requires -21 <= m <= 21 && IsRounding(round)
    ensures DaysOfMonths(m, round) == Truncate(m as real * 30.6001)
  {
    hide Truncate, IsRounding, Near, Product;
    ProductNear(m as real, round(30.6001), round);
    if m == 0 {
      RoundZero(round, round(30.6001));
    } else {
      NoWholeDays(m);
      DaysStable(m, round(Product(m as real, round(30.6001))));
    }
  }

  lemma RoundZero(round: real -> real, c: real)
    requires IsRounding(round)
    ensures round(Product(0.0, c)) == 0.0
  {
    assert Product(0.0, c) == 0.0;
    assert IsQuarter(0.0);
  }

  lemma ProductNear(x: real, c: real, round: real -> real)
    requires -21.0 <= x <= 21.0 && IsRounding(round) && c == round(30.6001)
    ensures Near(round(Product(x, c)), x * 30.6001, 0.00001)
  {
    hide IsRounding;
    RoundNear(round, 30.6001);
    SmallProduct(x, c - 30.6001);
    DaysNear(x, c);
    RoundNear(round, Product(x, c));
  }

  lemma DaysNear(x: real, c: real)
    requires -21.0 <= x <= 21.0 && -21.0 * TINY <= x * (c - 30.6001) <= 21.0 * TINY
    ensures Near(Product(x, c), x * 30.6001, 21.0 * TINY) && IsSmall(Product(x, c))
  {
    assert x * (c - 30.6001) == x * c - x * 30.6001;
  }

  lemma DaysStable(m: int, r: real)
    requires (306001 * m) % 10000 != 0 && Near(r, m as real * 30.6001, 0.00001)
    ensures Truncate(r) == Truncate(m as real * 30.6001)
  {
    TruncateStable(m as real * 30.6001, r, 306001 * m, 10000);
  }

  /** Days and months of the formula stay small over the sixteen bits of a day number. */
  lemma AnnexRange(mjd: nat)
    requires mjd < 0x1_0000
    ensures var y := Truncate((mjd as real - 15078.2) / 365.25);
            var e := mjd - 14956 - Truncate(y as real * 365.25);
            -200 <= y <= 200 && -600 <= e <= 600 && -21 <= Truncate((e as real - 0.1) / 30.6001) <= 21
  {
    hide Truncate;
    YearCast(mjd);
    var y := Truncate((mjd as real - 15078.2) / 365.25);
    YearDaysCast(y);
    var e := mjd - 14956 - Truncate(y as real * 365.25);
    if mjd >= 15079 {
      AnnexYear(mjd, y, e);
    } else {
      EarlyRange(mjd, y, e);
    }
    MonthCast(e);
  }

  lemma EarlyRange(mjd: nat, y: int, e: int)
    requires mjd < 15079 && y == -((301564 - 20 * mjd) / 7305)
    requires e == mjd - 14956 - (if y >= 0 then 1461 * y / 4 else -(1461 * -y / 4))
    ensures -42 <= y <= 0 && -600 <= e <= 600
  {
    assert 7305 * -y <= 301564 - 20 * mjd < 7305 * (-y + 1);
  }

  /** Whatever way a double is rounded, the formula gives what it gives in exact arithmetic, for every
      day number the field can hold. */
  lemma RoundingPlaysNoPart(mjd: nat, round: real -> real)
    requires mjd < 0x1_0000 && IsRounding(round)
    ensures AnnexDate(mjd, round) == AnnexExact(mjd)
  {
    hide Truncate, IsRounding, YearCount, DaysOfYears, MonthCount, DaysOfMonths;
    AnnexRange(mjd);
    YearRounded(mjd, round);
    var y := Truncate((mjd as real - 15078.2) / 365.25);
    YearDaysRounded(y, round);
    var yd := Truncate(y as real * 365.25);
    var e := mjd - 14956 - yd;
    assert mjd as real - 14956.1 - yd as real == e as real - 0.1;
    MonthRounded(mjd, yd, e, round);
    var m := Truncate((e as real - 0.1) / 30.6001);
    MonthDaysRounded(m, round);
  }

  lemma DaysFromCivilShifts(d: Date)
    requires 1 <= d.month <= 12
    ensures DaysFromCivil(d) == DaysFrom1601(d) - UNIX_EPOCH
  {
  }

  /* Each cast as integer arithmetic. */

  lemma YearCast(mjd: nat)
    ensures Truncate((mjd as real - 15078.2) / 365.25)
         == if mjd >= 15079 then (20 * mjd - 301564) / 7305 else -((301564 - 20 * mjd) / 7305)
  {
    var n := if mjd >= 15079 then 20 * mjd - 301564 else 301564 - 20 * mjd;
    var q := n / 7305;
    assert 7305.0 * q as real <= n as real < 7305.0 * (q as real + 1.0);
    var x := (mjd as real - 15078.2) / 365.25;
    assert 7305.0 * x == if mjd >= 15079 then n as real else -(n as real);
  }

  lemma YearDaysCast(y: int)
    ensures Truncate(y as real * 365.25) == if y >= 0 then 1461 * y / 4 else -(1461 * -y / 4)
  {
    var n := if y >= 0 then 1461 * y else 1461 * -y;
    var q := n / 4;
    assert 4.0 * q as real <= n as real < 4.0 * (q as real + 1.0);
  }

  lemma MonthCast(e: int)
    ensures Truncate((e as real - 0.1) / 30.6001)
         == if e >= 1 then (10000 * e - 1000) / 306001 else -((1000 - 10000 * e) / 306001)
  {
    var n := if e >= 1 then 10000 * e - 1000 else 1000 - 10000 * e;
    var q := n / 306001;
    assert 306001.0 * q as real <= n as real < 306001.0 * (q as real + 1.0);
    var x := (e as real - 0.1) / 30.6001;
    assert 306001.0 * x == if e >= 1 then n as real else -(n as real);
  }

  lemma MonthDaysCast(m: int)
    ensures Truncate(m as real * 30.6001) == if m >= 0 then 306001 * m / 10000 else -(306001 * -m / 10000)
  {
    var n := if m >= 0 then 306001 * m else 306001 * -m;
    var q := n / 10000;
    assert 10000.0 * q as real <= n as real < 10000.0 * (q as real + 1.0);
  }

  /** The formula without reals. `e` counts days from 1900-02-28 plus 122, less whole years. */
  lemma AnnexInIntegers(mjd: nat, y: int, e: int, m: int)
    requires y == if mjd >= 15079 then (20 * mjd - 301564) / 7305 else -((301564 - 20 * mjd) / 7305)
    requires e == mjd - 14956 - (if y >= 0 then 1461 * y / 4 else -(1461 * -y / 4))
    requires m == if e >= 1 then (10000 * e - 1000) / 306001 else -((1000 - 10000 * e) / 306001)
    ensures var d := e - (if m >= 0 then 306001 * m / 10000 else -(306001 * -m / 10000));
            var k := if m == 14 || m == 15 then 1 else 0;
            AnnexExact(mjd) == Date(y + k + 1900, m - 1 - k * 12, d)
  {
    hide Truncate;
    YearCast(mjd);
    YearDaysCast(y);
    var yd := Truncate(y as real * 365.25);
    assert mjd as real - 14956.1 - yd as real == e as real - 0.1;
    MonthCast(e);
    MonthDaysCast(m);
  }

  /** Months of the formula, from day 123 (the first of March) of its year. */
  lemma AnnexMonth(e: int)
    requires 123 <= e <= 488
    ensures var m := (10000 * e - 1000) / 306001;
            && 4 <= m <= 15 && m - 4 == (5 * (e - 123) + 2) / 153
            && e - 306001 * m / 10000 == (e - 123) - (153 * (m - 4) + 2) / 5 + 1
  {
    var m := (10000 * e - 1000) / 306001;
    assert 4 <= m <= 15;
    AnnexMonthTable(m);
    if m < 15 { AnnexMonthTable(m + 1); }
    MonthOfDay(e - 123);
  }

  lemma AnnexMonthTable(m: int)
    requires 4 <= m <= 15
    ensures 306001 * m / 10000 == (153 * (m - 4) + 2) / 5 + 122
  {
  }

  /** From 1900-03-01 to 2100-02-28 the formula gives the calendar's date. */
  lemma ExactIsRight(mjd: nat)
    requires 15079 <= mjd <= 88127
    ensures AnnexExact(mjd) == EngineDate(mjd)
    ensures DaysFromCivil(AnnexExact(mjd)) == mjd + EPOCH - UNIX_EPOCH
  {
    hide DateOf, DaysFrom1601, IsLeap, YearDays, EngineDate, AnnexExact, DaysInMonth;
    var y := (20 * mjd - 301564) / 7305;
    var e := mjd - 14956 - 1461 * y / 4;
    AnnexYear(mjd, y, e);
    var m := (10000 * e - 1000) / 306001;
    AnnexInIntegers(mjd, y, e, m);
    AnnexMonth(e);
    var d := AnnexExact(mjd);
    assert d == Assemble(1900 + y, e - 123);
    if e == 488 { assert IsLeap(1900 + y + 1) by { LeapAfter(y); } }
    AssembleIsValid(1900 + y, e - 123);
    YearsFrom1900(y);
    EngineDateIsLinear(mjd);
    SameDays(d, EngineDate(mjd));
    DaysFromCivilShifts(d);
  }

  lemma AnnexYear(mjd: nat, y: int, e: int)
    requires 15079 <= mjd <= 88127 && y == (20 * mjd - 301564) / 7305 && e == mjd - 14956 - 1461 * y / 4
    ensures 0 <= y <= 199 && 123 <= e <= 488 && (e == 488 ==> y % 4 == 3 && y != 199)
    ensures 1461 * y / 4 == 365 * y + y / 4
  {
    var a, b := y / 4, y % 4;
    assert 1461 * y / 4 == 1461 * a + 1461 * b / 4;
    assert 7305 * y <= 20 * mjd - 301564 < 7305 * (y + 1);
  }

  lemma LeapAfter(y: int)
    requires 0 <= y < 199 && y % 4 == 3
    ensures IsLeap(1900 + y + 1)
  {
    assert (1901 + y) % 4 == 0;
    if (1901 + y) % 100 == 0 {
      assert y == 99;
    }
  }

  lemma YearsFrom1900(y: int)
    requires 0 <= y <= 199
    ensures YearDays(1900 + y) == 693960 + 365 * y + y / 4
  {
    assert (1900 + y) / 4 == 475 + y / 4;
    assert (1900 + y) / 100 == 19 + y / 100 && (1900 + y) / 400 == 4 + (if y >= 100 then 1 else 0);
  }

  /** Before 1900-03-01 the casts round the wrong way: the formula never gives the right date. What
      it gives is refused by the caller's range check, or two or three days too late. */
  lemma ExactIsWrong(mjd: nat)
    requires 1 <= mjd < 15079
    ensures var d := AnnexExact(mjd);
            d.month < 1 || DaysFromCivil(d) == mjd + EPOCH - UNIX_EPOCH + d.month + 1
    ensures AnnexExact(mjd).month <= 2
  {
    hide AnnexExact, Truncate, DaysFromCivil;
    var y := -((301564 - 20 * mjd) / 7305);
    var e := mjd - 14956 + 1461 * -y / 4;
    var m := if e >= 1 then (10000 * e - 1000) / 306001 else -((1000 - 10000 * e) / 306001);
    assert y == 0 ==> 1461 * y / 4 == 0;
    AnnexInIntegers(mjd, y, e, m);
    EarlyYear(mjd, y, e);
    assert m <= 3;
    if m >= 2 {
      EarlyDays(y, AnnexExact(mjd));
    }
  }

  lemma EarlyYear(mjd: nat, y: int, e: int)
    requires 1 <= mjd < 15079 && y == -((301564 - 20 * mjd) / 7305) && e == mjd - 14956 + 1461 * -y / 4
    ensures -41 <= y <= 0 && e <= 122 && 1461 * -y / 4 == 365 * -y + -y / 4
  {
    var a, b := -y / 4, -y % 4;
    assert 1461 * -y / 4 == 1461 * a + 1461 * b / 4;
    assert 7305 * -y <= 301564 - 20 * mjd < 7305 * (-y + 1);
  }

  lemma EarlyDays(y: int, d: Date)
    requires -41 <= y <= 0 && d.year == y + 1900 && 1 <= d.month <= 2
    ensures DaysFromCivil(d) == 365 * y - (-y / 4) + d.day + (if d.month == 1 then 0 else 31) - 25568
  {
    var z := 1899 + y;
    EraRoundsDown(z);
    assert z / 400 == 4 && (z - 1600) / 100 == 2;
    assert (z - 1600) / 4 == 74 - (-y / 4);
  }

  /** From 1900-03-01 on, for every day number of sixteen bits, the formula gives the calendar's date,
      however its doubles are rounded. */
  lemma AnnexIsRight(mjd: nat, round: real -> real)
    requires 15079 <= mjd < 0x1_0000 && IsRounding(round)
    ensures AnnexDate(mjd, round) == EngineDate(mjd)
    ensures DaysFromCivil(AnnexDate(mjd, round)) == mjd + EPOCH - UNIX_EPOCH
  {
    hide AnnexDate, EngineDate, DaysFromCivil, IsRounding;
    RoundingPlaysNoPart(mjd, round);
    ExactIsRight(mjd);
  }

  /** And before that it never does. */
  lemma AnnexIsWrong(mjd: nat, round: real -> real)
    requires 1 <= mjd < 15079 && IsRounding(round)
    ensures var d := AnnexDate(mjd, round);
            d.month < 1 || DaysFromCivil(d) == mjd + EPOCH - UNIX_EPOCH + d.month + 1
    ensures AnnexDate(mjd, round).month <= 2
  {
    hide AnnexDate, DaysFromCivil, IsRounding;
    RoundingPlaysNoPart(mjd, round);
    ExactIsWrong(mjd);
  }

  /* ---- the two start times of an event ---- */

  /** Two decimal digits packed in a byte. */
  function Bcd(b: int): int { b / 16 * 10 + b % 16 }

  /** The five bytes of a start time: day number, then packed hours, minutes and seconds. */
  datatype Start = Start(b0: int, b1: int, h: int, m: int, s: int) {
    predicate Valid() { 0 <= b0 < 256 && 0 <= b1 < 256 && 0 <= h < 256 && 0 <= m < 256 && 0 <= s < 256 }

    function Mjd(): int { b0 * 256 + b1 }

    function SecondOfDay(): int { Bcd(h) * 3600 + Bcd(m) * 60 + Bcd(s) }
  }

  datatype Instant = Undefined | At(value: int)

  /** event_start_utc of core/ts_epg.c: seconds since 1970. */
  ghost function EpgStart(x: Start, round: real -> real): Instant
    requires x.Valid() && IsRounding(round)
  {
    if (x.b0 == 255 && x.b1 == 255) || x.Mjd() == 0 then Undefined
    else
      var d := AnnexDate(x.Mjd(), round);
      if d.month < 1 || d.month > 12 || d.day < 1 || d.day > 31 then Undefined
      else At(DaysFromCivil(d) * 86400 + x.SecondOfDay())
  }

  /** dvb_event_timestamp of the engine: ticks since 1601. */
  function EngineStart(x: Start): Instant
    requires x.Valid()
  {
    if x.b0 == 255 && x.b1 == 255 then Undefined
    else At(Ticks(Time(EngineDate(x.Mjd()), Bcd(x.h), Bcd(x.m), Bcd(x.s))))
  }

  /** The engine's instant is linear in the day number. */
  lemma EngineStartIsLinear(x: Start)
    requires x.Valid() && !(x.b0 == 255 && x.b1 == 255)
    ensures EngineStart(x) == At(((x.Mjd() + 94187) * 86400 + x.SecondOfDay()) * 1000_0000)
  {
    hide EngineDate, DaysFrom1601, Bcd;
    EngineDateIsLinear(x.Mjd());
    BcdBound(x.h);
    BcdBound(x.m);
    BcdBound(x.s);
    NoWrap((x.Mjd() + EPOCH) * 86400 + x.SecondOfDay());
  }

  lemma BcdBound(b: int)
    requires 0 <= b < 256
    ensures 0 <= Bcd(b) <= 165
  {
  }

  lemma NoWrap(seconds: int)
    requires 0 <= seconds < 200_0000_0000
    ensures seconds * TICKS % TWO_64 == seconds * TICKS
  {
  }

  /** The two give the same instant for exactly the days from MJD 15079, 1900-03-01, on. */
  lemma StartsAgree(x: Start, round: real -> real)
    requires x.Valid() && !(x.b0 == 255 && x.b1 == 255) && IsRounding(round)
    ensures var e := EpgStart(x, round);
            (e.At? && EngineStart(x) == At((e.value + 134774 * 86400) * 1000_0000)) <==> x.Mjd() >= 15079
  {
    hide AnnexDate, EngineStart, DaysFromCivil, IsRounding;
    EngineStartIsLinear(x);
    var mjd := x.Mjd();
    if mjd >= 15079 {
      AnnexIsRight(mjd, round);
      EngineDateIsLinear(mjd);
    } else if mjd >= 1 {
      AnnexIsWrong(mjd, round);
    }
  }

  lemma DayExample()
    ensures EngineDate(45218) == Date(1982, 9, 6)
  {
    hide EngineMonthDay;
    assert EngineDate(45218) == EngineMonthDay(1982, 220);
    assert EngineMonthDay(1982, 220) == Date(1982, 9, 6) by {
      MonthDayExample();
    }
  }

  lemma MonthDayExample()
    ensures EngineMonthDay(1982, 220) == Date(1982, 9, 6)
  {
  }

  lemma TicksExample()
    ensures Ticks(Time(Date(1993, 10, 13), 12, 45, 0)) == 12394989900_000_0000
  {
  }

  /** What ETSI EN 300 468 prints as examples, in annex C and in the definition of start_time: the day 45218 is
      1982-09-06, and C0 79 12 45 00 is a quarter to one on 1993-10-13. */
  lemma PrintedExamples(round: real -> real)
    requires IsRounding(round)
    ensures EngineDate(45218) == Date(1982, 9, 6)
    ensures var x := Start(0xc0, 0x79, 0x12, 0x45, 0x00);
            && EngineStart(x) == At(Ticks(Time(Date(1993, 10, 13), 12, 45, 0))) == At(12394989900_000_0000)
            && EpgStart(x, round) == At(750516300)
  {
    hide EngineDate, EngineStart, EpgStart, IsRounding, Ticks;
    DayExample();
    TicksExample();
    var x := Start(0xc0, 0x79, 0x12, 0x45, 0x00);
    EngineStartIsLinear(x);
    StartsAgree(x, round);
  }
}
