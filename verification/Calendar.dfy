/** The calendar of core/dtv_platform.c: civil date and time to 100 ns ticks since 1601 and back,
    against a calendar that simply counts days. */
module Calendar {
  /* ---- the Gregorian calendar, by counting ---- */

  predicate IsLeap(year: int) {
    year % 4 == 0 && (year % 100 != 0 || year % 400 == 0)
  }

  function DaysInMonth(year: int, month: int): int {
    if month == 2 then (if IsLeap(year) then 29 else 28)
    else if month == 4 || month == 6 || month == 9 || month == 11 then 30
    else 31
  }

  datatype Date = Date(year: int, month: int, day: int) {
    predicate Valid() { 1 <= month <= 12 && 1 <= day <= DaysInMonth(year, month) }

    predicate Before(other: Date) {
      year < other.year || (year == other.year && (month < other.month || (month == other.month && day < other.day)))
    }

    function Next(): Date
      requires Valid()
    {
      if day < DaysInMonth(year, month) then Date(year, month, day + 1)
      else if month < 12 then Date(year, month + 1, 1)
      else Date(year + 1, 1, 1)
    }
  }

  /** Days of the year before the first of a month. */
  function DaysBeforeMonth(year: int, month: int): int
    requires 1 <= month <= 12
    decreases month
  {
    if month == 1 then 0 else DaysBeforeMonth(year, month - 1) + DaysInMonth(year, month - 1)
  }

  /** Days from 1601-01-01 to the first of January of a later year. */
  function DaysBeforeYear(year: int): int
    requires year >= 1601
    decreases year
  {
    if year == 1601 then 0 else DaysBeforeYear(year - 1) + (if IsLeap(year - 1) then 366 else 365)
  }

  /** The number of a day, 1601-01-01 being day 0. */
  function DayNumber(d: Date): int
    requires d.Valid() && d.year >= 1601
  {
    DaysBeforeYear(d.year) + DaysBeforeMonth(d.year, d.month) + d.day - 1
  }

  /* ---- the source's arithmetic ---- */

  /** Years begin in March here, so that the leap day comes last. */
  function MarchYear(d: Date): int { if d.month <= 2 then d.year - 1 else d.year }

  function MarchMonth(d: Date): int { if d.month > 2 then d.month - 3 else d.month + 9 }

  /** Division in C. */
  function Truncated(a: int, b: int): int
    requires b > 0
  {
    if a >= 0 then a / b else -(-a / b)
  }

  /** days_from_1601. */
  function DaysFrom1601(d: Date): int {
    var y := MarchYear(d);
    var era := Truncated(if y >= 0 then y else y - 399, 400);
    var yoe := y - era * 400;
    var doy := (153 * MarchMonth(d) + 2) / 5 + d.day - 1;
    var doe := yoe * 365 + yoe / 4 - yoe / 100 + doy;
    era * 146097 + doe - 719468 + 134774
  }

  /** The source's correction makes the truncating division round down for every year. */
  lemma EraRoundsDown(y: int)
    ensures Truncated(if y >= 0 then y else y - 399, 400) == y / 400
  {
  }

  /** The date of a day number, by the arithmetic of dtv_utc_split. */
  function DateOf(days: nat): Date {
    var z := days - 134774 + 719468;
    var era := z / 146097;
    var doe := z - era * 146097;
    var yoe := YearOfEra(doe);
    Assemble(yoe + era * 400, doe - (365 * yoe + yoe / 4 - yoe / 100))
  }

  /** The date of a day of a March year. */
  function Assemble(y: int, doy: int): Date {
    var mp := (5 * doy + 2) / 153;
    var month := if mp < 10 then mp + 3 else mp - 9;
    Date(y + (if month <= 2 then 1 else 0), month, doy - (153 * mp + 2) / 5 + 1)
  }

  function YearOfEra(doe: int): int {
    (doe - doe / 1460 + doe / 36524 - doe / 146096) / 365
  }

  /* ---- the formula counts days ---- */

  /** Days of all years before year `y + 1`, up to a constant. */
  function YearDays(y: int): int { 365 * y + y / 4 - y / 100 + y / 400 }

  lemma YearDaysStep(y: int)
    ensures YearDays(y) - YearDays(y - 1) == if IsLeap(y) then 366 else 365
  {
    var q, r := y / 400, y % 400;
    assert y / 4 == 100 * q + r / 4 && y / 100 == 4 * q + r / 100;
    assert y % 4 == r % 4 && y % 100 == r % 100;
    assert (y - 1) / 4 == y / 4 - (if y % 4 == 0 then 1 else 0);
    assert (y - 1) / 100 == y / 100 - (if y % 100 == 0 then 1 else 0);
    assert (y - 1) / 400 == y / 400 - (if y % 400 == 0 then 1 else 0);
    assert y % 100 == 0 ==> y % 4 == 0;
  }

  lemma {:induction false} DaysBeforeYearFormula(year: int)
    requires year >= 1601
    ensures DaysBeforeYear(year) == YearDays(year - 1) - YearDays(1600)
    decreases year
  {
    if year > 1601 {
      DaysBeforeYearFormula(year - 1);
      YearDaysStep(year - 1);
    }
  }

  lemma {:induction false} DaysBeforeMonthFormula(year: int, month: int)
    requires 1 <= month <= 12
    ensures DaysBeforeMonth(year, month) ==
            if month <= 2 then 31 * (month - 1) else (153 * (month - 3) + 2) / 5 + 59 + (if IsLeap(year) then 1 else 0)
    decreases month
  {
    hide IsLeap;
    if month > 1 {
      DaysBeforeMonthFormula(year, month - 1);
    }
  }

  lemma EraSplitsYears(y: int)
    ensures var era := y / 400;
            var yoe := y - era * 400;
            0 <= yoe < 400 && era * 146097 + yoe * 365 + yoe / 4 - yoe / 100 == YearDays(y)
  {
    var era := y / 400;
    var yoe := y - era * 400;
    assert y / 4 == 100 * era + yoe / 4 && y / 100 == 4 * era + yoe / 100;
  }

  /** The closed formula is the day count, for every date from 1601 on. */
  lemma FormulaCountsDays(d: Date)
    requires d.Valid() && d.year >= 1601
    ensures DaysFrom1601(d) == DayNumber(d)
  {
    hide IsLeap, YearDays;
    EraRoundsDown(MarchYear(d));
    EraSplitsYears(MarchYear(d));
    DaysBeforeYearFormula(d.year);
    DaysBeforeMonthFormula(d.year, d.month);
    YearDaysStep(d.year);
    assert YearDays(1600) == 584388 by { YearDays1600(); }
  }

  lemma YearDays1600()
    ensures YearDays(1600) == 584388
  {
  }

  /* ---- days in order ---- */

  lemma {:induction false} YearsGrow(a: int, b: int)
    requires 1601 <= a < b
    ensures DaysBeforeYear(a) + (if IsLeap(a) then 366 else 365) <= DaysBeforeYear(b)
    decreases b
  {
    hide IsLeap;
    if a < b - 1 {
      YearsGrow(a, b - 1);
    }
  }

  lemma {:induction false} MonthsGrow(year: int, a: int, b: int)
    requires 1 <= a < b <= 12
    ensures DaysBeforeMonth(year, a) + DaysInMonth(year, a) <= DaysBeforeMonth(year, b)
    decreases b
  {
    hide IsLeap;
    if a < b - 1 {
      MonthsGrow(year, a, b - 1);
    }
  }

  lemma MonthWithinYear(year: int, month: int)
    requires 1 <= month <= 12
    ensures 0 <= DaysBeforeMonth(year, month)
    ensures DaysBeforeMonth(year, month) + DaysInMonth(year, month) <= if IsLeap(year) then 366 else 365
  {
    hide IsLeap;
    DaysBeforeMonthFormula(year, month);
  }

  /** Later dates have larger numbers. */
  lemma DaysStrictlyOrdered(a: Date, b: Date)
    requires a.Valid() && b.Valid() && 1601 <= a.year && a.Before(b)
    ensures DayNumber(a) < DayNumber(b)
  {
    hide IsLeap, DaysInMonth;
    MonthWithinYear(a.year, a.month);
    MonthWithinYear(b.year, b.month);
    if a.year < b.year {
      YearsGrow(a.year, b.year);
    } else if a.month < b.month {
      MonthsGrow(a.year, a.month, b.month);
    }
  }

  lemma SameNumberSameDate(a: Date, b: Date)
    requires a.Valid() && b.Valid() && a.year >= 1601 && b.year >= 1601 && DayNumber(a) == DayNumber(b)
    ensures a == b
  {
    if a != b {
      if a.Before(b) {
        DaysStrictlyOrdered(a, b);
      } else {
        DaysStrictlyOrdered(b, a);
      }
    }
  }

  lemma NextDay(d: Date)
    requires d.Valid() && d.year >= 1601
    ensures d.Next().Valid() && DayNumber(d.Next()) == DayNumber(d) + 1
  {
    hide IsLeap, DaysInMonth;
    YearEnds(d.year);
    MonthHasDays(d.year, if d.month < 12 then d.month + 1 else 1);
    MonthHasDays(d.year + 1, 1);
  }

  lemma MonthHasDays(year: int, month: int)
    ensures DaysInMonth(year, month) >= 28
  {
  }

  lemma YearEnds(year: int)
    ensures DaysBeforeMonth(year, 12) + DaysInMonth(year, 12) == if IsLeap(year) then 366 else 365
  {
    hide IsLeap;
    DaysBeforeMonthFormula(year, 12);
  }

  /* ---- and back ---- */

  /** A day of a 400-year era as centuries, four-year groups, years and days. */
  lemma EraParts(doe: int) returns (c: int, q: int, r: int, doy: int)
    requires 0 <= doe < 146097
    ensures 0 <= c <= 3 && 0 <= q <= 24 && 0 <= r <= 3 && 0 <= doy <= 365
    ensures doe == 36524 * c + 1461 * q + 365 * r + doy
    ensures doy == 365 ==> r == 3 && (q == 24 ==> c == 3)
  {
    c := if doe / 36524 > 3 then 3 else doe / 36524;
    var d := doe - 36524 * c;
    q := if d / 1461 > 24 then 24 else d / 1461;
    var e := d - 1461 * q;
    r := if e / 365 > 3 then 3 else e / 365;
    doy := e - 365 * r;
  }

  lemma YearOfEraCorrect(doe: int, c: int, q: int, r: int, doy: int)
    requires 0 <= doe < 146097
    requires 0 <= c <= 3 && 0 <= q <= 24 && 0 <= r <= 3 && 0 <= doy <= 365
    requires doe == 36524 * c + 1461 * q + 365 * r + doy
    requires doy == 365 ==> r == 3 && (q == 24 ==> c == 3)
    ensures YearOfEra(doe) == 100 * c + 4 * q + r
  {
    var rest := 24 * c + q + 365 * r + doy;
    var x := if rest >= 1460 then 1 else 0;
    assert doe == 1460 * (25 * c + q) + rest;
    assert doe / 1460 == 25 * c + q + x;
    assert doe / 36524 - doe / 146096 == c;
    assert doe - doe / 1460 + doe / 36524 - doe / 146096 == 365 * (100 * c + 4 * q + r) + doy - x;
    assert 0 <= doy - x < 365;
  }

  /** Months of a March year, from its day. */
  lemma MonthOfDay(doy: int)
    requires 0 <= doy <= 365
    ensures var mp := (5 * doy + 2) / 153;
            var first := (153 * mp + 2) / 5;
            && 0 <= mp <= 11 && first <= doy
            && (mp < 11 ==> doy < (153 * (mp + 1) + 2) / 5)
  {
  }

  /** Length of a March month, from the formula. */
  lemma MarchMonthLength(mp: int)
    requires 0 <= mp < 11
    ensures (153 * (mp + 1) + 2) / 5 - (153 * mp + 2) / 5 == if mp == 1 || mp == 3 || mp == 6 || mp == 8 then 30 else 31
  {
  }

  lemma AssembleIsValid(y: int, doy: int)
    requires 0 <= doy <= 365 && (doy == 365 ==> IsLeap(y + 1))
    ensures var d := Assemble(y, doy); d.Valid() && DaysFrom1601(d) == YearDays(y) + doy - 719468 + 134774
    ensures Assemble(y, doy).year == if doy >= 306 then y + 1 else y
  {
    hide IsLeap, YearDays;
    MonthOfDay(doy);
    var mp := (5 * doy + 2) / 153;
    if mp < 11 { MarchMonthLength(mp); }
    var d := Assemble(y, doy);
    assert MarchYear(d) == y && MarchMonth(d) == mp;
    EraRoundsDown(y);
    EraSplitsYears(y);
  }

  /** Every day number gives a valid date with that number. */
  lemma DateOfIsValid(days: nat)
    ensures var d := DateOf(days); d.Valid() && d.year >= 1601 && DaysFrom1601(d) == days
  {
    hide IsLeap, YearOfEra, Assemble, DaysFrom1601, DaysInMonth;
    var z := days - 134774 + 719468;
    var era := z / 146097;
    var doe := z - era * 146097;
    var c, q, r, doy := EraParts(doe);
    YearOfEraCorrect(doe, c, q, r, doy);
    var yoe := 100 * c + 4 * q + r;
    assert yoe / 4 == 25 * c + q && yoe / 100 == c;
    assert DateOf(days) == Assemble(yoe + era * 400, doy);
    if doy == 365 { LeapAtTheEnd(era, c, q, yoe); }
    AssembleIsValid(yoe + era * 400, doy);
    assert YearDays(yoe + era * 400) == era * 146097 + doe - doy by { YearDaysOfParts(era, yoe); }
    assert era >= 4 && (era == 4 ==> doe >= 306);
  }

  lemma YearDaysOfParts(era: int, yoe: int)
    requires 0 <= yoe < 400
    ensures YearDays(yoe + era * 400) == era * 146097 + 365 * yoe + yoe / 4 - yoe / 100
  {
    hide YearDays;
    var y := yoe + era * 400;
    assert y / 400 == era;
    EraSplitsYears(y);
  }

  lemma LeapAtTheEnd(era: int, c: int, q: int, yoe: int)
    requires 0 <= c <= 3 && 0 <= q <= 24 && yoe == 100 * c + 4 * q + 3 && (q == 24 ==> c == 3)
    ensures IsLeap(yoe + era * 400 + 1)
  {
    var y := yoe + era * 400 + 1;
    assert y == 4 * (25 * c + q + 1 + 100 * era);
    assert y == 100 * (c + 4 * era) + 4 * (q + 1);
    if q == 24 {
      assert y == 400 * (era + 1);
    }
  }

  /** The arithmetic inverts the count of days. */
  lemma DateOfInverts(d: Date)
    requires d.Valid() && d.year >= 1601
    ensures DaysFrom1601(d) >= 0 && DateOf(DaysFrom1601(d)) == d
  {
    hide DateOf, DaysFrom1601;
    FormulaCountsDays(d);
    DayNumberNatural(d);
    var e := DateOf(DaysFrom1601(d));
    DateOfIsValid(DaysFrom1601(d));
    FormulaCountsDays(e);
    SameNumberSameDate(d, e);
  }

  lemma DayNumberNatural(d: Date)
    requires d.Valid() && d.year >= 1601
    ensures DayNumber(d) >= 0
  {
    MonthWithinYear(d.year, d.month);
    if d.year > 1601 { YearsGrow(1601, d.year); }
  }

  /* ---- date and time in ticks ---- */

  const TICKS := 1000_0000
  const TWO_64 := 0x1_0000_0000_0000_0000

  datatype Time = Time(date: Date, hour: int, minute: int, second: int) {
    predicate Valid() { date.Valid() && 0 <= hour < 24 && 0 <= minute < 60 && 0 <= second < 60 }

    predicate Before(other: Time) {
      || date.Before(other.date)
      || (date == other.date && hour * 3600 + minute * 60 + second < other.hour * 3600 + other.minute * 60 +
          other.second)
    }
  }

  function Seconds(t: Time): int {
    DaysFrom1601(t.date) * 86400 + t.hour * 3600 + t.minute * 60 + t.second
  }

  /** dtv_utc_ticks: nothing before 1601, and the product in 64 bits. */
  function Ticks(t: Time): (ticks: nat) {
    if Seconds(t) < 0 then 0 else Seconds(t) * TICKS % TWO_64
  }

  /** dtv_utc_split. */
  function Split(ticks: nat): Time {
    var seconds := ticks / TICKS;
    var ofDay := seconds % 86400;
    Time(DateOf(seconds / 86400), ofDay / 3600, ofDay / 60 % 60, ofDay % 60)
  }

  lemma SplitOfSeconds(t: Time)
    requires t.Valid() && t.date.year >= 1601
    ensures Seconds(t) >= 0 && Split(Seconds(t) * TICKS) == t
  {
    hide DateOf, DaysFrom1601, IsLeap, DaysInMonth;
    DateOfInverts(t.date);
    var ofDay := t.hour * 3600 + t.minute * 60 + t.second;
    assert Seconds(t) / 86400 == DaysFrom1601(t.date) && Seconds(t) % 86400 == ofDay;
    assert Seconds(t) * TICKS / TICKS == Seconds(t);
  }

  /** Splitting is valid whatever the ticks, and recovers the whole seconds. */
  lemma SecondsOfSplit(ticks: nat)
    ensures Split(ticks).Valid() && Split(ticks).date.year >= 1601 && Seconds(Split(ticks)) == ticks / TICKS
  {
    hide DateOf, DaysFrom1601, IsLeap, DaysInMonth;
    var seconds := ticks / TICKS;
    DateOfIsValid(seconds / 86400);
    assert seconds == seconds / 86400 * 86400 + seconds % 86400;
  }

  /** dtv_utc_ticks of a split is the ticks floored to the second, for every 64-bit value. */
  lemma TicksOfSplit(ticks: nat)
    requires ticks < 0x1_0000_0000_0000_0000
    ensures Ticks(Split(ticks)) == ticks - ticks % 1000_0000
  {
    hide Split, Seconds;
    SecondsOfSplit(ticks);
  }

  /** dtv_utc_split inverts dtv_utc_ticks on every valid date and time from 1601 on, exactly as
      long as the ticks fit 64 bits (which they do until the year 60056). */
  lemma SplitOfTicks(t: Time)
    requires t.Valid() && t.date.year >= 1601
    ensures Split(Ticks(t)) == t <==> Seconds(t) * 1000_0000 < 0x1_0000_0000_0000_0000
  {
    hide Split, Seconds;
    SplitOfSeconds(t);
    if Seconds(t) * TICKS >= TWO_64 {
      SecondsOfSplit(Ticks(t));
    }
  }

  /** Later is more seconds, and more ticks before the ticks wrap. */
  lemma SecondsStrictlyOrdered(a: Time, b: Time)
    requires a.Valid() && b.Valid() && a.date.year >= 1601 && a.Before(b)
    ensures 0 <= Seconds(a) < Seconds(b)
  {
    hide DaysFrom1601, DayNumber, IsLeap, DaysInMonth;
    FormulaCountsDays(a.date);
    FormulaCountsDays(b.date);
    DayNumberNatural(a.date);
    if a.date.Before(b.date) {
      DaysStrictlyOrdered(a.date, b.date);
    }
  }

  lemma TicksStrictlyOrdered(a: Time, b: Time)
    requires a.Valid() && b.Valid() && a.date.year >= 1601 && a.Before(b) && Seconds(b) * TICKS < TWO_64
    ensures Ticks(a) < Ticks(b)
  {
    hide Seconds;
    SecondsStrictlyOrdered(a, b);
  }

  /** The same time one day later is 86400 seconds on. */
  lemma ConsecutiveDays(t: Time)
    requires t.Valid() && t.date.year >= 1601
    ensures var u := t.(date := t.date.Next());
            u.Valid() && Seconds(u) == Seconds(t) + 86400
  {
    hide DaysFrom1601, DayNumber, IsLeap;
    NextDay(t.date);
    FormulaCountsDays(t.date);
    FormulaCountsDays(t.date.Next());
  }
}
