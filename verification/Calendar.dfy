/**
 base/time/Date.cpp: the closed-form Julian day number and its inverse, proved against a
 calendar that only knows how to step from one day to the next.

 Years are astronomical (year 0 exists) and the Gregorian rules are extended backwards.
 */
module Calendar {
  import opened CMath

  datatype YearMonthDay = YearMonthDay(year: int, month: int, day: int)

  // ---------------------------------------------------------------- the code

  function JulianDayNumber(year: int, month: int, day: int): int {
    var a := TruncDiv(14 - month, 12);
    var y := year + 4800 - a;
    var m := month + 12 * a - 3;
    day + TruncDiv(153 * m + 2, 5) + y * 365 + TruncDiv(y, 4) - TruncDiv(y, 100) + TruncDiv(y, 400) - 32045
  }

  function FromJulianDay(julianDayNumber: int): YearMonthDay {
    var a := julianDayNumber + 32044;
    var b := TruncDiv(4 * a + 3, 146097);
    var c := a - TruncDiv(b * 146097, 4);
    var d := TruncDiv(4 * c + 3, 1461);
    var e := c - TruncDiv(1461 * d, 4);
    var m := TruncDiv(5 * e + 2, 153);
    YearMonthDay(b * 100 + d - 4800 + TruncDiv(m, 10),
                 m + 3 - 12 * TruncDiv(m, 10),
                 e - TruncDiv(153 * m + 2, 5) + 1)
  }

  function ToJulianDay(d: YearMonthDay): int {
    JulianDayNumber(d.year, d.month, d.day)
  }

  // ---------------------------------------------------------------- the reference calendar

  predicate IsLeap(year: int) {
    year % 4 == 0 && (year % 100 != 0 || year % 400 == 0)
  }

  function DaysInMonth(year: int, month: int): int {
    if month == 2 then if IsLeap(year) then 29 else 28
    else if month in {4, 6, 9, 11} then 30
    else 31
  }

  predicate IsDate(d: YearMonthDay) {
    1 <= d.month <= 12 && 1 <= d.day <= DaysInMonth(d.year, d.month)
  }

  function NextDay(d: YearMonthDay): YearMonthDay {
    if d.day < DaysInMonth(d.year, d.month) then d.(day := d.day + 1)
    else if d.month < 12 then YearMonthDay(d.year, d.month + 1, 1)
    else YearMonthDay(d.year + 1, 1, 1)
  }

  /** The first day from which on the closed form is right without exception. */
  const START := YearMonthDay(-4800, 3, 1)
  const START_DAY := -32044

  predicate FromStart(d: YearMonthDay) {
    d.year > -4800 || (d.year == -4800 && d.month >= 3)
  }

  /** The date reached by stepping n days from START. */
  function DateAfter(n: nat): YearMonthDay {
    if n == 0 then START else NextDay(DateAfter(n - 1))
  }

  // ---------------------------------------------------------------- March-based years

  /** Days before day 1 of month m of a year that begins in March. */
  function MonthStart(m: int): int {
    (153 * m + 2) / 5
  }

  /** Days from START to the first of March of March-based year y. */
  function YearStart(y: int): int {
    365 * y + y / 4 - y / 100 + y / 400
  }

  /** 1 for January and February, which belong to the March-based year before. */
  function Shift(d: YearMonthDay): int {
    if d.month <= 2 then 1 else 0
  }

  function MarchYear(d: YearMonthDay): int {
    d.year + 4800 - Shift(d)
  }

  function MarchMonth(d: YearMonthDay): int {
    d.month + 12 * Shift(d) - 3
  }

  function DayOfMarchYear(d: YearMonthDay): int {
    MonthStart(MarchMonth(d)) + d.day - 1
  }

  function DaysFromStart(d: YearMonthDay): int {
    YearStart(MarchYear(d)) + DayOfMarchYear(d)
  }

  lemma ClosedForm(d: YearMonthDay)
    requires IsDate(d) && FromStart(d)
    ensures ToJulianDay(d) == START_DAY + DaysFromStart(d)
  {
  }

  /** Division that truncates is one more than division that rounds down, below zero and off the multiples. */
  lemma TruncFloor4(y: int)
    ensures TruncDiv(y, 4) == y / 4 + if y < 0 && y % 4 != 0 then 1 else 0
  {
    assert y == 4 * (y / 4) + y % 4;
  }

  lemma TruncFloor100(y: int)
    ensures TruncDiv(y, 100) == y / 100 + if y < 0 && y % 100 != 0 then 1 else 0
  {
    assert y == 100 * (y / 100) + y % 100;
  }

  lemma TruncFloor400(y: int)
    ensures TruncDiv(y, 400) == y / 400 + if y < 0 && y % 400 != 0 then 1 else 0
  {
    assert y == 400 * (y / 400) + y % 400;
  }

  /** The closed form is right on a date exactly if its March-based year is not negative, or is a leap one. */
  lemma RightExactly(d: YearMonthDay)
    requires IsDate(d)
    ensures ToJulianDay(d) == START_DAY + DaysFromStart(d) <==> MarchYear(d) >= 0 || IsLeap(MarchYear(d))
    ensures ToJulianDay(d) == START_DAY + DaysFromStart(d) + if MarchYear(d) >= 0 || IsLeap(MarchYear(d)) then 0 else 1
  {
    var y := MarchYear(d);
    TruncFloor4(y);
    TruncFloor100(y);
    TruncFloor400(y);
    Multiples(y);
    hide TruncDiv;
    MonthTerms(d);
  }

  lemma Multiples(y: int)
    ensures (y % 400 == 0 ==> y % 100 == 0) && (y % 100 == 0 ==> y % 4 == 0)
  {
    if y % 400 == 0 {
      Multiple100(y, 4 * (y / 400));
    }
    if y % 100 == 0 {
      Multiple4(y, 25 * (y / 100));
    }
  }

  lemma Multiple100(y: int, q: int)
    requires y == 100 * q
    ensures y % 100 == 0
  {
  }

  lemma Multiple4(y: int, q: int)
    requires y == 4 * q
    ensures y % 4 == 0
  {
  }

  lemma MonthTerms(d: YearMonthDay)
    requires IsDate(d)
    ensures TruncDiv(14 - d.month, 12) == Shift(d) && TruncDiv(153 * MarchMonth(d) + 2, 5) == MonthStart(MarchMonth(d))
  {
  }

  /** A March-based year is one day longer exactly when the February at its end has 29 days. */
  lemma YearLength(y: int)
    ensures YearStart(y + 1) == YearStart(y) + (if IsLeap(y + 1) then 366 else 365)
  {
    assert (y + 1) / 4 == y / 4 + (if (y + 1) % 4 == 0 then 1 else 0);
    assert (y + 1) / 100 == y / 100 + (if (y + 1) % 100 == 0 then 1 else 0);
    assert (y + 1) / 400 == y / 400 + (if (y + 1) % 400 == 0 then 1 else 0);
    assert (y + 1) % 400 == 0 ==> (y + 1) % 100 == 0;
    assert (y + 1) % 100 == 0 ==> (y + 1) % 4 == 0;
  }

  lemma LeapPeriod(year: int)
    ensures IsLeap(year + 4800) == IsLeap(year)
  {
    Period4(year);
    Period100(year);
    Period400(year);
  }

  lemma Period4(y: int)
    ensures (y + 4800) % 4 == y % 4
  {
    assert y + 4800 == 4 * (y / 4 + 1200) + y % 4;
  }

  lemma Period100(y: int)
    ensures (y + 4800) % 100 == y % 100
  {
    assert y + 4800 == 100 * (y / 100 + 48) + y % 100;
  }

  lemma Period400(y: int)
    ensures (y + 4800) % 400 == y % 400
  {
    assert y + 4800 == 400 * (y / 400 + 12) + y % 400;
  }

  // ---------------------------------------------------------------- counting

  /** Stepping from the last day of a month lands on the next month's start. */
  lemma MonthLength(d: YearMonthDay)
    requires IsDate(d) && d.month != 2
    ensures MonthStart(MarchMonth(d) + 1) == MonthStart(MarchMonth(d)) + DaysInMonth(d.year, d.month)
  {
  }

  lemma DaysFromStartAdvances(d: YearMonthDay)
    requires IsDate(d)
    ensures IsDate(NextDay(d))
    ensures DaysFromStart(NextDay(d)) == DaysFromStart(d) + 1
  {
    if d.day == DaysInMonth(d.year, d.month) {
      if d.month == 2 {
        LeapPeriod(d.year);
        YearLength(MarchYear(d));
      } else {
        MonthLength(d);
      }
    }
  }

  /** One day later in the calendar is one more in the closed form. */
  lemma DayNumberAdvances(d: YearMonthDay)
    requires IsDate(d) && FromStart(d)
    ensures IsDate(NextDay(d)) && FromStart(NextDay(d))
    ensures ToJulianDay(NextDay(d)) == ToJulianDay(d) + 1
  {
    DaysFromStartAdvances(d);
    ClosedForm(d);
    ClosedForm(NextDay(d));
  }

  /** The closed form equals counting days one at a time from START. */
  lemma {:induction false} DayNumberCountsDays(n: nat)
    ensures IsDate(DateAfter(n)) && FromStart(DateAfter(n))
    ensures ToJulianDay(DateAfter(n)) == START_DAY + n
  {
    if n == 0 {
      ClosedForm(START);
    } else {
      DayNumberCountsDays(n - 1);
      DayNumberAdvances(DateAfter(n - 1));
    }
  }

  // ---------------------------------------------------------------- the inverse

  lemma CenturyBound(y: nat, e: nat)
    requires e <= 365 && (e == 365 ==> IsLeap(y + 1))
    ensures var r := y % 100;
            0 <= 4 * (365 * r + r / 4 + e) + 3 - (y / 100) % 4 < 146097
  {
    if y % 100 == 99 && e == 365 {
      assert (y + 1) % 100 == 0;
      assert (y / 100) % 4 == 3;
    }
  }

  lemma CenturyDays(y: nat)
    ensures var q, r := y / 100, y % 100;
            YearStart(y) == (q * 146097) / 4 + 365 * r + r / 4
  {
    var q, r := y / 100, y % 100;
    assert y / 4 == 25 * q + r / 4;
    assert y / 400 == q / 4;
  }

  lemma DivideByCentury(a: int, q: nat, c: int)
    requires a == (q * 146097) / 4 + c && 0 <= 4 * c + 3 - q % 4 < 146097
    ensures (4 * a + 3) / 146097 == q
  {
    assert 4 * ((q * 146097) / 4) == q * 146097 - q % 4;
  }

  /** The 400- and 100-year cycles are separated by one division. */
  lemma SplitCentury(y: nat, e: nat)
    requires e <= 365 && (e == 365 ==> IsLeap(y + 1))
    ensures var a := YearStart(y) + e;
            var q, r := y / 100, y % 100;
            && (4 * a + 3) / 146097 == q
            && a - (q * 146097) / 4 == 365 * r + r / 4 + e
  {
    var q, r := y / 100, y % 100;
    CenturyDays(y);
    CenturyBound(y, e);
    DivideByCentury(YearStart(y) + e, q, 365 * r + r / 4 + e);
  }

  lemma SplitYear(y: nat, e: nat)
    requires e <= 365 && (e == 365 ==> IsLeap(y + 1))
    ensures var r := y % 100;
            var c := 365 * r + r / 4 + e;
            && (4 * c + 3) / 1461 == r
            && c - (1461 * r) / 4 == e
  {
    var r := y % 100;
    var c := 365 * r + r / 4 + e;
    assert (1461 * r) / 4 == 365 * r + r / 4;
    assert 4 * c + 3 == 1461 * r + (4 * e + 3 - r % 4);
    assert e == 365 ==> r % 4 == 3;
  }

  lemma SplitMonth(m: int, day: int)
    requires 0 <= m <= 11 && 1 <= day && MonthStart(m) + day <= MonthStart(m + 1)
    ensures (5 * (MonthStart(m) + day - 1) + 2) / 153 == m
  {
  }

  lemma DayOfMarchYearBounds(d: YearMonthDay)
    requires IsDate(d)
    ensures 0 <= DayOfMarchYear(d) <= 365
    ensures DayOfMarchYear(d) == 365 ==> IsLeap(MarchYear(d) + 1)
    ensures 0 <= MarchMonth(d) <= 11
    ensures MonthStart(MarchMonth(d)) + d.day <= MonthStart(MarchMonth(d) + 1)
  {
    LeapPeriod(d.year);
    if d.month != 2 {
      MonthLength(d);
    }
  }

  /** FromJulianDay, with the value of every intermediate variable known. */
  lemma InverseSteps(a: nat, b: nat, c: nat, d: nat, e: nat, m: nat, s: nat)
    requires (4 * a + 3) / 146097 == b && a - (b * 146097) / 4 == c
    requires (4 * c + 3) / 1461 == d && c - (1461 * d) / 4 == e
    requires (5 * e + 2) / 153 == m && m / 10 == s
    ensures FromJulianDay(a - 32044)
         == YearMonthDay(b * 100 + d - 4800 + s, m + 3 - 12 * s, e - MonthStart(m) + 1)
  {
    TruncOfNat(4 * a + 3, 146097);
    TruncOfNat(b * 146097, 4);
    TruncOfNat(4 * c + 3, 1461);
    TruncOfNat(1461 * d, 4);
    TruncOfNat(5 * e + 2, 153);
    TruncOfNat(m, 10);
    TruncOfNat(153 * m + 2, 5);
    hide TruncDiv;
  }

  lemma TruncOfNat(a: nat, b: nat)
    requires b > 0
    ensures TruncDiv(a, b) == a / b
  {
  }

  lemma InverseOfMarchDay(a: nat, y: nat, e: nat, m: nat, s: nat)
    requires a == YearStart(y) + e
    requires e <= 365 && (e == 365 ==> IsLeap(y + 1)) && (5 * e + 2) / 153 == m && m / 10 == s
    ensures FromJulianDay(a - 32044) == YearMonthDay(y - 4800 + s, m + 3 - 12 * s, e - MonthStart(m) + 1)
  {
    var q, r := y / 100, y % 100;
    var c := 365 * r + r / 4 + e;
    assert (4 * a + 3) / 146097 == q && a - (q * 146097) / 4 == c by { SplitCentury(y, e); }
    assert (4 * c + 3) / 1461 == r && c - (1461 * r) / 4 == e by { SplitYear(y, e); }
    InverseSteps(a, q, c, r, e, m, s);
  }

  lemma InverseOf(d: YearMonthDay, a: int)
    requires IsDate(d) && FromStart(d) && a == DaysFromStart(d)
    ensures FromJulianDay(a - 32044) == d
  {
    var y, e, m, s := MarchYear(d), DayOfMarchYear(d), MarchMonth(d), Shift(d);
    assert 0 <= e <= 365 && (e == 365 ==> IsLeap(y + 1)) && 0 <= m by { DayOfMarchYearBounds(d); }
    assert (5 * e + 2) / 153 == m by { DayOfMarchYearBounds(d); SplitMonth(m, d.day); }
    InverseOfMarchDay(a, y, e, m, s);
  }

  /** The inverse recovers every date that the closed form is right about. */
  lemma DateRoundTrip(d: YearMonthDay)
    requires IsDate(d) && FromStart(d)
    ensures FromJulianDay(ToJulianDay(d)) == d
  {
    ClosedForm(d);
    InverseOf(d, ToJulianDay(d) + 32044);
  }

  /** Two-sided inverse: every day number from START on names one date, the one reached by counting. */
  lemma DayNumberRoundTrip(julianDay: int)
    requires julianDay >= START_DAY
    ensures var d := FromJulianDay(julianDay);
            IsDate(d) && FromStart(d) && ToJulianDay(d) == julianDay && d == DateAfter(julianDay - START_DAY)
  {
    DayNumberCountsDays(julianDay - START_DAY);
    DateRoundTrip(DateAfter(julianDay - START_DAY));
  }

  /** For instance on the day before START, whose March-based year is -1: it shares its number with START. */
  lemma StartIsSharp()
    ensures var before := YearMonthDay(-4800, 2, 29);
            && IsDate(before) && NextDay(before) == START
            && ToJulianDay(before) == ToJulianDay(START) == START_DAY
  {
  }

  // ---------------------------------------------------------------- weekdays

  function WeekDay(julianDay: int): int {
    TruncRem(julianDay + 1, 7)
  }

  /** The weekday advances by one modulo seven with every date, whatever its sign. */
  lemma WeekDayAdvances(julianDay: int)
    ensures (WeekDay(julianDay + 1) - WeekDay(julianDay) - 1) % 7 == 0
    ensures 0 <= WeekDay(julianDay) <= 6 <==> julianDay >= -1 || (julianDay + 1) % 7 == 0
  {
    var a := julianDay + 1;
    if a < 0 {
      assert TruncRem(a, 7) == -((-a) % 7);
      if a + 1 < 0 {
        assert TruncRem(a + 1, 7) == -((-a - 1) % 7);
      }
    }
  }
}
