/**
 base/time/TimeZone.cpp: toUtcTime, fromUtcTime and fillHMS, with C++ division on negative times.
 */
module UtcTime {
  import opened CMath
  import opened Calendar

  const SECONDS_PER_DAY := 24 * 60 * 60

  /** Date::kJulianDayOf1970_01_01. */
  const EPOCH_DAY := 2440588

  /** The first second of the first day on which the day number is right. */
  const FIRST_SECOND := (START_DAY - EPOCH_DAY) * SECONDS_PER_DAY

  /** struct tm: year counts from 1900 and mon from 0. */
  datatype Tm = Tm(sec: int, min: int, hour: int, mday: int, mon: int, year: int, wday: int, yday: int)

  function DateOf(tm: Tm): YearMonthDay {
    YearMonthDay(tm.year + 1900, tm.mon + 1, tm.mday)
  }

  /** 1 January 1970, a Thursday. */
  lemma EpochDay()
    ensures JulianDayNumber(1970, 1, 1) == EPOCH_DAY && WeekDay(EPOCH_DAY) == 4
  {
  }

  // ---------------------------------------------------------------- the code

  method FillHMS(seconds: nat, utc: Tm) returns (r: Tm)
    ensures r == utc.(sec := seconds % 60, min := (seconds / 60) % 60, hour := seconds / 3600)
  {
    r := utc.(sec := seconds % 60);
    var minutes := seconds / 60;
    r := r.(min := minutes % 60);
    r := r.(hour := minutes / 60);
  }

  method ToUtcTime(secondsSinceEpoch: int, yday: bool) returns (utc: Tm)
    ensures utc == UtcTm(secondsSinceEpoch, yday)
  {
    hide JulianDayNumber, FromJulianDay, WeekDay;
    utc := Tm(0, 0, 0, 0, 0, 0, 0, 0);
    var seconds := TruncRem(secondsSinceEpoch, SECONDS_PER_DAY);
    var days := TruncDiv(secondsSinceEpoch, SECONDS_PER_DAY);
    if seconds < 0 {
      seconds := seconds + SECONDS_PER_DAY;
      days := days - 1;
    }
    assert days == secondsSinceEpoch / SECONDS_PER_DAY && seconds == secondsSinceEpoch % SECONDS_PER_DAY by {
      SplitsDays(secondsSinceEpoch, days, seconds);
    }
    utc := FillHMS(seconds, utc);
    var date := days + EPOCH_DAY;
    var ymd := FromJulianDay(date);
    utc := utc.(year := ymd.year - 1900);
    utc := utc.(mon := ymd.month - 1);
    utc := utc.(mday := ymd.day);
    utc := utc.(wday := WeekDay(date));
    if yday {
      var startOfYear := JulianDayNumber(ymd.year, 1, 1);
      utc := utc.(yday := date - startOfYear);
    }
  }

  function FromUtcTime(utc: Tm): int {
    FromUtcFields(utc.year + 1900, utc.mon + 1, utc.mday, utc.hour, utc.min, utc.sec)
  }

  function FromUtcFields(year: int, month: int, day: int, hour: int, minute: int, seconds: int): int {
    var secondsInDay := hour * 3600 + minute * 60 + seconds;
    var days := JulianDayNumber(year, month, day) - EPOCH_DAY;
    days * SECONDS_PER_DAY + secondsInDay
  }

  // ---------------------------------------------------------------- the specification

  /** The broken-down form of a time, with days and seconds split by floor division. */
  function UtcTm(t: int, yday: bool): Tm {
    var date := t / SECONDS_PER_DAY + EPOCH_DAY;
    var s := t % SECONDS_PER_DAY;
    var ymd := FromJulianDay(date);
    Tm(s % 60, (s / 60) % 60, s / 3600, ymd.day, ymd.month - 1, ymd.year - 1900, WeekDay(date),
       if yday then date - JulianDayNumber(ymd.year, 1, 1) else 0)
  }

  lemma SplitsDays(t: int, days: int, seconds: int)
    requires t == days * SECONDS_PER_DAY + seconds && 0 <= seconds < SECONDS_PER_DAY
    ensures days == t / SECONDS_PER_DAY && seconds == t % SECONDS_PER_DAY
  {
  }

  predicate ValidFields(tm: Tm) {
    && 0 <= tm.sec < 60 && 0 <= tm.min < 60 && 0 <= tm.hour < 24
    && IsDate(DateOf(tm)) && FromStart(DateOf(tm))
  }

  // ---------------------------------------------------------------- mutual inverses

  /** Every second from the calendar's start is recovered, and its fields are in range. */
  lemma SecondsRoundTrip(t: int, yday: bool)
    requires t >= FIRST_SECOND
    ensures FromUtcTime(UtcTm(t, yday)) == t
    ensures ValidFields(UtcTm(t, yday))
  {
    hide JulianDayNumber, FromJulianDay;
    var date := t / SECONDS_PER_DAY + EPOCH_DAY;
    DayNumberRoundTrip(date);
    var s := t % SECONDS_PER_DAY;
    assert s == (s / 3600) * 3600 + ((s / 60) % 60) * 60 + s % 60;
    var tm := UtcTm(t, yday);
    assert DateOf(tm) == FromJulianDay(date);
    assert ToJulianDay(DateOf(tm)) == date;
  }

  /** Every valid broken-down time is recovered; weekday and day of year are recomputed. */
  lemma FieldsRoundTrip(tm: Tm, yday: bool)
    requires ValidFields(tm)
    ensures FromUtcTime(tm) >= FIRST_SECOND
    ensures var r := UtcTm(FromUtcTime(tm), yday);
            r == tm.(wday := r.wday, yday := r.yday)
  {
    hide JulianDayNumber, FromJulianDay, WeekDay, IsDate;
    var date := ToJulianDay(DateOf(tm));
    var s := tm.hour * 3600 + tm.min * 60 + tm.sec;
    var t := FromUtcTime(tm);
    assert t == (date - EPOCH_DAY) * SECONDS_PER_DAY + s;
    HmsRoundTrip(tm.hour, tm.min, tm.sec);
    SplitsDays(t, date - EPOCH_DAY, s);
    DateRoundTrip(DateOf(tm));
    NumberFromStart(DateOf(tm));
  }

  lemma HmsRoundTrip(hour: int, min: int, sec: int)
    requires 0 <= sec < 60 && 0 <= min < 60 && 0 <= hour < 24
    ensures var s := hour * 3600 + min * 60 + sec;
            0 <= s < SECONDS_PER_DAY && s % 60 == sec && (s / 60) % 60 == min && s / 3600 == hour
  {
  }

  lemma NumberFromStart(d: YearMonthDay)
    requires IsDate(d) && FromStart(d)
    ensures ToJulianDay(d) >= START_DAY
  {
    ClosedForm(d);
    DayOfMarchYearBounds(d);
    YearStartNonNegative(MarchYear(d));
  }

  lemma YearStartNonNegative(y: nat)
    ensures YearStart(y) >= 0
  {
  }

  /** From day -1 on the weekday is counted from Thursday, 1 January 1970, with Sunday as 0. */
  lemma WeekDayExactly(t: int, yday: bool)
    requires t / 86400 + 2440588 >= -1
    ensures UtcTm(t, yday).wday == (t / 86400 + 4) % 7
  {
    hide FromJulianDay, JulianDayNumber;
    var days := t / 86400;
    assert (days + 2440588 + 1) % 7 == (days + 4) % 7 by {
      SevenDays(days);
    }
  }

  lemma SevenDays(d: int)
    ensures (d + 2440589) % 7 == (d + 4) % 7
  {
    assert d + 2440589 == d + 4 + 7 * 348655;
  }

  /** The day of the year is only filled in on request. */
  lemma YearDayOnRequest(t: int)
    ensures UtcTm(t, false) == UtcTm(t, true).(yday := 0)
  {
    hide FromJulianDay, JulianDayNumber, WeekDay;
  }

  /** The weekday moves on by one, modulo seven, with every day. */
  lemma WeekDayOfNextDay(t: int, yday: bool)
    ensures (UtcTm(t + SECONDS_PER_DAY, yday).wday - UtcTm(t, yday).wday - 1) % 7 == 0
  {
    SplitsDays(t + SECONDS_PER_DAY, t / SECONDS_PER_DAY + 1, t % SECONDS_PER_DAY);
    WeekDayAdvances(t / SECONDS_PER_DAY + EPOCH_DAY);
  }

  // ---------------------------------------------------------------- day of the year

  /** Days in the months of the year before the given one. */
  function DaysBefore(year: int, month: int): int {
    if month <= 1 then 0 else DaysBefore(year, month - 1) + DaysInMonth(year, month - 1)
  }

  /** Zero for the first of January. */
  function DayOfYear(d: YearMonthDay): int {
    DaysBefore(d.year, d.month) + d.day - 1
  }

  lemma {:induction false} YearDayByMonth(year: int, month: int)
    requires 1 <= month <= 12 && year > -4800
    ensures ToJulianDay(YearMonthDay(year, month, 1)) == ToJulianDay(YearMonthDay(year, 1, 1)) + DaysBefore(year, month)
  {
    hide JulianDayNumber;
    if month > 1 {
      YearDayByMonth(year, month - 1);
      var last := YearMonthDay(year, month - 1, DaysInMonth(year, month - 1));
      DayNumberAdvances(last);
      SameMonth(last);
    }
  }

  lemma SameMonth(d: YearMonthDay)
    ensures ToJulianDay(d) == ToJulianDay(d.(day := 1)) + d.day - 1
  {
  }

  lemma DaysBeforeMarch(year: int, month: int)
    requires 3 <= month <= 12
    ensures DaysBefore(year, month) == MonthStart(month - 3) + (if IsLeap(year) then 60 else 59)
    decreases month
  {
    if month > 3 {
      DaysBeforeMarch(year, month - 1);
    } else {
      assert DaysBefore(year, 2) == 31;
    }
  }

  lemma FirstNewYear()
    ensures JulianDayNumber(-4800, 1, 1) == -32103
  {
  }

  lemma FirstYear(d: YearMonthDay)
    requires IsDate(d) && FromStart(d) && d.year == -4800
    ensures ToJulianDay(d) - JulianDayNumber(d.year, 1, 1) == DayOfYear(d) - 1
  {
    hide JulianDayNumber;
    ClosedForm(d);
    DaysBeforeMarch(d.year, d.month);
    FirstNewYear();
  }

  lemma DayOfYearBounds(d: YearMonthDay)
    requires IsDate(d)
    ensures 0 <= DayOfYear(d) <= 365
  {
    if d.month >= 3 {
      DaysBeforeMarch(d.year, d.month);
    } else {
      assert DaysBefore(d.year, 2) == 31;
    }
  }

  /**
   tm_yday stays in 0..365 from the calendar's start on, and it is the true day of the year exactly
   when the year is after -4800: in -4800 the number of the first of January is truncated the wrong
   way, so tm_yday is one short.
   */
  lemma YearDayIsExact(t: int)
    requires t >= FIRST_SECOND
    ensures var tm := UtcTm(t, true);
            && 0 <= tm.yday <= 365
            && (tm.yday == DayOfYear(DateOf(tm)) <==> tm.year + 1900 > -4800)
            && (tm.year + 1900 == -4800 ==> tm.yday == DayOfYear(DateOf(tm)) - 1)
  {
    hide JulianDayNumber, FromJulianDay;
    var date := t / SECONDS_PER_DAY + EPOCH_DAY;
    DayNumberRoundTrip(date);
    var d := FromJulianDay(date);
    assert DateOf(UtcTm(t, true)) == d;
    DayOfYearBounds(d);
    if d.year == -4800 {
      FirstYear(d);
      DaysBeforeMarch(d.year, d.month);
    } else {
      SameMonth(d);
      YearDayByMonth(d.year, d.month);
    }
  }
}
