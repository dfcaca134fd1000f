/** base/TimeZone.cc, toUtcTime and fromUtcTime: seconds since 1970 and broken-down
    UTC time. The specification floors where the source truncates and corrects. */
module UtcTimes {
  import opened Arith
  import opened Dates

  const SECONDS_PER_DAY := 86400
  const EPOCH_DAY := 2440588   // Date::kJulianDayOf1970_01_01
  const FIRST_SECOND := (FIRST_JULIAN_DAY - EPOCH_DAY) * SECONDS_PER_DAY

  /** The fields of struct tm that the source fills in. */
  datatype Tm = Tm(year: int, mon: int, mday: int, hour: int, min: int, sec: int, wday: int, yday: int)

  function DateOf(tm: Tm): Ymd {
    Ymd(tm.year + 1900, tm.mon + 1, tm.mday)
  }

  predicate ValidClock(tm: Tm) {
    0 <= tm.hour < 24 && 0 <= tm.min < 60 && 0 <= tm.sec < 60
  }

  function WeekDay(julianDayNumber: int): int {
    TruncMod(julianDayNumber + 1, 7)
  }

  function DayAt(seconds: int): int {
    seconds / SECONDS_PER_DAY + EPOCH_DAY
  }

  /** toUtcTime, given the two conversions between days and dates. */
  function UtcTimeBy(toDate: int -> Ymd, toNumber: Ymd -> int, seconds: int, yday: bool): Tm {
    var j, rest := DayAt(seconds), seconds % SECONDS_PER_DAY;
    var date := toDate(j);
    Tm(date.year - 1900, date.month - 1, date.day, rest / 3600, rest / 60 % 60, rest % 60,
       WeekDay(j), if yday then j - toNumber(Ymd(date.year, 1, 1)) else 0)
  }

  function UtcTime(seconds: int, yday: bool): Tm {
    UtcTimeBy(YearMonthDay, DayNumber, seconds, yday)
  }

  method FillHMS(seconds: nat) returns (hour: int, min: int, sec: int)
    requires seconds < SECONDS_PER_DAY
    ensures hour * 3600 + min * 60 + sec == seconds
    ensures 0 <= hour < 24 && 0 <= min < 60 && 0 <= sec < 60
    ensures hour == seconds / 3600 && min == seconds / 60 % 60 && sec == seconds % 60
  {
    sec := seconds % 60;
    var minutes := seconds / 60;
    min := minutes % 60;
    hour := minutes / 60;
  }

  /** Truncating division, corrected when the remainder is negative. */
  method SplitDays(secondsSinceEpoch: int) returns (days: int, seconds: nat)
    ensures days == secondsSinceEpoch / SECONDS_PER_DAY && seconds == secondsSinceEpoch % SECONDS_PER_DAY
  {
    var remainder := TruncMod(secondsSinceEpoch, SECONDS_PER_DAY);
    days := TruncDiv(secondsSinceEpoch, SECONDS_PER_DAY);
    Truncates(secondsSinceEpoch, SECONDS_PER_DAY);
    if remainder < 0 {
      remainder := remainder + SECONDS_PER_DAY;
      days := days - 1;
    }
    Quotient(secondsSinceEpoch, SECONDS_PER_DAY, days, remainder);
    seconds := remainder;
  }

  method ToUtcTimeBy(toDate: int -> Ymd, toNumber: Ymd -> int, secondsSinceEpoch: int, yday: bool) returns (utc: Tm)
    ensures utc == UtcTimeBy(toDate, toNumber, secondsSinceEpoch, yday)
  {
    var days, seconds := SplitDays(secondsSinceEpoch);
    var hour, min, sec := FillHMS(seconds);
    var date := days + EPOCH_DAY;
    var ymd := toDate(date);
    var dayOfYear := 0;
    if yday {
      var startOfYear := toNumber(Ymd(ymd.year, 1, 1));
      dayOfYear := date - startOfYear;
    }
    utc := Tm(ymd.year - 1900, ymd.month - 1, ymd.day, hour, min, sec, WeekDay(date), dayOfYear);
  }

  method ToUtcTime(secondsSinceEpoch: int, yday: bool) returns (utc: Tm)
    ensures utc == UtcTime(secondsSinceEpoch, yday)
  {
    utc := ToUtcTimeBy(YearMonthDay, DayNumber, secondsSinceEpoch, yday);
  }

  function SecondsBy(toNumber: Ymd -> int, utc: Tm): int {
    (toNumber(DateOf(utc)) - EPOCH_DAY) * SECONDS_PER_DAY + (utc.hour * 3600 + utc.min * 60 + utc.sec)
  }

  function FromUtcTime(utc: Tm): int {
    SecondsBy(DayNumber, utc)
  }

  lemma EpochIsJanuaryFirst1970()
    ensures JULIAN_DAY_OF_1970_01_01 == EPOCH_DAY
    ensures WeekDay(EPOCH_DAY) == 4
  {
  }

  lemma ClockOf(rest: int)
    requires 0 <= rest < SECONDS_PER_DAY
    ensures 0 <= rest / 3600 < 24 && rest / 3600 * 3600 + rest / 60 % 60 * 60 + rest % 60 == rest
  {
  }

  lemma ClockUnique(hour: int, min: int, sec: int)
    requires 0 <= hour < 24 && 0 <= min < 60 && 0 <= sec < 60
    ensures var rest := hour * 3600 + min * 60 + sec;
            0 <= rest < SECONDS_PER_DAY && rest / 3600 == hour && rest / 60 % 60 == min && rest % 60 == sec
  {
    var rest := hour * 3600 + min * 60 + sec;
    Quotient(rest, 3600, hour, min * 60 + sec);
    Quotient(rest, 60, hour * 60 + min, sec);
    Quotient(hour * 60 + min, 60, hour, min);
  }

  lemma SecondsBack(toDate: int -> Ymd, toNumber: Ymd -> int, seconds: int, yday: bool)
    requires toNumber(toDate(DayAt(seconds))) == DayAt(seconds)
    ensures var tm := UtcTimeBy(toDate, toNumber, seconds, yday);
            SecondsBy(toNumber, tm) == seconds && DateOf(tm) == toDate(DayAt(seconds)) && ValidClock(tm)
  {
    ClockOf(seconds % SECONDS_PER_DAY);
  }

  /** From broken-down time back to the same second, with every date and clock
      field in its range; negative seconds included. */
  lemma UtcRoundTrip(seconds: int, yday: bool)
    requires seconds >= FIRST_SECOND
    ensures FromUtcTime(UtcTime(seconds, yday)) == seconds
    ensures InDomain(DateOf(UtcTime(seconds, yday))) && ValidClock(UtcTime(seconds, yday))
  {
    DayRoundTrip(DayAt(seconds));
    SecondsBack(YearMonthDay, DayNumber, seconds, yday);
  }

  lemma FieldsBack(toDate: int -> Ymd, toNumber: Ymd -> int, tm: Tm)
    requires toDate(toNumber(DateOf(tm))) == DateOf(tm) && ValidClock(tm)
    ensures var back := UtcTimeBy(toDate, toNumber, SecondsBy(toNumber, tm), false);
            DateOf(back) == DateOf(tm) && back.hour == tm.hour && back.min == tm.min && back.sec == tm.sec
    ensures toNumber(DateOf(tm)) >= FIRST_JULIAN_DAY ==> SecondsBy(toNumber, tm) >= FIRST_SECOND
  {
    var rest := tm.hour * 3600 + tm.min * 60 + tm.sec;
    ClockUnique(tm.hour, tm.min, tm.sec);
    Quotient(SecondsBy(toNumber, tm), SECONDS_PER_DAY, toNumber(DateOf(tm)) - EPOCH_DAY, rest);
  }

  /** And from any valid broken-down time to its second and back. */
  lemma FieldRoundTrip(tm: Tm)
    requires InDomain(DateOf(tm)) && ValidClock(tm)
    ensures FromUtcTime(tm) >= FIRST_SECOND
    ensures var back := UtcTime(FromUtcTime(tm), false);
            DateOf(back) == DateOf(tm) && back.hour == tm.hour && back.min == tm.min && back.sec == tm.sec
  {
    DateRoundTrip(DateOf(tm));
    FieldsBack(YearMonthDay, DayNumber, tm);
  }

  /** The remainder of a negative day number is negative: the week day is one of
      0 .. 6 exactly from day -1 on, and on every earlier Sunday. */
  lemma WeekDayRange(j: int)
    ensures 0 <= WeekDay(j) <= 6 <==> j >= -1 || (j + 1) % 7 == 0
  {
  }

  /** The next day is the next day of the week: always up to sevens, and as a number
      of 0 .. 6 exactly where that comes out. */
  lemma WeekDayAdvances(j: int)
    ensures (WeekDay(j + 1) - WeekDay(j) - 1) % 7 == 0
    ensures WeekDay(j + 1) == (WeekDay(j) + 1) % 7 <==> j >= -1 || (j + 2) % 7 == 0
  {
  }

  lemma WeekDayOf(j: int, days: int)
    requires j == days + EPOCH_DAY
    ensures WeekDay(j) == (days + 4) % 7 - if j < -1 && (days + 4) % 7 != 0 then 7 else 0
  {
    Quotient(j + 1, 7, (days + 4) / 7 + 348655, (days + 4) % 7);
  }

  lemma WdayOf(toDate: int -> Ymd, toNumber: Ymd -> int, seconds: int, yday: bool)
    ensures var tm, k := UtcTimeBy(toDate, toNumber, seconds, yday), (seconds / SECONDS_PER_DAY + 4) % 7;
            && tm.wday == k - (if DayAt(seconds) < -1 && k != 0 then 7 else 0)
            && (!yday ==> tm.yday == 0)
  {
    WeekDayOf(DayAt(seconds), seconds / SECONDS_PER_DAY);
  }

  /** tm_wday counts from Sunday, and 1 January 1970 was a Thursday; before day -1 the
      remainder is negative. tm_yday stays zero unless it is asked for. */
  lemma WdayIsWeekDay(seconds: int, yday: bool)
    ensures var tm, k := UtcTime(seconds, yday), (seconds / 86400 + 4) % 7;
            && tm.wday == k - (if seconds / 86400 < -2440589 && k != 0 then 7 else 0)
            && (!yday ==> tm.yday == 0)
  {
    WdayOf(YearMonthDay, DayNumber, seconds, yday);
  }

  // ----- day of the year -----

  /** Days of the year before the month, summed over the month lengths. */
  function DaysBeforeMonth(year: int, month: nat): int {
    if month <= 1 then 0 else DaysBeforeMonth(year, month - 1) + DaysOfMonth(year, month - 1)
  }

  function OrdinalDate(d: Ymd): int
    requires d.month >= 0
  {
    DaysBeforeMonth(d.year, d.month) + d.day - 1
  }

  lemma OrdinalIff(d: Ymd)
    requires InDomain(d)
    ensures DayNumber(d) - DayNumber(Ymd(d.year, 1, 1)) == OrdinalDate(d) <==> d.year > -4800
  {
    if d.year > -4800 {
      SinceJanuary(d);
    } else {
      FirstYear(d);
    }
  }

  lemma YdayOf(toDate: int -> Ymd, toNumber: Ymd -> int, seconds: int, d: Ymd)
    requires d == toDate(DayAt(seconds)) && toNumber(d) == DayAt(seconds)
    ensures var tm := UtcTimeBy(toDate, toNumber, seconds, true);
            DateOf(tm) == d && tm.yday == toNumber(d) - toNumber(Ymd(d.year, 1, 1))
  {
  }

  /** tm_yday counts the days since January 1. Only in the year -4800 it does not:
      that January 1 lies before the first day and is numbered one too high. */
  lemma YdayIsOrdinalDate(seconds: int)
    requires seconds >= FIRST_SECOND
    ensures var tm := UtcTime(seconds, true);
            DateOf(tm).month >= 0 && (tm.yday == OrdinalDate(DateOf(tm)) <==> DateOf(tm).year > -4800)
  {
    var d := YearMonthDay(DayAt(seconds));
    DayRoundTrip(DayAt(seconds));
    OrdinalIff(d);
    YdayOf(YearMonthDay, DayNumber, seconds, d);
  }

  lemma YearDays(year: int, month: int)
    requires 1 <= month <= 12
    ensures DaysBeforeMonth(year, month) ==
            [0, 0, 31, 59, 90, 120, 151, 181, 212, 243, 273, 304, 334][month]
            + if month > 2 && IsLeapYear(year) then 1 else 0
  {
  }

  function LeapDays(y: int): int {
    TruncDiv(y, 4) - TruncDiv(y, 100) + TruncDiv(y, 400)
  }

  lemma Multiples(y: int)
    ensures y / 4 - (y - 1) / 4 == if y % 4 == 0 then 1 else 0
    ensures y / 100 - (y - 1) / 100 == if y % 100 == 0 then 1 else 0
    ensures y / 400 - (y - 1) / 400 == if y % 400 == 0 then 1 else 0
  {
  }

  lemma LeapDayCounts(y: int)
    requires y >= 1
    ensures LeapDays(y) - LeapDays(y - 1) == if IsLeapYear(y - 4800) then 1 else 0
  {
    Multiples(y);
    Quotient(y - 4800, 400, y / 400 - 12, y % 400);
    Quotient(y - 4800, 100, y / 100 - 48, y % 100);
    Quotient(y - 4800, 4, y / 4 - 1200, y % 4);
    if y % 400 == 0 {
      Quotient(y, 100, y / 400 * 4, 0);
    }
    if y % 100 == 0 {
      Quotient(y, 4, y / 100 * 25, 0);
    }
  }

  lemma FromMarch(d: Ymd)
    requires 3 <= d.month <= 12
    ensures var y := d.year + 4800;
            DayNumber(d) == d.day + MonthStart(d.month - 3) + y * 365 + LeapDays(y) - 32045
  {
  }

  lemma BeforeMarch(d: Ymd)
    requires 1 <= d.month < 3
    ensures var y := d.year + 4799;
            DayNumber(d) == d.day + MonthStart(d.month + 9) + y * 365 + LeapDays(y) - 32045
  {
  }

  lemma MonthOffsets(month: int)
    requires 3 <= month <= 12
    ensures MonthStart(month - 3) + 59 == [0, 0, 31, 59, 90, 120, 151, 181, 212, 243, 273, 304, 334][month]
  {
  }

  lemma SinceJanuary(d: Ymd)
    requires InDomain(d) && d.year > -4800
    ensures DayNumber(d) - JulianDayNumber(d.year, 1, 1) == OrdinalDate(d)
  {
    BeforeMarch(Ymd(d.year, 1, 1));
    YearDays(d.year, d.month);
    if d.month < 3 {
      BeforeMarch(d);
    } else {
      FromMarch(d);
      MonthOffsets(d.month);
      LeapDayCounts(d.year + 4800);
    }
  }

  lemma FirstYear(d: Ymd)
    requires InDomain(d) && d.year == -4800
    ensures DayNumber(d) - JulianDayNumber(d.year, 1, 1) == OrdinalDate(d) - 1
  {
    BeforeMarch(Ymd(d.year, 1, 1));
    YearDays(d.year, d.month);
    FromMarch(d);
    MonthOffsets(d.month);
    assert LeapDays(0) == 0 && LeapDays(-1) == 0 && IsLeapYear(-4800);
  }
}
