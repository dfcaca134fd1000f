/** base/Date.cc: the conversion between Julian day numbers and Gregorian dates.

    The reference is the calendar itself: leap years, month lengths and "the day
    after". The arithmetic of the source is proved to be the one numbering that
    gives consecutive days consecutive numbers. */
module Dates {
  import opened Arith

  datatype Ymd = Ymd(year: int, month: int, day: int)

  const FIRST_JULIAN_DAY := -32044   // 1 March -4800
  const FIRST_DATE := Ymd(-4800, 3, 1)

  function JulianDayNumber(year: int, month: int, day: int): int {
    var a := TruncDiv(14 - month, 12);
    var y := year + 4800 - a;
    var m := month + 12 * a - 3;
    day + TruncDiv(153 * m + 2, 5) + y * 365 + TruncDiv(y, 4) - TruncDiv(y, 100) + TruncDiv(y, 400) - 32045
  }

  function YearMonthDay(julianDayNumber: int): Ymd {
    var a := julianDayNumber + 32044;
    var b := TruncDiv(4 * a + 3, 146097);
    var c := a - TruncDiv(b * 146097, 4);
    var d := TruncDiv(4 * c + 3, 1461);
    var e := c - TruncDiv(1461 * d, 4);
    var m := TruncDiv(5 * e + 2, 153);
    Ymd(b * 100 + d - 4800 + TruncDiv(m, 10),
        m + 3 - 12 * TruncDiv(m, 10),
        e - TruncDiv(153 * m + 2, 5) + 1)
  }

  function DayNumber(d: Ymd): int {
    JulianDayNumber(d.year, d.month, d.day)
  }

  const JULIAN_DAY_OF_1970_01_01 := JulianDayNumber(1970, 1, 1)

  // ----- the proleptic Gregorian calendar -----

  predicate IsLeapYear(year: int) {
    year % 400 == 0 || (year % 4 == 0 && year % 100 != 0)
  }

  function DaysOfMonth(year: int, month: int): int {
    if month == 2 then (if IsLeapYear(year) then 29 else 28)
    else if month == 4 || month == 6 || month == 9 || month == 11 then 30
    else 31
  }

  predicate ValidDate(d: Ymd) {
    1 <= d.month <= 12 && 1 <= d.day <= DaysOfMonth(d.year, d.month)
  }

  predicate Before(x: Ymd, y: Ymd) {
    x.year < y.year || (x.year == y.year && (x.month < y.month || (x.month == y.month && x.day < y.day)))
  }

  /** The dates the day numbers from FIRST_JULIAN_DAY on stand for. */
  predicate InDomain(d: Ymd) {
    ValidDate(d) && !Before(d, FIRST_DATE)
  }

  function NextDay(d: Ymd): Ymd {
    if d.day < DaysOfMonth(d.year, d.month) then d.(day := d.day + 1)
    else if d.month < 12 then Ymd(d.year, d.month + 1, 1)
    else Ymd(d.year + 1, 1, 1)
  }

  // ----- years that begin in March -----

  /** Days of a March-based year that come before its m-th month. */
  function MonthStart(m: int): int {
    (153 * m + 2) / 5
  }

  predicate LeapMarchYear(b: int, d: int) {
    d % 4 == 3 && (d == 99 ==> b % 4 == 3)
  }

  /** Day e of the March-based year 100 b + d (counted from -4800), in its m-th
      month: where the two directions meet. */
  predicate MarchDay(b: int, d: int, e: int, m: int) {
    && 0 <= b && 0 <= d < 100 && 0 <= m < 12
    && MonthStart(m) <= e < MonthStart(m + 1)
    && e < (if LeapMarchYear(b, d) then 366 else 365)
  }

  function MarchDate(b: int, d: int, e: int, m: int): Ymd {
    Ymd(b * 100 + d - 4800 + m / 10, m + 3 - 12 * (m / 10), e - MonthStart(m) + 1)
  }

  function MarchNumber(b: int, d: int, e: int): int {
    146097 * b / 4 + 1461 * d / 4 + e - 32044
  }

  /** The leap day closes the March-based year, so it is the next year that counts. */
  lemma LeapRule(b: int, d: int)
    requires 0 <= d < 100
    ensures IsLeapYear(100 * b + d - 4799) <==> LeapMarchYear(b, d)
  {
    var y := 100 * b + d - 4799;
    Quotient(y, 4, 25 * b - 1200 + (d + 1) / 4, (d + 1) % 4);
    if d < 99 {
      Quotient(y, 100, b - 48, d + 1);
      NotMultiple(y);
    } else {
      Quotient(y, 100, b - 47, 0);
      if b % 4 == 3 {
        Quotient(y, 400, b / 4 - 11, 0);
      } else {
        Quotient(y, 400, b / 4 - 12, 100 * (b % 4) + 100);
      }
    }
  }

  lemma NotMultiple(y: int)
    requires y % 100 != 0
    ensures y % 400 != 0
  {
  }

  lemma MonthLength(year: int, m: int)
    requires 0 <= m < 11
    ensures MonthStart(m + 1) - MonthStart(m) == DaysOfMonth(year, m + 3 - 12 * (m / 10))
  {
  }

  lemma MarchDateIsValid(b: int, d: int, e: int, m: int)
    requires MarchDay(b, d, e, m)
    ensures InDomain(MarchDate(b, d, e, m))
  {
    LeapRule(b, d);
    if m < 11 {
      MonthLength(MarchDate(b, d, e, m).year, m);
    }
  }

  lemma Quarters(b: int, d: int)
    ensures 146097 * b / 4 == 36524 * b + b / 4
    ensures 1461 * d / 4 == 365 * d + d / 4
  {
  }

  lemma MarchYear(b: int, d: int)
    requires 0 <= b && 0 <= d < 100
    ensures var y := 100 * b + d;
            y / 4 == 25 * b + d / 4 && y / 100 == b && y / 400 == b / 4
  {
  }

  lemma MarchDateNumber(b: int, d: int, e: int, m: int)
    requires MarchDay(b, d, e, m)
    ensures DayNumber(MarchDate(b, d, e, m)) == MarchNumber(b, d, e)
  {
    MarchYear(b, d);
    Quarters(b, d);
    var date := MarchDate(b, d, e, m);
    assert TruncDiv(14 - date.month, 12) == m / 10;
  }

  /** Splitting a day count into centuries of 36524 or 36525 days. */
  lemma CenturySplit(a: int)
    requires a >= 0
    ensures var b := (4 * a + 3) / 146097; var c := a - 146097 * b / 4;
            b >= 0 && 0 <= c <= 36524 && (c == 36524 ==> b % 4 == 3)
  {
  }

  lemma CenturyUnique(b: int, c: int)
    requires b >= 0 && 0 <= c <= 36524 && (c == 36524 ==> b % 4 == 3)
    ensures (4 * (146097 * b / 4 + c) + 3) / 146097 == b
  {
  }

  /** Splitting what is left into years of 365 or 366 days. */
  lemma YearSplit(c: int)
    requires 0 <= c <= 36524
    ensures var d := (4 * c + 3) / 1461; var e := c - 1461 * d / 4;
            0 <= d < 100 && 0 <= e <= 365 && (e == 365 ==> d % 4 == 3)
            && (d == 99 && e == 365 ==> c == 36524)
  {
  }

  lemma YearUnique(d: int, e: int)
    requires 0 <= d < 100 && 0 <= e <= 365 && (e == 365 ==> d % 4 == 3)
    ensures (4 * (1461 * d / 4 + e) + 3) / 1461 == d
    ensures 0 <= 1461 * d / 4 + e <= 36524
    ensures 1461 * d / 4 + e == 36524 ==> d == 99 && e == 365
  {
  }

  lemma MonthSplit(e: int)
    requires 0 <= e <= 365
    ensures var m := (5 * e + 2) / 153; 0 <= m < 12 && MonthStart(m) <= e < MonthStart(m + 1)
  {
  }

  lemma MonthUnique(e: int, m: int)
    requires 0 <= m < 12 && MonthStart(m) <= e < MonthStart(m + 1)
    ensures (5 * e + 2) / 153 == m
  {
  }

  /** The source's divisions, given the quotients they have. */
  lemma Unfold(j: int, b: int, c: int, d: int, e: int, m: int)
    requires b >= 0 && c >= 0 && d >= 0 && e >= 0 && m >= 0
    requires j + 32044 == 146097 * b / 4 + c && c == 1461 * d / 4 + e
    requires (4 * (j + 32044) + 3) / 146097 == b && (4 * c + 3) / 1461 == d && (5 * e + 2) / 153 == m
    ensures YearMonthDay(j) == MarchDate(b, d, e, m)
  {
    var a := j + 32044;
    assert TruncDiv(4 * a + 3, 146097) == b;
    assert TruncDiv(b * 146097, 4) == 146097 * b / 4;
    assert TruncDiv(4 * c + 3, 1461) == d;
    assert TruncDiv(1461 * d, 4) == 1461 * d / 4;
    assert TruncDiv(5 * e + 2, 153) == m;
  }

  lemma DecodeMarch(j: int) returns (b: int, d: int, e: int, m: int)
    requires j >= FIRST_JULIAN_DAY
    ensures MarchDay(b, d, e, m)
    ensures j == MarchNumber(b, d, e)
    ensures YearMonthDay(j) == MarchDate(b, d, e, m)
  {
    var a := j + 32044;
    b := (4 * a + 3) / 146097;
    CenturySplit(a);
    var c := a - 146097 * b / 4;
    d := (4 * c + 3) / 1461;
    YearSplit(c);
    e := c - 1461 * d / 4;
    m := (5 * e + 2) / 153;
    MonthSplit(e);
    Unfold(j, b, c, d, e, m);
  }

  lemma EncodeMarch(b: int, d: int, e: int, m: int)
    requires MarchDay(b, d, e, m)
    ensures YearMonthDay(MarchNumber(b, d, e)) == MarchDate(b, d, e, m)
    ensures MarchNumber(b, d, e) >= FIRST_JULIAN_DAY
  {
    var c := 1461 * d / 4 + e;
    YearUnique(d, e);
    CenturyUnique(b, c);
    MonthUnique(e, m);
    Unfold(MarchNumber(b, d, e), b, c, d, e, m);
  }

  lemma ToMarch(date: Ymd) returns (b: int, d: int, e: int, m: int)
    requires InDomain(date)
    ensures MarchDay(b, d, e, m)
    ensures date == MarchDate(b, d, e, m)
  {
    var y := date.year + 4800 - (if date.month < 3 then 1 else 0);
    m := if date.month < 3 then date.month + 9 else date.month - 3;
    b, d := y / 100, y % 100;
    e := date.day - 1 + MonthStart(m);
    LeapRule(b, d);
    if m < 11 {
      MonthLength(date.year, m);
    }
  }

  // ----- the two directions are inverse -----

  lemma DayRoundTrip(j: int)
    requires j >= FIRST_JULIAN_DAY
    ensures InDomain(YearMonthDay(j))
    ensures DayNumber(YearMonthDay(j)) == j
  {
    var b, d, e, m := DecodeMarch(j);
    MarchDateIsValid(b, d, e, m);
    MarchDateNumber(b, d, e, m);
  }

  lemma DateRoundTrip(date: Ymd)
    requires InDomain(date)
    ensures DayNumber(date) >= FIRST_JULIAN_DAY
    ensures YearMonthDay(DayNumber(date)) == date
  {
    var b, d, e, m := ToMarch(date);
    MarchDateNumber(b, d, e, m);
    EncodeMarch(b, d, e, m);
  }

  /** The day after, in March-based years. */
  function MarchAfter(b: int, d: int, e: int, m: int): (int, int, int, int) {
    if e + 1 < MonthStart(m + 1) && e + 1 < (if LeapMarchYear(b, d) then 366 else 365) then (b, d, e + 1, m)
    else if m < 11 then (b, d, e + 1, m + 1)
    else if d < 99 then (b, d + 1, 0, 0)
    else (b + 1, 0, 0, 0)
  }

  /** In numbers. */
  lemma NextMarchNumber(b: int, d: int, e: int, m: int)
    requires MarchDay(b, d, e, m)
    ensures var (b', d', e', m') := MarchAfter(b, d, e, m);
            MarchDay(b', d', e', m') && MarchNumber(b', d', e') == MarchNumber(b, d, e) + 1
  {
  }

  /** In calendar dates. */
  lemma NextMarchDate(b: int, d: int, e: int, m: int)
    requires MarchDay(b, d, e, m)
    ensures var (b', d', e', m') := MarchAfter(b, d, e, m);
            NextDay(MarchDate(b, d, e, m)) == MarchDate(b', d', e', m')
  {
    LeapRule(b, d);
    if m < 11 {
      MonthLength(MarchDate(b, d, e, m).year, m);
    }
  }

  /** The numbering counts days: the day after has the next number. */
  lemma NextDayIsNextNumber(date: Ymd)
    requires InDomain(date)
    ensures InDomain(NextDay(date))
    ensures DayNumber(NextDay(date)) == DayNumber(date) + 1
  {
    var b, d, e, m := ToMarch(date);
    var (b', d', e', m') := MarchAfter(b, d, e, m);
    MarchDateNumber(b, d, e, m);
    NextMarchNumber(b, d, e, m);
    NextMarchDate(b, d, e, m);
    MarchDateIsValid(b', d', e', m');
    MarchDateNumber(b', d', e', m');
  }

  /** What a numbering of the calendar is: two inverse maps between the dates and
      the numbers from FIRST_JULIAN_DAY on, by which the day after has the next number. */
  ghost predicate Numbering(toDate: int -> Ymd, toNumber: Ymd -> int) {
    && (forall j :: j >= FIRST_JULIAN_DAY ==> InDomain(toDate(j)) && toNumber(toDate(j)) == j)
    && (forall d {:trigger toNumber(d)} :: InDomain(d) ==> toNumber(d) >= FIRST_JULIAN_DAY && toDate(toNumber(d)) == d)
    && (forall d {:trigger NextDay(d)} :: InDomain(d) ==>
         InDomain(NextDay(d)) && toNumber(NextDay(d)) == toNumber(d) + 1)
  }

  lemma DateIsNumbering()
    ensures Numbering(YearMonthDay, DayNumber)
  {
    forall j | j >= FIRST_JULIAN_DAY ensures InDomain(YearMonthDay(j)) && DayNumber(YearMonthDay(j)) == j {
      DayRoundTrip(j);
    }
    forall d | InDomain(d)
      ensures DayNumber(d) >= FIRST_JULIAN_DAY && YearMonthDay(DayNumber(d)) == d
    {
      DateRoundTrip(d);
    }
    forall d | InDomain(d)
      ensures InDomain(NextDay(d)) && DayNumber(NextDay(d)) == DayNumber(d) + 1
    {
      NextDayIsNextNumber(d);
    }
  }

  lemma {:induction false} Increasing(toDate: int -> Ymd, toNumber: Ymd -> int, j: int, k: int)
    requires Numbering(toDate, toNumber)
    requires FIRST_JULIAN_DAY <= j < k
    ensures Before(toDate(j), toDate(k))
    decreases k - j
  {
    var d := toDate(k - 1);
    assert toNumber(NextDay(d)) == k;
    assert Before(d, NextDay(d));
    if j < k - 1 {
      Increasing(toDate, toNumber, j, k - 1);
    }
  }

  /** Dates and their numbers are ordered alike. */
  lemma OrderEmbedding(toDate: int -> Ymd, toNumber: Ymd -> int, x: Ymd, y: Ymd)
    requires Numbering(toDate, toNumber)
    requires InDomain(x) && InDomain(y)
    ensures Before(x, y) <==> toNumber(x) < toNumber(y)
  {
    if toNumber(x) < toNumber(y) {
      Increasing(toDate, toNumber, toNumber(x), toNumber(y));
    } else if toNumber(y) < toNumber(x) {
      Increasing(toDate, toNumber, toNumber(y), toNumber(x));
    }
  }

  /** There is only one numbering once the first date has its number: whatever
      counts the days from there agrees with it on every date. */
  lemma {:induction false} OnlyNumbering(toDate: int -> Ymd, toNumber: Ymd -> int, f: Ymd -> int, d: Ymd)
    requires Numbering(toDate, toNumber) && toNumber(FIRST_DATE) == FIRST_JULIAN_DAY == f(FIRST_DATE)
    requires forall x {:trigger NextDay(x)} :: InDomain(x) ==> f(NextDay(x)) == f(x) + 1
    requires InDomain(d)
    ensures f(d) == toNumber(d)
    decreases toNumber(d) - FIRST_JULIAN_DAY
  {
    var j := toNumber(d);
    if j == FIRST_JULIAN_DAY {
      assert toDate(toNumber(FIRST_DATE)) == FIRST_DATE;
    } else {
      var previous := toDate(j - 1);
      assert toNumber(NextDay(previous)) == j;
      OnlyNumbering(toDate, toNumber, f, previous);
    }
  }

  lemma DateOrder(x: Ymd, y: Ymd)
    requires InDomain(x) && InDomain(y)
    ensures Before(x, y) <==> DayNumber(x) < DayNumber(y)
  {
    DateIsNumbering();
    OrderEmbedding(YearMonthDay, DayNumber, x, y);
  }

  /** Before 1 March -4800 truncation takes over and no valid date comes out. */
  lemma ValidFromFirstDayOn(j: int)
    ensures ValidDate(YearMonthDay(j)) <==> j >= FIRST_JULIAN_DAY
  {
    if j >= FIRST_JULIAN_DAY {
      DayRoundTrip(j);
    } else {
      var a := j + 32044;
      var c := a - TruncDiv(TruncDiv(4 * a + 3, 146097) * 146097, 4);
      NegativeStep(a, 146097);
      var e := c - TruncDiv(1461 * TruncDiv(4 * c + 3, 1461), 4);
      NegativeStep(c, 1461);
      NegativeDay(e);
    }
  }

  /** A negative count stays negative when whole cycles of n / 4 days are taken off. */
  lemma NegativeStep(a: int, n: int)
    requires a < 0 && (n == 146097 || n == 1461)
    ensures a - TruncDiv(TruncDiv(4 * a + 3, n) * n, 4) < 0
  {
  }

  lemma NegativeDay(e: int)
    requires e < 0
    ensures e - TruncDiv(153 * TruncDiv(5 * e + 2, 153) + 2, 5) + 1 <= 0
  {
  }
}
