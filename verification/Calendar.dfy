/**
  Calendar arithmetic: common/calendar.h, gmtime_r of userland/lib/time.c and the
  count of seconds in kernel/drivers/rtc.c.
*/
module Calendar {
  const SECONDS_PER_DAY := 86400

  predicate IsLeapYear(year: nat) {
    year % 4 == 0 && (year % 100 != 0 || year % 400 == 0)
  }

  function DaysInYear(year: nat): nat {
    if IsLeapYear(year) then 366 else 365
  }

  /** `month`: January is 1. */
  function DaysInMonth(year: nat, month: nat): nat
    requires 1 <= month <= 12
  {
    var table := [31, 28, 31, 30, 31, 30, 31, 31, 30, 31, 30, 31];
    if month == 2 && IsLeapYear(year) then 29 else table[month - 1]
  }

  // ---------------------------------------------------------------- counting days

  /** Days from the beginning of 1970 to the beginning of a year. */
  ghost function DaysBeforeYear(year: nat): nat
    requires year >= 1970
  {
    if year == 1970 then 0 else DaysBeforeYear(year - 1) + DaysInYear(year - 1)
  }

  /** Days of a year before a month; month 13 stands for the year's end. */
  ghost function DaysBeforeMonth(year: nat, month: nat): nat
    requires 1 <= month <= 13
  {
    if month == 1 then 0 else DaysBeforeMonth(year, month - 1) + DaysInMonth(year, month - 1)
  }

  datatype Date = Date(year: nat, month: nat, day: nat) {
    /** A day of the calendar, from 1970 on. */
    ghost predicate Valid() {
      year >= 1970 && 1 <= month <= 12 && 1 <= day <= DaysInMonth(year, month)
    }

    /** Days since the epoch. */
    ghost function Days(): nat
      requires Valid()
    {
      DaysBeforeYear(year) + DaysBeforeMonth(year, month) + day - 1
    }
  }

  /** Days before a month of a common year. */
  function CommonBefore(month: nat): nat
    requires 1 <= month <= 12
  {
    [0, 31, 59, 90, 120, 151, 181, 212, 243, 273, 304, 334][month - 1]
  }

  lemma {:induction false} MonthTable(year: nat, month: nat)
    requires 1 <= month <= 12
    ensures DaysBeforeMonth(year, month) == CommonBefore(month) + if month > 2 && IsLeapYear(year) then 1 else 0
  {
    if month > 1 { MonthTable(year, month - 1); }
  }

  lemma MonthsFillYear(year: nat)
    ensures DaysBeforeMonth(year, 13) == DaysInYear(year)
  {
    MonthTable(year, 12);
  }

  lemma {:induction false} MonthsAscend(year: nat, m: nat, n: nat)
    requires 1 <= m <= n <= 12
    ensures DaysBeforeMonth(year, m) + (if m < n then DaysInMonth(year, m) else 0) <= DaysBeforeMonth(year, n)
  {
    if m < n { MonthsAscend(year, m, n - 1); }
  }

  lemma {:induction false} BeforeYearEnd(year: nat, m: nat)
    requires 1 <= m <= 12
    ensures DaysBeforeMonth(year, m) + DaysInMonth(year, m) <= DaysInYear(year)
  {
    MonthsAscend(year, m, 12);
    MonthsFillYear(year);
  }

  lemma {:induction false} YearsAscend(y: nat, z: nat)
    requires 1970 <= y < z
    ensures DaysBeforeYear(y) + DaysInYear(y) <= DaysBeforeYear(z)
  {
    if y + 1 < z { YearsAscend(y, z - 1); }
  }

  /** Different days have different counts. */
  lemma DaysInjective(a: Date, b: Date)
    requires a.Valid() && b.Valid() && a.Days() == b.Days()
    ensures a == b
  {
    BeforeYearEnd(a.year, a.month);
    BeforeYearEnd(b.year, b.month);
    if a.year < b.year { YearsAscend(a.year, b.year); }
    if b.year < a.year { YearsAscend(b.year, a.year); }
    if a.month < b.month { MonthsAscend(a.year, a.month, b.month); }
    if b.month < a.month { MonthsAscend(a.year, b.month, a.month); }
  }

  // ---------------------------------------------------------------------- weekdays

  /** Zeller's congruence, as day_of_week computes it; Sunday is 0. */
  function DayOfWeek(year: nat, month: nat, day: nat): nat
    requires year > 0 && 1 <= month <= 12
  {
    var (y, m) := if month <= 2 then (year - 1, month + 12) else (year, month);
    (day + (13 * m + 8) / 5 + y + y / 4 - y / 100 + y / 400) % 7
  }

  /** Leap days in the years up to and including y. */
  function LeapDays(y: nat): int { y / 4 - y / 100 + y / 400 }

  lemma Every4(y: nat)
    requires y > 0
    ensures y / 4 == (y - 1) / 4 + if y % 4 == 0 then 1 else 0
  {
  }

  lemma Every100(y: nat)
    requires y > 0
    ensures y / 100 == (y - 1) / 100 + if y % 100 == 0 then 1 else 0
  {
  }

  lemma Every400(y: nat)
    requires y > 0
    ensures y / 400 == (y - 1) / 400 + if y % 400 == 0 then 1 else 0
  {
  }

  lemma Times4(q: nat)
    ensures (4 * q) % 4 == 0
  {
  }

  lemma Times100(q: nat)
    ensures (100 * q) % 100 == 0
  {
  }

  lemma Centuries(y: nat)
    requires y % 100 == 0
    ensures y % 4 == 0
  {
    Times4(25 * (y / 100));
    assert y == 4 * (25 * (y / 100));
  }

  lemma FourCenturies(y: nat)
    requires y % 400 == 0
    ensures y % 100 == 0
  {
    Times100(4 * (y / 400));
    assert y == 100 * (4 * (y / 400));
  }

  lemma LeapDaysStep(y: nat)
    requires y > 0
    ensures LeapDays(y) == LeapDays(y - 1) + if IsLeapYear(y) then 1 else 0
  {
    Every4(y);
    Every100(y);
    Every400(y);
    if y % 100 == 0 { Centuries(y); }
    if y % 400 == 0 { FourCenturies(y); }
  }

  /** The days before a year in closed form. */
  lemma {:induction false} DaysBeforeYearClosed(year: nat)
    requires year >= 1970
    ensures DaysBeforeYear(year) == 365 * (year - 1970) + LeapDays(year - 1) - 477
  {
    if year > 1970 {
      DaysBeforeYearClosed(year - 1);
      LeapDaysStep(year - 1);
    }
  }

  lemma SameModulo7(a: nat, b: nat, k: int)
    requires a == b + 7 * k
    ensures a % 7 == b % 7
  {
  }

  /** Zeller's month term is the days before the month, up to whole weeks. */
  function Weeks(month: nat): int
    requires 1 <= month <= 12
  {
    [5, 1, -7, -11, -15, -19, -23, -27, -31, -35, -39, -43][month - 1]
  }

  lemma MonthTerm(month: nat)
    requires 1 <= month <= 12
    ensures var m := if month <= 2 then month + 12 else month;
            (13 * m + 8) / 5 + (if month <= 2 then 0 else 1) == CommonBefore(month) + 7 * Weeks(month)
  {
  }

  /** Zeller's sum before its remainder is taken. */
  ghost function ZellerSum(d: Date): nat
    requires d.year > 0 && 1 <= d.month <= 12
  {
    var (y, m) := if d.month <= 2 then (d.year - 1, d.month + 12) else (d.year, d.month);
    d.day + (13 * m + 8) / 5 + y + y / 4 - y / 100 + y / 400
  }

  lemma ZellerSumForm(d: Date)
    requires d.year > 0 && 1 <= d.month <= 12
    ensures ZellerSum(d) == d.day + CommonBefore(d.month) + 7 * Weeks(d.month) + d.year - 1 + LeapDays(d.year - 1)
                            + if d.month > 2 && IsLeapYear(d.year) then 1 else 0
  {
    MonthTerm(d.month);
    LeapDaysStep(d.year);
    hide CommonBefore, Weeks, IsLeapYear;
  }

  lemma DaysForm(d: Date)
    requires d.Valid()
    ensures d.Days() == 365 * (d.year - 1970) + LeapDays(d.year - 1) - 477 + CommonBefore(d.month) + d.day - 1
                        + if d.month > 2 && IsLeapYear(d.year) then 1 else 0
  {
    MonthTable(d.year, d.month);
    DaysBeforeYearClosed(d.year);
    hide CommonBefore, LeapDays, IsLeapYear, DaysBeforeYear, DaysBeforeMonth;
  }

  /** The closed form agrees with counting days from Thursday, 1 January 1970. */
  lemma WeekdayCorrect(d: Date)
    requires d.Valid()
    ensures DayOfWeek(d.year, d.month, d.day) == (d.Days() + 4) % 7
  {
    assert DayOfWeek(d.year, d.month, d.day) == ZellerSum(d) % 7;
    ZellerSumForm(d);
    DaysForm(d);
    hide DayOfWeek, ZellerSum, LeapDays, IsLeapYear, CommonBefore, Weeks, Date.Days;
    SameModulo7(ZellerSum(d), d.Days() + 4, Weeks(d.month) - 52 * (d.year - 1) + 102737);
  }

  // ------------------------------------------------------------------- the code

  /** day_of_year */
  method DayOfYear(year: nat, month: nat, day: nat) returns (result: nat)
    requires Date(year, month, day).Valid()
    ensures result == DaysBeforeMonth(year, month) + day - 1 < DaysInYear(year)
  {
    BeforeYearEnd(year, month);
    result := day - 1;
    var m := 1;
    while m < month
      invariant 1 <= m <= month && result == DaysBeforeMonth(year, m) + day - 1
    {
      result := result + DaysInMonth(year, m);
      m := m + 1;
    }
  }

  /** days_since_epoch */
  method DaysSinceEpoch(year: nat, month: nat, day: nat) returns (days: nat)
    requires Date(year, month, day).Valid()
    ensures days == Date(year, month, day).Days()
  {
    days := DayOfYear(year, month, day);
    var y := 1970;
    while y < year
      invariant 1970 <= y <= year && days == DaysBeforeYear(y) + DaysBeforeMonth(year, month) + day - 1
    {
      days := days + DaysInYear(y);
      y := y + 1;
    }
  }

  datatype Time = Time(date: Date, hour: nat, minute: nat, second: nat) {
    ghost predicate Valid() {
      date.Valid() && hour < 24 && minute < 60 && second < 60
    }

    ghost function Seconds(): nat
      requires Valid()
    {
      ((date.Days() * 24 + hour) * 60 + minute) * 60 + second
    }
  }

  /** The last lines of rtc_now */
  method SecondsOf(t: Time) returns (seconds: nat)
    requires t.Valid()
    ensures seconds == t.Seconds()
  {
    var days := DaysSinceEpoch(t.date.year, t.date.month, t.date.day);
    var hours := days * 24 + t.hour;
    var minutes := hours * 60 + t.minute;
    seconds := minutes * 60 + t.second;
  }

  /** Different times have different counts: seconds and calendar fields determine each other. */
  lemma SecondsInjective(a: Time, b: Time)
    requires a.Valid() && b.Valid() && a.Seconds() == b.Seconds()
    ensures a == b
  {
    SameDays(a.date, b.date);
  }

  lemma SameDays(a: Date, b: Date)
    requires a.Valid() && b.Valid()
    ensures a.Days() == b.Days() ==> a == b
  {
    if a.Days() == b.Days() { DaysInjective(a, b); }
  }

  /** struct tm: years from 1900, months from 0. */
  datatype Tm = Tm(sec: nat, min: nat, hour: nat, mday: nat, mon: nat, year: int, wday: nat, yday: nat) {
    ghost predicate Shows(t: Time) {
      && t.date == Date(t.date.year, mon + 1, mday) && year == t.date.year - 1900
      && hour == t.hour && min == t.minute && sec == t.second
    }
  }

  /**
    gmtime_r on a time from the epoch on: the fields are in range, counting them
    back gives the time, and the weekday is that of the day count.
  */
  method Gmtime(t: nat) returns (tm: Tm, ghost time_: Time)
    ensures tm.Shows(time_) && time_.Valid() && time_.Seconds() == t
    ensures tm.yday == DaysBeforeMonth(time_.date.year, time_.date.month) + tm.mday - 1 < DaysInYear(time_.date.year)
    ensures tm.wday == (t / SECONDS_PER_DAY + 4) % 7
    ensures tm.year <= 70 + t / (365 * SECONDS_PER_DAY)
  {
    var time: nat, year: nat := t, 1970;
    while time >= DaysInYear(year) * SECONDS_PER_DAY
      invariant year >= 1970 && time + DaysBeforeYear(year) * SECONDS_PER_DAY == t
      invariant 365 * (year - 1970) <= DaysBeforeYear(year)
      decreases time
    {
      time := time - DaysInYear(year) * SECONDS_PER_DAY;
      year := year + 1;
    }
    var days, seconds := time / SECONDS_PER_DAY, time % SECONDS_PER_DAY;
    var yday := days;
    var minutes := seconds / 60;
    MonthsFillYear(year);
    var month := 1;
    while month < 12 && days >= DaysInMonth(year, month)
      invariant 1 <= month <= 12 && days >= 0 && days + DaysBeforeMonth(year, month) == yday < DaysInYear(year)
    {
      days := days - DaysInMonth(year, month);
      month := month + 1;
    }
    var date := Date(year, month, days + 1);
    WeekdayCorrect(date);
    time_ := Time(date, minutes / 60, minutes % 60, seconds % 60);
    tm := Tm(seconds % 60, minutes % 60, minutes / 60, days + 1, month - 1, year - 1900,
      DayOfWeek(year, month, days + 1), yday);
  }
}
