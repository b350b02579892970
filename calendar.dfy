/**
 * Gregorian calendar arithmetic used by the Event model: leap years and
 * month lengths (PHP's `cal_days_in_month` with `CAL_GREGORIAN`), calendar
 * dates with a day ordinal for chronological comparison, and a mutable
 * date-time object standing for a Carbon instance.
 */
module Calendar {

  /** Gregorian leap-year rule. */
  predicate IsLeapYear(year: int) {
    year % 4 == 0 && (year % 100 != 0 || year % 400 == 0)
  }

  function DaysInYear(year: int): int {
    if IsLeapYear(year) then 366 else 365
  }

  /** Number of days of `month` in `year`. */
  function DaysInMonth(month: int, year: int): (n: int)
    requires 1 <= month <= 12
    ensures 28 <= n <= 31
    ensures month == 2 ==> (n == 29 <==> IsLeapYear(year))
    ensures month != 2 ==> n >= 30
  {
    if month == 2 then (if IsLeapYear(year) then 29 else 28)
    else if month == 4 || month == 6 || month == 9 || month == 11 then 30
    else 31
  }

  /** A calendar date (the value of a DATE column). */
  datatype Date = Date(year: int, month: int, day: int)

  /** A date that exists in the Gregorian calendar, in the common era. */
  predicate ValidDate(d: Date) {
    d.year >= 1 && 1 <= d.month <= 12 && 1 <= d.day <= DaysInMonth(d.month, d.year)
  }

  /** `a` comes strictly before `b` in the calendar. */
  predicate Earlier(a: Date, b: Date) {
    a.year < b.year ||
    (a.year == b.year && (a.month < b.month || (a.month == b.month && a.day < b.day)))
  }

  /** Days in the whole years before `year` (since 1 January of year 1). */
  function DaysBeforeYear(year: int): int {
    var y := year - 1;
    365 * y + y / 4 - y / 100 + y / 400
  }

  /** Days in the whole months of `year` before `month`. */
  function DaysBeforeMonth(month: int, year: int): int {
    var common :=
      if month <= 1 then 0 else if month == 2 then 31 else if month == 3 then 59
      else if month == 4 then 90 else if month == 5 then 120 else if month == 6 then 151
      else if month == 7 then 181 else if month == 8 then 212 else if month == 9 then 243
      else if month == 10 then 273 else if month == 11 then 304 else 334;
    common + (if month > 2 && IsLeapYear(year) then 1 else 0)
  }

  /** The ordinal of a date: 1 January of year 1 is day 1. */
  function DayNumber(d: Date): int {
    DaysBeforeYear(d.year) + DaysBeforeMonth(d.month, d.year) + d.day
  }

  lemma DaysBeforeMonthStep(month: int, year: int)
    requires 1 <= month <= 12
    ensures DaysBeforeMonth(month, year) + DaysInMonth(month, year) ==
            if month == 12 then DaysInYear(year) else DaysBeforeMonth(month + 1, year)
  {
  }

  lemma DaysBeforeMonthMonotone(m1: int, m2: int, year: int)
    requires 1 <= m1 < m2 <= 12
    ensures DaysBeforeMonth(m1, year) + DaysInMonth(m1, year) <= DaysBeforeMonth(m2, year)
  {
  }

  /** Division by 4 steps up by one exactly at multiples of 4; likewise for 100 and 400. */
  lemma DivSteps(year: int)
    requires year >= 1
    ensures year / 4 == (year - 1) / 4 + (if year % 4 == 0 then 1 else 0)
    ensures year / 100 == (year - 1) / 100 + (if year % 100 == 0 then 1 else 0)
    ensures year / 400 == (year - 1) / 400 + (if year % 400 == 0 then 1 else 0)
  {
  }

  /** A multiple of 400 is one of 100, and a multiple of 100 is one of 4. */
  lemma CenturyDivides(year: int)
    ensures year % 400 == 0 ==> year % 100 == 0
    ensures year % 100 == 0 ==> year % 4 == 0
  {
  }

  lemma DaysBeforeYearStep(year: int)
    requires year >= 1
    ensures DaysBeforeYear(year + 1) == DaysBeforeYear(year) + DaysInYear(year)
  {
    DivSteps(year);
    CenturyDivides(year);
  }

  /** A whole year before `y2` starts no later than `y2`'s first day. */
  lemma {:induction false} DaysBeforeYearMonotone(y1: int, y2: int)
    requires 1 <= y1 < y2
    ensures DaysBeforeYear(y1) + DaysInYear(y1) <= DaysBeforeYear(y2)
    decreases y2 - y1
  {
    DaysBeforeYearStep(y1);
    if y1 + 1 < y2 {
      DaysBeforeYearMonotone(y1 + 1, y2);
    }
  }

  /** The last day of a date's year is no later than the year's own length. */
  lemma DayOfYearBound(d: Date)
    requires ValidDate(d)
    ensures 1 <= DaysBeforeMonth(d.month, d.year) + d.day <= DaysInYear(d.year)
  {
    DaysBeforeMonthStep(d.month, d.year);
    if d.month < 12 {
      DaysBeforeMonthMonotone(d.month, 12, d.year);
    }
  }

  lemma EarlierHasSmallerNumber(a: Date, b: Date)
    requires ValidDate(a) && ValidDate(b) && Earlier(a, b)
    ensures DayNumber(a) < DayNumber(b)
  {
    DayOfYearBound(a);
    DayOfYearBound(b);
    if a.year < b.year {
      DaysBeforeYearMonotone(a.year, b.year);
    } else if a.month < b.month {
      DaysBeforeMonthMonotone(a.month, b.month, a.year);
    }
  }

  /**
   * On valid dates the day ordinal orders dates chronologically, so a
   * comparison of ordinals is a comparison of dates.
   */
  lemma DayNumberOrder(a: Date, b: Date)
    requires ValidDate(a) && ValidDate(b)
    ensures DayNumber(a) < DayNumber(b) <==> Earlier(a, b)
    ensures DayNumber(a) == DayNumber(b) <==> a == b
  {
    if Earlier(a, b) {
      EarlierHasSmallerNumber(a, b);
    } else if Earlier(b, a) {
      EarlierHasSmallerNumber(b, a);
    } else {
      assert a == b;
    }
  }

  /** A date with a time of day (the value of a Carbon instance). */
  datatype DateTime = DateTime(date: Date, hour: int, minute: int, second: int)

  /** A time of day on the clock. */
  predicate ValidTime(t: DateTime) {
    0 <= t.hour <= 23 && 0 <= t.minute <= 59 && 0 <= t.second <= 59
  }

  predicate AtMidnight(t: DateTime) {
    t.hour == 0 && t.minute == 0 && t.second == 0
  }

  const SecondsPerDay: int := 86400

  /**
   * A date-time as a count of seconds, so that comparing instants compares
   * date-times and shifting by whole days is adding multiples of a day.
   */
  function Instant(t: DateTime): (n: int)
    ensures ValidTime(t) ==>
      DayNumber(t.date) * SecondsPerDay <= n < (DayNumber(t.date) + 1) * SecondsPerDay
    ensures ValidTime(t) ==> (n == DayNumber(t.date) * SecondsPerDay <==> AtMidnight(t))
  {
    DayNumber(t.date) * SecondsPerDay + t.hour * 3600 + t.minute * 60 + t.second
  }

  /** Midnight at the start of a date, as a DATE column is read. */
  function StartOfDay(d: Date): (t: DateTime)
    ensures t.date == d && t.hour == 0 && t.minute == 0 && t.second == 0
  {
    DateTime(d, 0, 0, 0)
  }

  /** A mutable date-time object: the parts of a Carbon instance the Event model uses. */
  class Moment {
    var year: int
    var month: int
    var day: int
    var hour: int
    var minute: int
    var second: int

    /** The date and time this object currently holds. */
    function Value(): DateTime
      reads this
    {
      DateTime(Date(year, month, day), hour, minute, second)
    }

    constructor At(t: DateTime)
      ensures Value() == t
    {
      year, month, day := t.date.year, t.date.month, t.date.day;
      hour, minute, second := t.hour, t.minute, t.second;
    }

    /** `copy()`: a new object holding the same date and time. */
    method Copy() returns (c: Moment)
      ensures fresh(c) && c.Value() == Value()
    {
      c := new Moment.At(Value());
    }

    /** `$moment->hour = h` for an hour of the day. */
    method SetHour(h: int)
      requires 0 <= h <= 23
      modifies this
      ensures Value() == old(Value()).(hour := h)
    {
      hour := h;
    }

    /** `$moment->minute = m` for a minute of the hour. */
    method SetMinute(m: int)
      requires 0 <= m <= 59
      modifies this
      ensures Value() == old(Value()).(minute := m)
    {
      minute := m;
    }
  }
}
