/**
 * Proleptic Gregorian calendar dates as GLib.DateTime and Python's datetime
 * see them (years 1 to 9999, months 1 to 12), with a day count that gives
 * "one day later", the weekday and month arithmetic a precise meaning.
 */
module Calendar {
  import opened Options

  const MinYear := 1
  const MaxYear := 9999

  datatype Date = Date(year: int, month: int, day: int)

  /** A local wall-clock reading; time zones and daylight saving are not modelled. */
  datatype LocalDateTime = LocalDateTime(date: Date, hour: int, minute: int, second: int)

  predicate IsLeapYear(y: int)
  {
    y % 4 == 0 && (y % 100 != 0 || y % 400 == 0)
  }

  function DaysInMonth(y: int, m: int): int
    requires 1 <= m <= 12
  {
    if m == 2 then (if IsLeapYear(y) then 29 else 28)
    else if m == 4 || m == 6 || m == 9 || m == 11 then 30
    else 31
  }

  predicate ValidDate(d: Date)
  {
    MinYear <= d.year <= MaxYear && 1 <= d.month <= 12 && 1 <= d.day <= DaysInMonth(d.year, d.month)
  }

  predicate ValidDateTime(t: LocalDateTime)
  {
    ValidDate(t.date) && 0 <= t.hour < 24 && 0 <= t.minute < 60 && 0 <= t.second < 60
  }

  /** Strict chronological order of dates: by year, then month, then day. */
  predicate Before(a: Date, b: Date)
  {
    a.year < b.year || (a.year == b.year && (a.month < b.month || (a.month == b.month && a.day < b.day)))
  }

  /** The following day, or None past 9999-12-31 (where Python raises OverflowError). */
  function NextDay(d: Date): (r: Option<Date>)
    requires ValidDate(d)
    ensures r.Some? ==> ValidDate(r.value) && Before(d, r.value)
    ensures r.None? <==> d == Date(MaxYear, 12, 31)
  {
    if d.day < DaysInMonth(d.year, d.month) then Some(Date(d.year, d.month, d.day + 1))
    else if d.month < 12 then Some(Date(d.year, d.month + 1, 1))
    else if d.year < MaxYear then Some(Date(d.year + 1, 1, 1))
    else None
  }

  /** The preceding day, or None before 0001-01-01. */
  function PrevDay(d: Date): (r: Option<Date>)
    requires ValidDate(d)
    ensures r.Some? ==> ValidDate(r.value) && Before(r.value, d)
    ensures r.None? <==> d == Date(MinYear, 1, 1)
  {
    if d.day > 1 then Some(Date(d.year, d.month, d.day - 1))
    else if d.month > 1 then Some(Date(d.year, d.month - 1, DaysInMonth(d.year, d.month - 1)))
    else if d.year > MinYear then Some(Date(d.year - 1, 12, 31))
    else None
  }

  lemma NextPrevInverse(d: Date)
    requires ValidDate(d)
    ensures NextDay(d).Some? ==> PrevDay(NextDay(d).value) == Some(d)
    ensures PrevDay(d).Some? ==> NextDay(PrevDay(d).value) == Some(d)
  {
  }

  /** Days in the years before `y`. */
  function DaysBeforeYear(y: int): int
    requires y >= 1
  {
    365 * (y - 1) + (y - 1) / 4 - (y - 1) / 100 + (y - 1) / 400
  }

  /** Days in the months of year `y` before month `m`. */
  function DaysBeforeMonth(y: int, m: int): int
    requires 1 <= m <= 12
  {
    var leap := if IsLeapYear(y) then 1 else 0;
    if m == 1 then 0 else if m == 2 then 31 else if m == 3 then 59 + leap
    else if m == 4 then 90 + leap else if m == 5 then 120 + leap
    else if m == 6 then 151 + leap else if m == 7 then 181 + leap
    else if m == 8 then 212 + leap else if m == 9 then 243 + leap
    else if m == 10 then 273 + leap else if m == 11 then 304 + leap
    else 334 + leap
  }

  /** The day's position counted from 0001-01-01, which is day 1. */
  function DayNumber(d: Date): int
    requires ValidDate(d)
  {
    DaysBeforeYear(d.year) + DaysBeforeMonth(d.year, d.month) + d.day
  }

  lemma YearLength(y: int)
    requires y >= 1
    ensures DaysBeforeYear(y + 1) == DaysBeforeYear(y) + (if IsLeapYear(y) then 366 else 365)
  {
    DivStep4(y);
    DivStep100(y);
    DivStep400(y);
    LeapIndicator(y);
  }

  /** Divisible by 4, minus divisible by 100, plus divisible by 400: one exactly in leap years. */
  lemma LeapIndicator(y: int)
    ensures (if y % 4 == 0 then 1 else 0) - (if y % 100 == 0 then 1 else 0) + (if y % 400 == 0 then 1 else 0) ==
            (if IsLeapYear(y) then 1 else 0)
  {
    if y % 400 == 0 {
      assert y == 100 * (4 * (y / 400));
    }
    if y % 100 == 0 {
      assert y == 4 * (25 * (y / 100));
    }
  }

  lemma DivStep4(x: int)
    ensures x / 4 == (x - 1) / 4 + (if x % 4 == 0 then 1 else 0)
  {
  }

  lemma DivStep100(x: int)
    ensures x / 100 == (x - 1) / 100 + (if x % 100 == 0 then 1 else 0)
  {
  }

  lemma DivStep400(x: int)
    ensures x / 400 == (x - 1) / 400 + (if x % 400 == 0 then 1 else 0)
  {
  }

  lemma {:induction false} DaysBeforeYearMonotone(y1: int, y2: int)
    requires 1 <= y1 <= y2
    ensures DaysBeforeYear(y1) + 365 * (y2 - y1) <= DaysBeforeYear(y2)
    decreases y2 - y1
  {
    if y1 < y2 {
      YearLength(y1);
      DaysBeforeYearMonotone(y1 + 1, y2);
    }
  }

  /** NextDay moves the day number up by exactly one. */
  lemma NextDayNumber(d: Date)
    requires ValidDate(d) && NextDay(d).Some?
    ensures DayNumber(NextDay(d).value) == DayNumber(d) + 1
  {
    if d.day == DaysInMonth(d.year, d.month) && d.month == 12 {
      YearLength(d.year);
    }
  }

  /** PrevDay moves the day number down by exactly one. */
  lemma PrevDayNumber(d: Date)
    requires ValidDate(d) && PrevDay(d).Some?
    ensures DayNumber(PrevDay(d).value) == DayNumber(d) - 1
  {
    NextPrevInverse(d);
    NextDayNumber(PrevDay(d).value);
  }

  /** The day number follows chronological order, so it numbers dates without gaps or repeats. */
  lemma DayNumberOrder(a: Date, b: Date)
    requires ValidDate(a) && ValidDate(b)
    ensures Before(a, b) <==> DayNumber(a) < DayNumber(b)
    ensures a == b <==> DayNumber(a) == DayNumber(b)
  {
    if Before(a, b) {
      DayNumberBefore(a, b);
    } else if Before(b, a) {
      DayNumberBefore(b, a);
    }
  }

  lemma DayNumberBefore(a: Date, b: Date)
    requires ValidDate(a) && ValidDate(b) && Before(a, b)
    ensures DayNumber(a) < DayNumber(b)
  {
    if a.year < b.year {
      LaterYearBefore(a, b);
    } else if a.month < b.month {
      MonthsBefore(a.year, a.month, b.month);
    }
  }

  lemma LaterYearBefore(a: Date, b: Date)
    requires ValidDate(a) && ValidDate(b) && a.year < b.year
    ensures DayNumber(a) < DayNumber(b)
  {
    DayNumberBelowNextYear(a);
    DaysBeforeYearMonotone(a.year + 1, b.year);
    DayNumberAboveYear(b);
  }

  /** A date's day number is at most the number of days up to the end of its year. */
  lemma DayNumberBelowNextYear(d: Date)
    requires ValidDate(d)
    ensures DayNumber(d) <= DaysBeforeYear(d.year + 1)
  {
    YearLength(d.year);
    DayOfYearBound(d);
  }

  /** A date's day number exceeds the number of days in the years before it. */
  lemma DayNumberAboveYear(d: Date)
    requires ValidDate(d)
    ensures DayNumber(d) > DaysBeforeYear(d.year)
  {
  }

  /** A date's place within its year is at most the year's length. */
  lemma DayOfYearBound(d: Date)
    requires ValidDate(d)
    ensures DaysBeforeMonth(d.year, d.month) + d.day <= (if IsLeapYear(d.year) then 366 else 365)
  {
  }

  /** Every day of an earlier month comes before the first of a later month. */
  lemma MonthsBefore(y: int, m1: int, m2: int)
    requires 1 <= m1 < m2 <= 12
    ensures DaysBeforeMonth(y, m1) + DaysInMonth(y, m1) <= DaysBeforeMonth(y, m2)
  {
  }

  /** No date lies strictly between a date and NextDay of it. */
  lemma NextDayIsSuccessor(d: Date, e: Date)
    requires ValidDate(d) && ValidDate(e) && NextDay(d).Some?
    requires Before(d, e)
    ensures e == NextDay(d).value || Before(NextDay(d).value, e)
  {
    var n := NextDay(d).value;
    NextDayNumber(d);
    DayNumberOrder(d, e);
    DayNumberOrder(n, e);
  }

  lemma DayNumberFirst(d: Date)
    requires ValidDate(d)
    ensures DayNumber(d) >= 1
    ensures DayNumber(d) == 1 <==> d == Date(MinYear, 1, 1)
  {
    DayNumberOrder(Date(MinYear, 1, 1), d);
  }

  /** GLib's day of the week: 1 is Monday, 7 is Sunday; 0001-01-01 was a Monday. */
  function Weekday(d: Date): (w: int)
    requires ValidDate(d)
    ensures 1 <= w <= 7
  {
    (DayNumber(d) - 1) % 7 + 1
  }

  lemma NextDayWeekday(d: Date)
    requires ValidDate(d) && NextDay(d).Some?
    ensures Weekday(NextDay(d).value) == Weekday(d) % 7 + 1
  {
    NextDayNumber(d);
    WeekdayOfSuccessor(d, NextDay(d).value);
  }

  /** A date whose day number is one more has the following weekday, Sunday wrapping to Monday. */
  lemma WeekdayOfSuccessor(a: Date, b: Date)
    requires ValidDate(a) && ValidDate(b) && DayNumber(b) == DayNumber(a) + 1
    ensures Weekday(b) == Weekday(a) % 7 + 1
  {
    WeekdayStep(DayNumber(a));
  }

  lemma WeekdayStep(n: int)
    ensures n % 7 + 1 == ((n - 1) % 7 + 1) % 7 + 1
  {
  }

  /** `add_days(-k)`: the date `k` days earlier, None when that leaves the calendar. */
  function DaysEarlier(d: Date, k: nat): (r: Option<Date>)
    requires ValidDate(d)
    ensures r.Some? ==> ValidDate(r.value)
    decreases k
  {
    if k == 0 then Some(d)
    else match PrevDay(d)
      case None => None
      case Some(p) => DaysEarlier(p, k - 1)
  }

  lemma {:induction false} DaysEarlierNumber(d: Date, k: nat)
    requires ValidDate(d) && k < DayNumber(d)
    ensures DaysEarlier(d, k).Some?
    ensures DayNumber(DaysEarlier(d, k).value) == DayNumber(d) - k
    decreases k
  {
    if k > 0 {
      DayNumberFirst(d);
      PrevDayNumber(d);
      DaysEarlierNumber(PrevDay(d).value, k - 1);
    }
  }

  /** GLib's `add_months(-1)` applied to the first of a month. */
  function FirstOfPreviousMonth(d: Date): (r: Option<Date>)
    requires ValidDate(d)
    ensures r.Some? ==> ValidDate(r.value) && r.value.day == 1
    ensures r.None? <==> d.year == MinYear && d.month == 1
  {
    if d.month > 1 then Some(Date(d.year, d.month - 1, 1))
    else if d.year > MinYear then Some(Date(d.year - 1, 12, 1))
    else None
  }

  /** From the first of the previous month to the first of this month is exactly that month's length. */
  lemma FirstOfPreviousMonthSpan(d: Date)
    requires ValidDate(d) && d.day == 1 && FirstOfPreviousMonth(d).Some?
    ensures var p := FirstOfPreviousMonth(d).value;
            DayNumber(d) - DayNumber(p) == DaysInMonth(p.year, p.month)
  {
    if d.month == 1 {
      assert FirstOfPreviousMonth(d).value == Date(d.year - 1, 12, 1) && d == Date(d.year - 1 + 1, 1, 1);
      DecemberSpan(d.year - 1);
    } else {
      assert FirstOfPreviousMonth(d).value == Date(d.year, d.month - 1, 1) && d == Date(d.year, d.month - 1 + 1, 1);
      MonthSpan(d.year, d.month - 1);
    }
  }

  /** Within a year, the first of month `m + 1` comes `m`'s length after the first of `m`. */
  lemma MonthSpan(y: int, m: int)
    requires MinYear <= y <= MaxYear && 1 <= m < 12
    ensures DayNumber(Date(y, m + 1, 1)) - DayNumber(Date(y, m, 1)) == DaysInMonth(y, m)
  {
    MonthLength(y, m);
  }

  /** December always has 31 days, whatever the year. */
  lemma DecemberSpan(y: int)
    requires MinYear <= y < MaxYear
    ensures DayNumber(Date(y + 1, 1, 1)) - DayNumber(Date(y, 12, 1)) == 31
  {
    YearLength(y);
  }

  /** Consecutive months' offsets within a year differ by the earlier month's length. */
  lemma MonthLength(y: int, m: int)
    requires 1 <= m < 12
    ensures DaysBeforeMonth(y, m + 1) == DaysBeforeMonth(y, m) + DaysInMonth(y, m)
  {
  }
}
