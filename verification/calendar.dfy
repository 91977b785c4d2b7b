/**
 * Calendar dates without a time of day, in the proleptic Gregorian calendar,
 * with a day number that turns "difference in days" into a subtraction, and
 * the two textual layouts the pipeline writes (`dd-MM-yyyy` for the output,
 * `yyyy-MM-dd` for the group key).
 */
module Calendar {
  import opened Text

  datatype Date = Date(year: int, month: int, day: int)

  predicate IsLeapYear(y: int) {
    y % 4 == 0 && (y % 100 != 0 || y % 400 == 0)
  }

  function DaysInMonth(y: int, m: int): (n: int)
    requires 1 <= m <= 12
    ensures 28 <= n <= 31
  {
    if m == 2 then (if IsLeapYear(y) then 29 else 28)
    else if m == 4 || m == 6 || m == 9 || m == 11 then 30
    else 31
  }

  predicate ValidDate(d: Date) {
    1 <= d.month <= 12 && 1 <= d.day <= DaysInMonth(d.year, d.month)
  }

  /** A date that exists in the calendar. */
  type CalendarDate = d: Date | ValidDate(d) witness Date(1970, 1, 1)

  function DaysInYear(y: int): int {
    if IsLeapYear(y) then 366 else 365
  }

  /** Days from 0001-01-01 to the first of January of year `y`. */
  function DaysBeforeYear(y: int): int {
    var p := y - 1;
    365 * p + p / 4 - p / 100 + p / 400
  }

  /** Days from the first of January of year `y` to the first of month `m`. */
  function DaysBeforeMonth(y: int, m: int): int
    requires 1 <= m <= 12
  {
    [0, 31, 59, 90, 120, 151, 181, 212, 243, 273, 304, 334][m - 1] +
    (if m > 2 && IsLeapYear(y) then 1 else 0)
  }

  /** Each month starts where the previous one ends. */
  lemma MonthsAdjoin(y: int, m: int)
    requires 1 <= m < 12
    ensures DaysBeforeMonth(y, m + 1) == DaysBeforeMonth(y, m) + DaysInMonth(y, m)
  {
  }

  /** The number of days since 0001-01-01 (negative before it). */
  function DayNumber(d: CalendarDate): int {
    DaysBeforeYear(d.year) + DaysBeforeMonth(d.year, d.month) + d.day - 1
  }

  /** Strict chronological order: year, then month, then day. */
  predicate Before(a: Date, b: Date) {
    a.year < b.year ||
    (a.year == b.year && (a.month < b.month || (a.month == b.month && a.day < b.day)))
  }

  /** The day after `d`. */
  function Next(d: CalendarDate): (r: CalendarDate)
    ensures Before(d, r)
  {
    if d.day < DaysInMonth(d.year, d.month) then Date(d.year, d.month, d.day + 1)
    else if d.month < 12 then Date(d.year, d.month + 1, 1)
    else Date(d.year + 1, 1, 1)
  }

  lemma YearLength(y: int)
    ensures DaysBeforeYear(y + 1) == DaysBeforeYear(y) + DaysInYear(y)
  {
    var p := y - 1;
    assert y / 4 == p / 4 + (if y % 4 == 0 then 1 else 0);
    assert y / 100 == p / 100 + (if y % 100 == 0 then 1 else 0);
    assert y / 400 == p / 400 + (if y % 400 == 0 then 1 else 0);
  }

  lemma MonthsFillYear(y: int)
    ensures DaysBeforeMonth(y, 12) + DaysInMonth(y, 12) == DaysInYear(y)
  {
  }

  lemma {:induction false} DaysBeforeMonthGrows(y: int, m: int, n: int)
    requires 1 <= m <= n <= 12
    ensures DaysBeforeMonth(y, m) + DaysInMonth(y, m) <= DaysBeforeMonth(y, n) || m == n
    decreases n - m
  {
    if m < n {
      MonthsAdjoin(y, m);
      if m + 1 < n {
        DaysBeforeMonthGrows(y, m + 1, n);
      }
    }
  }

  /** A date's offset inside its year is below the year's length. */
  lemma OffsetInYear(d: CalendarDate)
    ensures 0 <= DayNumber(d) - DaysBeforeYear(d.year) < DaysInYear(d.year)
  {
    MonthsFillYear(d.year);
    DaysBeforeMonthGrows(d.year, d.month, 12);
  }

  lemma {:induction false} DaysBeforeYearGrows(a: int, b: int)
    requires a < b
    ensures DaysBeforeYear(a) + DaysInYear(a) <= DaysBeforeYear(b)
    decreases b - a
  {
    YearLength(a);
    if a + 1 < b {
      DaysBeforeYearGrows(a + 1, b);
    }
  }

  /** The day number of the next day is one more: a difference of day
      numbers counts calendar days. */
  lemma DayNumberNext(d: CalendarDate)
    ensures DayNumber(Next(d)) == DayNumber(d) + 1
  {
    if d.day == DaysInMonth(d.year, d.month) {
      if d.month == 12 {
        YearLength(d.year);
        MonthsFillYear(d.year);
      } else {
        MonthsAdjoin(d.year, d.month);
      }
    }
  }

  /** Chronological order and day-number order agree. */
  lemma DayNumberMonotone(a: CalendarDate, b: CalendarDate)
    requires Before(a, b)
    ensures DayNumber(a) < DayNumber(b)
  {
    if a.year < b.year {
      OffsetInYear(a);
      DaysBeforeYearGrows(a.year, b.year);
      OffsetInYear(b);
    } else if a.month < b.month {
      DaysBeforeMonthGrows(a.year, a.month, b.month);
    }
  }

  /** Day numbers order dates exactly as the calendar does, and name each
      date once. */
  lemma DayNumberOrder(a: CalendarDate, b: CalendarDate)
    ensures Before(a, b) <==> DayNumber(a) < DayNumber(b)
    ensures a == b <==> DayNumber(a) == DayNumber(b)
  {
    if Before(a, b) {
      DayNumberMonotone(a, b);
    } else if Before(b, a) {
      DayNumberMonotone(b, a);
    }
  }

  // ---------------------------------------------------------------------
  // Formatting

  /** date-fns `yyyy`: the year of the era (year 0 is 1 BC), at least four
      digits. */
  function YearText(y: int): (r: string)
    ensures AllDigits(r) && |r| >= 4
    ensures 1 <= y <= 9999 ==> |r| == 4 && DigitsValue(r) == y
  {
    DigitsFit(if y > 0 then y else 1 - y, 4);
    PadDigits(if y > 0 then y else 1 - y, 4)
  }

  /** Two-digit fields `dd` and `MM`. */
  function TwoDigits(n: nat): (r: string)
    ensures AllDigits(r) && DigitsValue(r) == n
    ensures n < 100 ==> |r| == 2
  {
    DigitsFit(n, 2);
    PadDigits(n, 2)
  }

  /** `format(d, 'dd' + sep + 'MM' + sep + 'yyyy')`. */
  function FormatDayFirst(d: CalendarDate, sep: char): string {
    TwoDigits(d.day) + [sep] + TwoDigits(d.month) + [sep] + YearText(d.year)
  }

  /** `format(d, 'MM/dd/yyyy')`. */
  function FormatMonthFirst(d: CalendarDate): string {
    TwoDigits(d.month) + "/" + TwoDigits(d.day) + "/" + YearText(d.year)
  }

  /** `format(d, 'yyyy-MM-dd')`, the group key. */
  function FormatIso(d: CalendarDate): string {
    YearText(d.year) + "-" + TwoDigits(d.month) + "-" + TwoDigits(d.day)
  }
}
