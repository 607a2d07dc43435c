/**
 * Calendar dates as Python's `datetime.date` sees them: proleptic Gregorian,
 * years 1 to 9999, numbered by `toordinal()` (0001-01-01 is day 1), with
 * `weekday()` counting Monday as 0. The runner compares days by ordinal, so
 * "today + 7 days" is ordinal arithmetic; the lemmas here show that ordinals
 * number consecutive calendar days one apart and never collide.
 */
module Dates {
  import opened Wrappers
  import opened Text

  const MinYear := 1
  const MaxYear := 9999

  /** `date(9999, 12, 31).toordinal()`: the last day the date type can hold. */
  const LastOrdinal := 3652059

  datatype Date = Date(year: int, month: int, day: int)

  predicate IsLeapYear(y: int) {
    y % 4 == 0 && (y % 100 != 0 || y % 400 == 0)
  }

  function DaysInYear(y: int): int {
    if IsLeapYear(y) then 366 else 365
  }

  function DaysInMonth(y: int, m: int): int
    requires 1 <= m <= 12
  {
    if m == 2 then (if IsLeapYear(y) then 29 else 28)
    else if m == 4 || m == 6 || m == 9 || m == 11 then 30
    else 31
  }

  /** Days in year `y` before the first of month `m`. */
  function DaysBeforeMonth(y: int, m: int): int
    requires 1 <= m <= 12
  {
    [0, 31, 59, 90, 120, 151, 181, 212, 243, 273, 304, 334][m - 1]
      + (if m > 2 && IsLeapYear(y) then 1 else 0)
  }

  /** Days before January 1 of year `y`, counted from January 1 of year 1. */
  function DaysBeforeYear(y: int): int
    requires y >= 1
  {
    var k := y - 1;
    k * 365 + k / 4 - k / 100 + k / 400
  }

  predicate ValidDate(d: Date) {
    MinYear <= d.year <= MaxYear && 1 <= d.month <= 12 && 1 <= d.day <= DaysInMonth(d.year, d.month)
  }

  lemma MonthStep(y: int, m: int)
    requires 1 <= m <= 12
    ensures m < 12 ==> DaysBeforeMonth(y, m + 1) == DaysBeforeMonth(y, m) + DaysInMonth(y, m)
    ensures m == 12 ==> DaysBeforeMonth(y, m) + DaysInMonth(y, m) == DaysInYear(y)
  {
  }

  /** Counting the multiples of 4 up to `k + 1` adds one exactly when `k + 1` is one. */
  lemma FourStep(k: int)
    ensures (k + 1) / 4 == k / 4 + (if (k + 1) % 4 == 0 then 1 else 0)
  {
    var q, r := k / 4, k % 4;
    assert k == 4 * q + r;
  }

  /** Counting the multiples of 100 up to `k + 1` adds one exactly when `k + 1` is one. */
  lemma HundredStep(k: int)
    ensures (k + 1) / 100 == k / 100 + (if (k + 1) % 100 == 0 then 1 else 0)
  {
    var q, r := k / 100, k % 100;
    assert k == 100 * q + r;
  }

  /** Counting the multiples of 400 up to `k + 1` adds one exactly when `k + 1` is one. */
  lemma FourHundredStep(k: int)
    ensures (k + 1) / 400 == k / 400 + (if (k + 1) % 400 == 0 then 1 else 0)
  {
    var q, r := k / 400, k % 400;
    assert k == 400 * q + r;
  }

  /** `100 * m` leaves no remainder by 100. */
  lemma HundredTimes(m: int)
    ensures (100 * m) % 100 == 0
  {
    var q, r := (100 * m) / 100, (100 * m) % 100;
    assert 100 * m == 100 * q + r;
    assert 100 * (m - q) == r;
  }

  /** `4 * m` leaves no remainder by 4. */
  lemma FourTimes(m: int)
    ensures (4 * m) % 4 == 0
  {
    var q, r := (4 * m) / 4, (4 * m) % 4;
    assert 4 * m == 4 * q + r;
    assert 4 * (m - q) == r;
  }

  /** A multiple of 400 is a multiple of 100, and a multiple of 100 is a multiple of 4. */
  lemma NestedMultiples(y: int)
    ensures y % 400 == 0 ==> y % 100 == 0
    ensures y % 100 == 0 ==> y % 4 == 0
  {
    if y % 400 == 0 {
      var m := y / 400;
      assert y == 400 * m;
      assert y == 100 * (4 * m);
      HundredTimes(4 * m);
    }
    if y % 100 == 0 {
      var m := y / 100;
      assert y == 100 * m;
      assert y == 4 * (25 * m);
      FourTimes(25 * m);
    }
  }

  lemma YearStep(y: int)
    requires y >= 1
    ensures DaysBeforeYear(y + 1) == DaysBeforeYear(y) + DaysInYear(y)
  {
    FourStep(y - 1);
    HundredStep(y - 1);
    FourHundredStep(y - 1);
    NestedMultiples(y);
  }

  /** Every year of the date type lies between day 0 and the last ordinal. */
  lemma {:induction false} YearFits(y: int)
    requires MinYear <= y <= MaxYear
    ensures 0 <= DaysBeforeYear(y)
    ensures DaysBeforeYear(y) + DaysInYear(y) <= LastOrdinal
    decreases MaxYear - y
  {
    YearStep(y);
    if y < MaxYear {
      YearFits(y + 1);
    }
  }

  /** Earlier years end no later than later years begin. */
  lemma {:induction false} YearsOrdered(y1: int, y2: int)
    requires 1 <= y1 < y2
    ensures DaysBeforeYear(y1) + DaysInYear(y1) <= DaysBeforeYear(y2)
    decreases y2 - y1
  {
    YearStep(y1);
    if y1 + 1 < y2 {
      YearsOrdered(y1 + 1, y2);
      YearStep(y1 + 1);
    }
  }

  /** Earlier months of a year end no later than later months begin. */
  lemma {:induction false} MonthsOrdered(y: int, m1: int, m2: int)
    requires 1 <= m1 < m2 <= 12
    ensures DaysBeforeMonth(y, m1) + DaysInMonth(y, m1) <= DaysBeforeMonth(y, m2)
    decreases m2 - m1
  {
    MonthStep(y, m1);
    if m1 + 1 < m2 {
      MonthsOrdered(y, m1 + 1, m2);
    }
  }

  /** A valid date's day count lands inside its own year. */
  lemma DayFits(d: Date)
    requires ValidDate(d)
    ensures DaysBeforeYear(d.year) <= DaysBeforeYear(d.year) + DaysBeforeMonth(d.year, d.month) + d.day - 1
    ensures DaysBeforeMonth(d.year, d.month) + d.day <= DaysInYear(d.year)
  {
    MonthStep(d.year, d.month);
    if d.month < 12 { MonthsOrdered(d.year, d.month, 12); }
    MonthStep(d.year, 12);
  }

  /** `date.toordinal()`. */
  function ToOrdinal(d: Date): (n: int)
    requires ValidDate(d)
    ensures 1 <= n <= LastOrdinal
  {
    YearFits(d.year);
    DayFits(d);
    DaysBeforeYear(d.year) + DaysBeforeMonth(d.year, d.month) + d.day
  }

  /** Lexicographic order on (year, month, day). */
  predicate Before(d1: Date, d2: Date) {
    d1.year < d2.year
    || (d1.year == d2.year && d1.month < d2.month)
    || (d1.year == d2.year && d1.month == d2.month && d1.day < d2.day)
  }

  /** Ordinals are strictly increasing in calendar order. */
  lemma OrdinalMonotone(d1: Date, d2: Date)
    requires ValidDate(d1) && ValidDate(d2) && Before(d1, d2)
    ensures ToOrdinal(d1) < ToOrdinal(d2)
  {
    if d1.year < d2.year {
      DayFits(d1);
      YearsOrdered(d1.year, d2.year);
    } else if d1.month < d2.month {
      MonthsOrdered(d1.year, d1.month, d2.month);
    }
  }

  /** Two valid dates with the same ordinal are the same date. */
  lemma OrdinalInjective(d1: Date, d2: Date)
    requires ValidDate(d1) && ValidDate(d2)
    ensures ToOrdinal(d1) == ToOrdinal(d2) <==> d1 == d2
  {
    if Before(d1, d2) {
      OrdinalMonotone(d1, d2);
    } else if Before(d2, d1) {
      OrdinalMonotone(d2, d1);
    }
  }

  /** The calendar day after `d` (`d + timedelta(days=1)`), when there is one. */
  function NextDate(d: Date): (e: Date)
    requires ValidDate(d) && d != Date(MaxYear, 12, 31)
    ensures ValidDate(e) && Before(d, e)
  {
    if d.day < DaysInMonth(d.year, d.month) then Date(d.year, d.month, d.day + 1)
    else if d.month < 12 then Date(d.year, d.month + 1, 1)
    else Date(d.year + 1, 1, 1)
  }

  /** Consecutive calendar days have consecutive ordinals. */
  lemma NextDateOrdinal(d: Date)
    requires ValidDate(d) && d != Date(MaxYear, 12, 31)
    ensures ToOrdinal(NextDate(d)) == ToOrdinal(d) + 1
  {
    MonthStep(d.year, d.month);
    if d.day == DaysInMonth(d.year, d.month) && d.month == 12 {
      YearStep(d.year);
    }
  }

  /** `date.weekday()`: Monday is 0 and Sunday is 6. */
  function Weekday(ordinal: int): (w: int)
    ensures 0 <= w < 7
  {
    (ordinal + 6) % 7
  }

  /** Weekdays advance by one a day and repeat every seven days. */
  lemma WeekdayCycle(ordinal: int)
    ensures Weekday(ordinal + 1) == (Weekday(ordinal) + 1) % 7
    ensures Weekday(ordinal + 7) == Weekday(ordinal)
  {
    var q, r := (ordinal + 6) / 7, (ordinal + 6) % 7;
    assert ordinal + 6 == 7 * q + r;
    assert ordinal + 13 == 7 * (q + 1) + r;
  }

  /** 2024-01-01 fell on a Monday. */
  lemma WeekdayAnchor()
    ensures ToOrdinal(Date(2024, 1, 1)) == 738886
    ensures Weekday(738886) == 0
  {
  }

  /** `calendar.day_name` in the English locale. */
  function DayName(w: int): string
    requires 0 <= w < 7
  {
    ["Monday", "Tuesday", "Wednesday", "Thursday", "Friday", "Saturday", "Sunday"][w]
  }

  /** The zero-padded `YYYY-MM-DD` form of a date. */
  function FormatDate(d: Date): (s: string)
    requires ValidDate(d)
    ensures |s| == 10
  {
    Padded(d.year, 4) + "-" + Padded(d.month, 2) + "-" + Padded(d.day, 2)
  }

  /**
   * `strptime(s, '%Y-%m-%d')` on zero-padded input: four digits, a dash, two
   * digits, a dash, two digits, nothing else, naming a real calendar day.
   * `None` stands for the ValueError that the runner catches.
   */
  function ParseDate(s: string): (r: Option<Date>)
    ensures r.Some? ==> ValidDate(r.value)
  {
    if |s| == 10 && s[4] == '-' && s[7] == '-'
       && AllDigits(s[..4]) && AllDigits(s[5..7]) && AllDigits(s[8..])
    then
      var d := Date(Number(s[..4]), Number(s[5..7]), Number(s[8..]));
      if ValidDate(d) then Some(d) else None
    else None
  }

  /** Parsing the formatted form of a valid date gives the date back. */
  lemma ParseFormat(d: Date)
    requires ValidDate(d)
    ensures ParseDate(FormatDate(d)) == Some(d)
  {
    var s := FormatDate(d);
    assert s[..4] == Padded(d.year, 4);
    assert s[5..7] == Padded(d.month, 2);
    assert s[8..] == Padded(d.day, 2);
    NumberOfPadded(d.year, 4);
    NumberOfPadded(d.month, 2);
    NumberOfPadded(d.day, 2);
  }

  /** A string the parser accepts is exactly the formatted form of what it returns. */
  lemma FormatParse(s: string)
    requires ParseDate(s).Some?
    ensures FormatDate(ParseDate(s).value) == s
  {
    PaddedOfNumber(s[..4]);
    PaddedOfNumber(s[5..7]);
    PaddedOfNumber(s[8..]);
    assert s == s[..4] + "-" + s[5..7] + "-" + s[8..];
  }
}
