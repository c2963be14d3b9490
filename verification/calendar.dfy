/** Proleptic Gregorian calendar arithmetic: the facts the date picker takes
    from the platform's date library (`DaysInMonth`, `DayOfWeek`), defined
    here from first principles, plus month navigation with year carry. */
module Calendar {

  /** A calendar date as the picker stores it: three plain integers. */
  datatype Date = Date(year: int, month: int, day: int)

  /** The years the platform's date library accepts. */
  const MinYear: int := 1
  const MaxYear: int := 9999

  predicate InLibraryRange(year: int) {
    MinYear <= year <= MaxYear
  }

  predicate ValidMonth(month: int) {
    1 <= month <= 12
  }

  predicate IsLeapYear(year: int) {
    year % 4 == 0 && (year % 100 != 0 || year % 400 == 0)
  }

  function YearLength(year: int): int {
    if IsLeapYear(year) then 366 else 365
  }

  function DaysInMonth(year: int, month: int): (n: int)
    requires ValidMonth(month)
    ensures 28 <= n <= 31
    ensures n == 29 <==> month == 2 && IsLeapYear(year)
  {
    if month == 2 then (if IsLeapYear(year) then 29 else 28)
    else if month == 4 || month == 6 || month == 9 || month == 11 then 30
    else 31
  }

  /** A real date from year 1 on. There is no upper bound on the year: the
      grid of December 9999 shows days of January 10000. */
  predicate IsDate(d: Date) {
    d.year >= 1 && ValidMonth(d.month) && 1 <= d.day <= DaysInMonth(d.year, d.month)
  }

  /** Days from 1 January of year 1 to 1 January of `year`. */
  function DaysBeforeYear(year: int): int
    requires year >= 1
  {
    var p := year - 1;
    365 * p + p / 4 - p / 100 + p / 400
  }

  /** Days from 1 January to the first of `month` in `year` (month 13 stands
      for the end of the year). */
  function DaysBeforeMonth(year: int, month: int): int
    requires 1 <= month <= 13
    decreases month
  {
    if month == 1 then 0 else DaysBeforeMonth(year, month - 1) + DaysInMonth(year, month - 1)
  }

  /** Days elapsed since 1 January of year 1. */
  function DayNumber(d: Date): int
    requires IsDate(d)
  {
    DaysBeforeYear(d.year) + DaysBeforeMonth(d.year, d.month) + d.day - 1
  }

  /** Day of the week numbered as the platform numbers it, Sunday = 0 up to
      Saturday = 6; 1 January of year 1 was a Monday. */
  function Weekday(d: Date): (w: int)
    requires IsDate(d)
    ensures 0 <= w < 7
  {
    (DayNumber(d) + 1) % 7
  }

  /** The calendar day after `d`. */
  function NextDay(d: Date): Date
    requires IsDate(d)
  {
    if d.day < DaysInMonth(d.year, d.month) then d.(day := d.day + 1)
    else if d.month < 12 then Date(d.year, d.month + 1, 1)
    else Date(d.year + 1, 1, 1)
  }

  /** Calendar order: lexicographic on (year, month, day). */
  predicate Before(a: Date, b: Date) {
    a.year < b.year
    || (a.year == b.year && (a.month < b.month || (a.month == b.month && a.day < b.day)))
  }

  /** One month forward with year carry, as the picker's "next" button does. */
  function NextMonth(year: int, month: int): (r: (int, int))
  {
    if month < 12 then (year, month + 1) else (year + 1, 1)
  }

  /** One month back with year carry, as the picker's "previous" button does. */
  function PrevMonth(year: int, month: int): (r: (int, int))
  {
    if month > 1 then (year, month - 1) else (year - 1, 12)
  }

  /** Position of a (year, month) pair on the line of all months. */
  function MonthOrdinal(year: int, month: int): int {
    12 * year + month - 1
  }

  /** `n` presses of the "next" button. */
  function NextMonths(year: int, month: int, n: nat): (r: (int, int))
    requires ValidMonth(month)
    ensures ValidMonth(r.1)
    decreases n
  {
    if n == 0 then (year, month)
    else
      var (y, m) := NextMonth(year, month);
      NextMonths(y, m, n - 1)
  }

  /** `n` presses of the "previous" button. */
  function PrevMonths(year: int, month: int, n: nat): (r: (int, int))
    requires ValidMonth(month)
    ensures ValidMonth(r.1)
    decreases n
  {
    if n == 0 then (year, month)
    else
      var (y, m) := PrevMonth(year, month);
      PrevMonths(y, m, n - 1)
  }

  // ---------------------------------------------------------------------
  // Month navigation

  /** "Next" moves exactly one step forward on the line of months, keeps the
      month in 1..12, and carries December into January of the next year. */
  lemma NextMonthIsSuccessor(year: int, month: int)
    requires ValidMonth(month)
    ensures ValidMonth(NextMonth(year, month).1)
    ensures MonthOrdinal(NextMonth(year, month).0, NextMonth(year, month).1) == MonthOrdinal(year, month) + 1
    ensures month == 12 ==> NextMonth(year, month) == (year + 1, 1)
  {
  }

  /** "Previous" moves exactly one step back, keeps the month in 1..12, and
      carries January into December of the previous year. */
  lemma PrevMonthIsPredecessor(year: int, month: int)
    requires ValidMonth(month)
    ensures ValidMonth(PrevMonth(year, month).1)
    ensures MonthOrdinal(PrevMonth(year, month).0, PrevMonth(year, month).1) == MonthOrdinal(year, month) - 1
    ensures month == 1 ==> PrevMonth(year, month) == (year - 1, 12)
  {
  }

  /** Two valid months at the same position on the line are the same month. */
  lemma MonthOrdinalInjective(y1: int, m1: int, y2: int, m2: int)
    requires ValidMonth(m1) && ValidMonth(m2)
    requires MonthOrdinal(y1, m1) == MonthOrdinal(y2, m2)
    ensures y1 == y2 && m1 == m2
  {
  }

  /** "Next" then "previous", and "previous" then "next", change nothing. */
  lemma NextPrevRoundTrip(year: int, month: int)
    requires ValidMonth(month)
    ensures var (y, m) := NextMonth(year, month); PrevMonth(y, m) == (year, month)
    ensures var (y, m) := PrevMonth(year, month); NextMonth(y, m) == (year, month)
  {
    NextMonthIsSuccessor(year, month);
    PrevMonthIsPredecessor(year, month);
    var (y, m) := NextMonth(year, month);
    PrevMonthIsPredecessor(y, m);
    MonthOrdinalInjective(PrevMonth(y, m).0, PrevMonth(y, m).1, year, month);
    var (y', m') := PrevMonth(year, month);
    NextMonthIsSuccessor(y', m');
    MonthOrdinalInjective(NextMonth(y', m').0, NextMonth(y', m').1, year, month);
  }

  /** `n` presses of "next" advance the month ordinal by exactly `n`. */
  lemma {:induction false} NextMonthsOrdinal(year: int, month: int, n: nat)
    requires ValidMonth(month)
    ensures MonthOrdinal(NextMonths(year, month, n).0, NextMonths(year, month, n).1) == MonthOrdinal(year, month) + n
    decreases n
  {
    if n > 0 {
      var (y, m) := NextMonth(year, month);
      NextMonthIsSuccessor(year, month);
      NextMonthsOrdinal(y, m, n - 1);
    }
  }

  /** `n` presses of "previous" move the month ordinal back by exactly `n`. */
  lemma {:induction false} PrevMonthsOrdinal(year: int, month: int, n: nat)
    requires ValidMonth(month)
    ensures MonthOrdinal(PrevMonths(year, month, n).0, PrevMonths(year, month, n).1) == MonthOrdinal(year, month) - n
    decreases n
  {
    if n > 0 {
      var (y, m) := PrevMonth(year, month);
      PrevMonthIsPredecessor(year, month);
      PrevMonthsOrdinal(y, m, n - 1);
    }
  }

  /** Twelve presses of "next" reach the same month of the next year, and
      twelve presses of "previous" the same month of the previous year. */
  lemma TwelveMonths(year: int, month: int)
    requires ValidMonth(month)
    ensures NextMonths(year, month, 12) == (year + 1, month)
    ensures PrevMonths(year, month, 12) == (year - 1, month)
  {
    NextMonthsOrdinal(year, month, 12);
    var f := NextMonths(year, month, 12);
    MonthOrdinalInjective(f.0, f.1, year + 1, month);
    PrevMonthsOrdinal(year, month, 12);
    var b := PrevMonths(year, month, 12);
    MonthOrdinalInjective(b.0, b.1, year - 1, month);
  }

  // ---------------------------------------------------------------------
  // Day numbers

  /** The twelve months of a year add up to the year's length. */
  lemma MonthsFillYear(year: int)
    ensures DaysBeforeMonth(year, 13) == YearLength(year)
  {
    assert DaysBeforeMonth(year, 3) == 59 + (if IsLeapYear(year) then 1 else 0);
    assert DaysBeforeMonth(year, 6) == DaysBeforeMonth(year, 3) + 92;
    assert DaysBeforeMonth(year, 9) == DaysBeforeMonth(year, 6) + 92;
    assert DaysBeforeMonth(year, 12) == DaysBeforeMonth(year, 9) + 91;
  }

  /** Quotient and remainder are the only ones with a remainder in `0 .. k - 1`. */
  lemma DivUnique(n: int, k: int, q: int, r: int)
    requires k > 0 && n == k * q + r && 0 <= r < k
    ensures n / k == q && n % k == r
  {
    var q', r' := n / k, n % k;
    assert k * (q - q') == r' - r;
    // A nonzero multiple of k cannot lie strictly between -k and k.
    if q - q' >= 1 {
      assert false;
    } else if q - q' <= -1 {
      assert false;
    }
  }

  /** Integer division by `k` steps up by one exactly at multiples of `k`. */
  lemma DivStep(p: int, k: int)
    requires p >= 0 && k > 0
    ensures (p + 1) / k == p / k + (if (p + 1) % k == 0 then 1 else 0)
  {
    var q, r := p / k, p % k;
    if r == k - 1 {
      DivUnique(p + 1, k, q + 1, 0);
    } else {
      DivUnique(p + 1, k, q, r + 1);
    }
  }

  /** A multiple of `a * b` is a multiple of `a`. */
  lemma MultipleOfFactor(n: int, a: int, b: int)
    requires a > 0 && b > 0 && n % (a * b) == 0
    ensures n % a == 0
  {
    var q := n / (a * b);
    assert n == (a * b) * q;
    assert n == a * (b * q);
  }

  /** The leap-year rule of `DaysBeforeYear` agrees with `YearLength`. */
  lemma DaysBeforeNextYear(year: int)
    requires year >= 1
    ensures DaysBeforeYear(year + 1) == DaysBeforeYear(year) + YearLength(year)
  {
    var p := year - 1;
    DivStep(p, 4);
    DivStep(p, 100);
    DivStep(p, 400);
    if year % 400 == 0 {
      MultipleOfFactor(year, 4, 100);
      MultipleOfFactor(year, 100, 4);
    } else if year % 100 == 0 {
      MultipleOfFactor(year, 4, 25);
    }
  }

  /** Months start later the later they are in the year. */
  lemma {:induction false} DaysBeforeMonthMonotone(year: int, m1: int, m2: int)
    requires 1 <= m1 <= m2 <= 13
    ensures DaysBeforeMonth(year, m1) <= DaysBeforeMonth(year, m2)
    decreases m2 - m1
  {
    if m1 < m2 {
      DaysBeforeMonthMonotone(year, m1, m2 - 1);
    }
  }

  /** A day's position inside its year is below the year's length. */
  lemma DayOfYearBound(d: Date)
    requires IsDate(d)
    ensures 0 <= DaysBeforeMonth(d.year, d.month) + d.day - 1 < YearLength(d.year)
  {
    DaysBeforeMonthMonotone(d.year, 1, d.month);
    DaysBeforeMonthMonotone(d.year, d.month + 1, 13);
    MonthsFillYear(d.year);
  }

  /** Every day of an earlier year precedes every day of a later one. */
  lemma {:induction false} DaysBeforeYearGrows(y1: int, y2: int)
    requires 1 <= y1 < y2
    ensures DaysBeforeYear(y1) + YearLength(y1) <= DaysBeforeYear(y2)
    decreases y2 - y1
  {
    DaysBeforeNextYear(y1);
    if y1 + 1 < y2 {
      DaysBeforeYearGrows(y1 + 1, y2);
    }
  }

  /** The day number counts days: the next day is one further on. */
  lemma NextDayNumber(d: Date)
    requires IsDate(d)
    ensures IsDate(NextDay(d))
    ensures DayNumber(NextDay(d)) == DayNumber(d) + 1
    ensures Before(d, NextDay(d))
  {
    if d.day == DaysInMonth(d.year, d.month) && d.month == 12 {
      MonthsFillYear(d.year);
      DaysBeforeNextYear(d.year);
    }
  }

  /** The day number is an order isomorphism: calendar order is exactly the
      order of day numbers. */
  lemma DayNumberOrder(a: Date, b: Date)
    requires IsDate(a) && IsDate(b)
    ensures Before(a, b) <==> DayNumber(a) < DayNumber(b)
  {
    if Before(a, b) {
      DayNumberStrict(a, b);
    } else if a != b {
      DayNumberStrict(b, a);
    }
  }

  lemma DayNumberStrict(a: Date, b: Date)
    requires IsDate(a) && IsDate(b) && Before(a, b)
    ensures DayNumber(a) < DayNumber(b)
  {
    if a.year < b.year {
      DayOfYearBound(a);
      DayOfYearBound(b);
      DaysBeforeYearGrows(a.year, b.year);
    } else if a.month < b.month {
      DaysBeforeMonthMonotone(a.year, a.month + 1, b.month);
    }
  }

  /** Different dates have different day numbers. */
  lemma DayNumberInjective(a: Date, b: Date)
    requires IsDate(a) && IsDate(b) && DayNumber(a) == DayNumber(b)
    ensures a == b
  {
    DayNumberOrder(a, b);
    DayNumberOrder(b, a);
  }

  /** Two fixed points of the weekday numbering: 1 January of year 1 was a
      Monday and 1 March 2024 a Friday. */
  lemma WeekdayAnchors()
    ensures Weekday(Date(1, 1, 1)) == 1
    ensures Weekday(Date(2024, 3, 1)) == 5
    ensures Weekday(Date(2000, 1, 1)) == 6
  {
    assert DaysBeforeMonth(2024, 2) == 31;
    assert DaysBeforeMonth(2024, 3) == 60;
    assert DaysBeforeYear(2024) == 738885;
    assert DaysBeforeYear(2000) == 730119;
  }
}
