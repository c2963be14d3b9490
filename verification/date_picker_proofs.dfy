/** What the date picker's grid and decade strip guarantee, proved
    against the calendar arithmetic of `Calendar`. */
module DatePickerProofs {
  import opened Common
  import opened Calendar
  import opened DatePicker

  /** The grid the component stores for a month it can display. */
  function DaysOf(year: int, month: int, selected: Date): seq<Cell>
    requires CanFill(year, month)
  {
    FillDays(year, month, selected).value
  }

  /** A run of cells showing consecutive calendar days, the first on a
      Sunday, so that every column sits under its weekday heading. */
  predicate ConsecutiveFromSunday(cells: seq<Cell>) {
    && (forall i :: 0 <= i < |cells| ==> IsDate(cells[i].date) && Weekday(cells[i].date) == i % 7)
    && (forall i :: 0 <= i < |cells| - 1 ==> IsDate(cells[i].date) && cells[i + 1].date == NextDay(cells[i].date))
  }

  // ---------------------------------------------------------------------
  // Layout of the grid

  /** The cell dates, with the trailing days taken from the next month, are
      consecutive day numbers starting `LeadCount` days before the first. */
  lemma CellDayNumber(year: int, month: int, i: int)
    requires CanFill(year, month) && 0 <= i < GridSize
    ensures IsDate(CellDate(year, month, NextMonth(year, month), i))
    ensures DayNumber(CellDate(year, month, NextMonth(year, month), i))
         == DayNumber(Date(year, month, 1)) - LeadCount(year, month) + i
  {
    var k := LeadCount(year, month);
    var dim := DaysInMonth(year, month);
    var (py, pm) := PrevMonth(year, month);
    if i < k {
      var last := Date(py, pm, DaysInMonth(py, pm));
      NextDayNumber(last);
      assert NextDay(last) == Date(year, month, 1);
    } else if i >= k + dim {
      var end := Date(year, month, dim);
      NextDayNumber(end);
      assert NextDay(end) == Date(NextMonth(year, month).0, NextMonth(year, month).1, 1);
    }
  }

  /** The builder's trailing month differs from the next month only for January. */
  lemma TrailingAgreesExceptJanuary(year: int, month: int, i: int)
    requires CanFill(year, month) && 0 <= i < GridSize
    requires month != 1 || i < LeadCount(year, month) + DaysInMonth(year, month)
    ensures CellDate(year, month, TrailingMonthAsWritten(year, month), i) == CellDate(year, month, NextMonth(year, month), i)
  {
  }

  /** The number of leading cells is the weekday of the first of the month
      (Sunday = 0); they are the last days of the previous month in
      ascending order, the last of them the day before the first; for
      January that previous month is December of the year before. */
  lemma LeadingCells(year: int, month: int, selected: Date)
    requires CanFill(year, month)
    ensures var g := DaysOf(year, month, selected);
            var k := Weekday(Date(year, month, 1));
            && (forall i :: 0 <= i < k ==> IsDate(g[i].date) && (g[i].date.year, g[i].date.month) == PrevMonth(year, month))
            && (forall i :: 0 <= i < k - 1 ==> g[i + 1].date == NextDay(g[i].date))
            && (k > 0 ==> NextDay(g[k - 1].date) == Date(year, month, 1) && g[k].date == Date(year, month, 1))
            && (month == 1 ==> PrevMonth(year, month) == (year - 1, 12))
  {
    var g := DaysOf(year, month, selected);
    var k := LeadCount(year, month);
    forall i | 0 <= i < k
      ensures IsDate(g[i].date) && (g[i].date.year, g[i].date.month) == PrevMonth(year, month)
    {
      CellDayNumber(year, month, i);
      TrailingAgreesExceptJanuary(year, month, i);
    }
    forall i | 0 <= i < k - 1
      ensures g[i + 1].date == NextDay(g[i].date)
    {
      CellStep(year, month, i);
      TrailingAgreesExceptJanuary(year, month, i);
      TrailingAgreesExceptJanuary(year, month, i + 1);
    }
    if k > 0 {
      CellStep(year, month, k - 1);
      TrailingAgreesExceptJanuary(year, month, k - 1);
      TrailingAgreesExceptJanuary(year, month, k);
    }
  }

  /** Consecutive cells of the next-month layout show consecutive days. */
  lemma CellStep(year: int, month: int, i: int)
    requires CanFill(year, month) && 0 <= i < GridSize - 1
    ensures IsDate(CellDate(year, month, NextMonth(year, month), i))
    ensures CellDate(year, month, NextMonth(year, month), i + 1) == NextDay(CellDate(year, month, NextMonth(year, month), i))
  {
    var t := NextMonth(year, month);
    CellDayNumber(year, month, i);
    CellDayNumber(year, month, i + 1);
    var c := CellDate(year, month, t, i);
    NextDayNumber(c);
    DayNumberInjective(CellDate(year, month, t, i + 1), NextDay(c));
  }

  /** Cells `k .. k + daysInMonth - 1` show days 1 .. daysInMonth of the
      displayed month in order, and exactly they are flagged as belonging to
      the displayed month. */
  lemma MonthCells(year: int, month: int, selected: Date)
    requires CanFill(year, month)
    ensures var g := DaysOf(year, month, selected);
            var k := Weekday(Date(year, month, 1));
            var dim := DaysInMonth(year, month);
            && (forall d :: 1 <= d <= dim ==> g[k + d - 1].date == Date(year, month, d))
            && (forall i :: 0 <= i < GridSize ==> (g[i].currentMonth <==> k <= i < k + dim))
  {
    var g := DaysOf(year, month, selected);
    var k := LeadCount(year, month);
    var dim := DaysInMonth(year, month);
    var t := TrailingMonthAsWritten(year, month);
    assert g == Grid(year, month, selected, t);
    forall i | 0 <= i < GridSize
      ensures g[i].currentMonth <==> k <= i < k + dim
    {
      var c := CellDate(year, month, t, i);
      assert g[i] == GetDate(year, month, selected, c);
      if i < k {
        assert (c.year, c.month) == PrevMonth(year, month);
      } else if i >= k + dim {
        assert (c.year, c.month) == t;
      }
    }
  }

  /** The cells after the month are numbered 1, 2, ... and are real dates;
      they come from the next month of the same year for February to
      November, from January of the next year for December, and from
      December of the PREVIOUS year for January. */
  lemma TrailingCells(year: int, month: int, selected: Date)
    requires CanFill(year, month)
    ensures var g := DaysOf(year, month, selected);
            var k := Weekday(Date(year, month, 1));
            var dim := DaysInMonth(year, month);
            var t := TrailingMonthAsWritten(year, month);
            && k + dim < GridSize
            && (forall i :: k + dim <= i < GridSize ==> IsDate(g[i].date) && g[i].date == Date(t.0, t.1, i - k - dim + 1))
            && (month != 1 ==> t == NextMonth(year, month))
            && (month == 1 ==> t == (year - 1, 12))
  {
    var g := DaysOf(year, month, selected);
    var k := LeadCount(year, month);
    var dim := DaysInMonth(year, month);
    var t := TrailingMonthAsWritten(year, month);
    forall i | k + dim <= i < GridSize
      ensures IsDate(g[i].date) && g[i].date == Date(t.0, t.1, i - k - dim + 1)
    {
      if month != 1 {
        CellDayNumber(year, month, i);
      } else {
        assert DaysInMonth(t.0, t.1) == 31;
      }
    }
  }

  // ---------------------------------------------------------------------
  // Order, uniqueness and selection

  /** For every month but January the 42 cells are consecutive calendar
      days starting on a Sunday. */
  lemma GridConsecutive(year: int, month: int, selected: Date)
    requires CanFill(year, month) && month != 1
    ensures |DaysOf(year, month, selected)| == GridSize
    ensures ConsecutiveFromSunday(DaysOf(year, month, selected))
  {
    var g := DaysOf(year, month, selected);
    forall i | 0 <= i < GridSize
      ensures IsDate(g[i].date) && Weekday(g[i].date) == i % 7
    {
      CellDayNumber(year, month, i);
      SundayAligned(year, month, i);
    }
    forall i | 0 <= i < GridSize - 1
      ensures IsDate(g[i].date) && g[i + 1].date == NextDay(g[i].date)
    {
      CellStep(year, month, i);
    }
  }

  /** Cell `i` of the next-month layout falls on weekday `i mod 7`. */
  lemma SundayAligned(year: int, month: int, i: int)
    requires CanFill(year, month) && 0 <= i < GridSize
    ensures IsDate(CellDate(year, month, NextMonth(year, month), i))
    ensures Weekday(CellDate(year, month, NextMonth(year, month), i)) == i % 7
  {
    CellDayNumber(year, month, i);
    var n := DayNumber(Date(year, month, 1)) + 1;
    WeekStart(n, i);
  }

  /** Going back `n mod 7` days from day `n` lands on a multiple of seven. */
  lemma WeekStart(n: int, i: int)
    requires 0 <= i
    ensures (n - n % 7 + i) % 7 == i % 7
  {
    var q := n / 7;
    assert n - n % 7 == 7 * q;
    assert (7 * q + i) % 7 == i % 7;
  }

  /** For every month but January the cells are in strictly increasing
      calendar order. */
  lemma GridIncreasing(year: int, month: int, selected: Date)
    requires CanFill(year, month) && month != 1
    ensures var g := DaysOf(year, month, selected);
            forall i, j :: 0 <= i < j < GridSize ==> Before(g[i].date, g[j].date)
  {
    var g := DaysOf(year, month, selected);
    forall i, j | 0 <= i < j < GridSize
      ensures Before(g[i].date, g[j].date)
    {
      CellDayNumber(year, month, i);
      CellDayNumber(year, month, j);
      DayNumberOrder(g[i].date, g[j].date);
    }
  }

  /** No date appears twice in the grid, for every month including January. */
  lemma GridDatesDistinct(year: int, month: int, selected: Date)
    requires CanFill(year, month)
    ensures var g := DaysOf(year, month, selected);
            forall i, j :: 0 <= i < GridSize && 0 <= j < GridSize && i != j ==> g[i].date != g[j].date
  {
    var g := DaysOf(year, month, selected);
    forall i, j | 0 <= i < GridSize && 0 <= j < GridSize && i != j
      ensures g[i].date != g[j].date
    {
      if month != 1 {
        CellDayNumber(year, month, i);
        CellDayNumber(year, month, j);
      } else {
        assert DaysInMonth(year - 1, 12) == 31 && DaysInMonth(year, 1) == 31;
      }
    }
  }

  /** A cell is selected exactly when it shows the selected date; at most one
      cell is selected, and when the selected date lies in the displayed
      month, its cell is the selected one. */
  lemma GridSelection(year: int, month: int, selected: Date)
    requires CanFill(year, month)
    ensures var g := DaysOf(year, month, selected);
            && (forall i :: 0 <= i < GridSize ==> (g[i].isSelected <==> g[i].date == selected))
            && (forall i, j :: 0 <= i < GridSize && 0 <= j < GridSize && g[i].isSelected && g[j].isSelected ==> i == j)
            && (selected.year == year && selected.month == month && 1 <= selected.day <= DaysInMonth(year, month) ==>
                  g[Weekday(Date(year, month, 1)) + selected.day - 1].isSelected)
  {
    GridDatesDistinct(year, month, selected);
  }

  /** At most one cell of the grid shows today. */
  lemma AtMostOneToday(year: int, month: int, selected: Date, today: Date)
    requires CanFill(year, month)
    ensures var g := DaysOf(year, month, selected);
            forall i, j :: 0 <= i < GridSize && 0 <= j < GridSize && IsToday(g[i], today) && IsToday(g[j], today) ==> i == j
  {
    GridDatesDistinct(year, month, selected);
  }

  // ---------------------------------------------------------------------
  // January: the trailing cells

  /** As written, the grid of every January breaks calendar order right
      after the 31st: the next cell shows 1 December of the previous year
      instead of 1 February. */
  lemma JanuaryTrailingDiverges(year: int, selected: Date)
    requires CanFill(year, 1)
    ensures var g := DaysOf(year, 1, selected);
            var k := Weekday(Date(year, 1, 1));
            && g[k + 30].date == Date(year, 1, 31)
            && g[k + 31].date == Date(year - 1, 12, 1)
            && Before(g[k + 31].date, g[k + 30].date)
            && g[k + 31].date != NextDay(g[k + 30].date)
  {
  }

  /** The grid with the trailing cells taken from the month after the
      displayed one, which is what the builder evidently intends for
      January as it does for every other month. */
  function FillDaysCorrected(year: int, month: int, selected: Date): (r: Result<seq<Cell>, Failure>)
    ensures r.Ok? <==> CanFill(year, month)
    ensures r.Ok? ==> |r.value| == GridSize && ConsecutiveFromSunday(r.value)
    ensures r.Ok? && month != 1 ==> r == FillDays(year, month, selected)
  {
    if CanFill(year, month) then
      CorrectedGridConsecutive(year, month, selected);
      Ok(Grid(year, month, selected, NextMonth(year, month)))
    else Err(ArgumentOutOfRange)
  }

  /** With the trailing month corrected, every month's grid, January's
      included, is 42 consecutive days starting on a Sunday. */
  lemma CorrectedGridConsecutive(year: int, month: int, selected: Date)
    requires CanFill(year, month)
    ensures ConsecutiveFromSunday(Grid(year, month, selected, NextMonth(year, month)))
  {
    var g := Grid(year, month, selected, NextMonth(year, month));
    forall i | 0 <= i < GridSize
      ensures IsDate(g[i].date) && Weekday(g[i].date) == i % 7
    {
      SundayAligned(year, month, i);
    }
    forall i | 0 <= i < GridSize - 1
      ensures IsDate(g[i].date) && g[i + 1].date == NextDay(g[i].date)
    {
      CellStep(year, month, i);
    }
  }

  // ---------------------------------------------------------------------
  // Selection and month names

  /** On cells whose dates are distinct and whose selection marks exactly
      the date `previous`, clicking `day` marks exactly the date `day`. */
  lemma SelectInGridExact(cells: seq<Cell>, previous: Date, day: Date)
    requires forall i :: 0 <= i < |cells| ==> (cells[i].isSelected <==> cells[i].date == previous)
    requires forall i, j :: 0 <= i < |cells| && 0 <= j < |cells| && i != j ==> cells[i].date != cells[j].date
    ensures var r := SelectInGrid(cells, day);
            |r| == |cells| && forall i :: 0 <= i < |r| ==> r[i] == cells[i].(isSelected := cells[i].date == day)
  {
    var cleared := match FirstSelected(cells)
      case Some(i) => cells[i := cells[i].(isSelected := false)]
      case None => cells;
    assert forall i :: 0 <= i < |cleared| ==> cleared[i] == cells[i].(isSelected := false);
    match FirstWithDate(cleared, day)
    case Some(j) =>
      assert SelectInGrid(cells, day) == cleared[j := cleared[j].(isSelected := true)];
    case None =>
      assert SelectInGrid(cells, day) == cleared;
  }

  /** No two months share a name. */
  lemma MonthNamesDistinct()
    ensures forall i, j :: 0 <= i < |MonthNames| && 0 <= j < |MonthNames| && i != j ==> MonthNames[i] != MonthNames[j]
  {
  }

  // ---------------------------------------------------------------------
  // Decade strip

  /** For a non-negative cursor year the strip's decade starts on a multiple
      of ten and contains the cursor year. */
  lemma DecadeContainsCursor(selectingYear: int)
    requires selectingYear >= 0
    ensures DecadeStart(selectingYear) % 10 == 0
    ensures DecadeStart(selectingYear) <= selectingYear <= DecadeStart(selectingYear) + 9
  {
  }

  /** As written, truncating division puts a negative cursor year that is
      not a multiple of ten outside the decade the strip highlights: for
      year -5 the highlighted decade is 0 .. 9. */
  lemma NegativeCursorOutsideDecade(selectingYear: int)
    requires selectingYear < 0 && selectingYear % 10 != 0
    ensures selectingYear < DecadeStart(selectingYear)
    ensures DecadeStart(-5) == 0
  {
  }

  /** The decade start with floor division, which the strip evidently
      intends: the cursor year always lies in the highlighted decade. */
  function DecadeStartCorrected(selectingYear: int): (start: int)
    ensures start % 10 == 0
    ensures start <= selectingYear <= start + 9
    ensures selectingYear >= 0 ==> start == DecadeStart(selectingYear)
  {
    selectingYear / 10 * 10
  }
}
