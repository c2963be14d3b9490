/** The date picker's builders: the month grid of 42 day cells
    (`FillDaysArray`, `GetDate`), the 16-year decade strip
    (`FillDecadeArray`'s loops, `GetDecade`) and the month-name table. A
    builder call the date library would reject returns an `Err`. The wall
    clock (`DateTime.Now`) is a parameter. */
module DatePicker {
  import opened Common
  import opened Calendar

  /** Cells in the day grid: six weeks of seven days. */
  const GridSize: int := 42

  /** Cells in the decade strip: three years before, ten in, three after. */
  const StripSize: int := 16

  const MonthNames: seq<string> := [
    "January", "February", "March", "April", "May", "June",
    "July", "August", "September", "October", "November", "December"
  ]

  /** Month number of a month name, as the `switch` of `SelectedNewDate`
      reads it; `None` for any other string. */
  function MonthNumber(name: string): (r: Option<int>)
    ensures r.Some? ==> ValidMonth(r.value) && MonthNames[r.value - 1] == name
    ensures r.None? ==> name !in MonthNames
  {
    if name == "January" then Some(1)
    else if name == "February" then Some(2)
    else if name == "March" then Some(3)
    else if name == "April" then Some(4)
    else if name == "May" then Some(5)
    else if name == "June" then Some(6)
    else if name == "July" then Some(7)
    else if name == "August" then Some(8)
    else if name == "September" then Some(9)
    else if name == "October" then Some(10)
    else if name == "November" then Some(11)
    else if name == "December" then Some(12)
    else None
  }

  // ---------------------------------------------------------------------
  // Day grid

  /** One cell of the day grid. */
  datatype Cell = Cell(date: Date, isSelected: bool, currentMonth: bool)

  /** A cell for `date` while (`year`, `month`) is displayed and `selected`
      is the chosen date: selection and month membership are matched by
      value, never by identity. */
  function GetDate(year: int, month: int, selected: Date, date: Date): (c: Cell)
    ensures c.date == date
    ensures c.isSelected <==> date.year == selected.year && date.month == selected.month && date.day == selected.day
    ensures c.currentMonth <==> date.year == year && date.month == month
  {
    Cell(date, date == selected, date.year == year && date.month == month)
  }

  /** Whether a cell shows today's date; `today` stands for the wall clock. */
  predicate IsToday(c: Cell, today: Date) {
    c.date == today
  }

  /** The date library accepts every call the grid builder makes: the days
      of the previous month (December of `year - 1` for January), the days of
      the month and the weekday of its first day. */
  predicate CanFill(year: int, month: int) {
    ValidMonth(month) && InLibraryRange(year) && (month == 1 ==> InLibraryRange(year - 1))
  }

  /** The month whose first days fill the cells after the displayed month,
      as the builder chooses it: January of the next year after December,
      December of the PREVIOUS year after January, and the next month of the
      same year otherwise. */
  function TrailingMonthAsWritten(year: int, month: int): (int, int) {
    if month == 12 then (year + 1, 1)
    else if month == 1 then (year - 1, 12)
    else (year, month + 1)
  }

  /** Number of leading cells: the weekday of the first of the month. */
  function LeadCount(year: int, month: int): (k: int)
    requires CanFill(year, month)
    ensures 0 <= k < 7
  {
    Weekday(Date(year, month, 1))
  }

  /** The date shown in cell `i` of the grid of (`year`, `month`) when the
      trailing cells are taken from the month `trailing`: first the last
      `LeadCount` days of the previous month, then the month's own days,
      then days 1, 2, ... of `trailing`. */
  function CellDate(year: int, month: int, trailing: (int, int), i: int): Date
    requires CanFill(year, month)
    requires 0 <= i < GridSize
  {
    var k := LeadCount(year, month);
    var dim := DaysInMonth(year, month);
    var (py, pm) := PrevMonth(year, month);
    if i < k then Date(py, pm, DaysInMonth(py, pm) - k + 1 + i)
    else if i < k + dim then Date(year, month, i - k + 1)
    else Date(trailing.0, trailing.1, i - k - dim + 1)
  }

  /** The whole grid, cell by cell. */
  function Grid(year: int, month: int, selected: Date, trailing: (int, int)): seq<Cell>
    requires CanFill(year, month)
  {
    seq(GridSize, i requires 0 <= i < GridSize => GetDate(year, month, selected, CellDate(year, month, trailing, i)))
  }

  /** The grid `FillDaysArray` stores in `Days`, or the exception the date
      library throws for a year or month it does not accept. */
  function FillDays(year: int, month: int, selected: Date): (r: Result<seq<Cell>, Failure>)
    ensures r.Ok? <==> CanFill(year, month)
    ensures r.Ok? ==> |r.value| == GridSize
  {
    if CanFill(year, month) then Ok(Grid(year, month, selected, TrailingMonthAsWritten(year, month)))
    else Err(ArgumentOutOfRange)
  }

  /** The builder as the component runs it: a countdown loop over the
      leading days, a loop over the month's days, and a loop that appends
      trailing days while fewer than 42 cells exist. */
  method FillDaysArray(year: int, month: int, selected: Date) returns (r: Result<seq<Cell>, Failure>)
    ensures r == FillDays(year, month, selected)
  {
    if !CanFill(year, month) {
      return Err(ArgumentOutOfRange);
    }
    var trailing := TrailingMonthAsWritten(year, month);
    var (py, pm) := PrevMonth(year, month);
    var daysInPreviousMonth := DaysInMonth(py, pm);
    var daysInCurrentMonth := DaysInMonth(year, month);
    ghost var k := LeadCount(year, month);
    var days: seq<Cell> := [];

    var i := Weekday(Date(year, month, 1));
    while i > 0
      invariant 0 <= i <= k
      invariant |days| == k - i
      invariant forall j :: 0 <= j < |days| ==> days[j] == GetDate(year, month, selected, CellDate(year, month, trailing, j))
    {
      assert CellDate(year, month, trailing, |days|) == Date(py, pm, daysInPreviousMonth - i + 1);
      days := days + [GetDate(year, month, selected, Date(py, pm, daysInPreviousMonth - i + 1))];
      i := i - 1;
    }

    var d := 1;
    while d <= daysInCurrentMonth
      invariant 1 <= d <= daysInCurrentMonth + 1
      invariant |days| == k + d - 1
      invariant forall j :: 0 <= j < |days| ==> days[j] == GetDate(year, month, selected, CellDate(year, month, trailing, j))
    {
      assert CellDate(year, month, trailing, |days|) == Date(year, month, d);
      days := days + [GetDate(year, month, selected, Date(year, month, d))];
      d := d + 1;
    }

    var index := 1;
    while |days| < GridSize
      invariant k + daysInCurrentMonth <= |days| <= GridSize
      invariant index == |days| - k - daysInCurrentMonth + 1
      invariant forall j :: 0 <= j < |days| ==> days[j] == GetDate(year, month, selected, CellDate(year, month, trailing, j))
      decreases GridSize - |days|
    {
      assert CellDate(year, month, trailing, |days|) == Date(trailing.0, trailing.1, index);
      days := days + [GetDate(year, month, selected, Date(trailing.0, trailing.1, index))];
      index := index + 1;
    }
    assert days == Grid(year, month, selected, trailing);
    return Ok(days);
  }

  /** Index of the first selected cell, as `FirstOrDefault(IsSelected)`. */
  function FirstSelected(cells: seq<Cell>): (r: Option<nat>)
    ensures r.Some? ==> r.value < |cells| && cells[r.value].isSelected
    ensures r.Some? ==> forall j :: 0 <= j < r.value ==> !cells[j].isSelected
    ensures r.None? ==> forall j :: 0 <= j < |cells| ==> !cells[j].isSelected
    decreases |cells|
  {
    if |cells| == 0 then None
    else if cells[0].isSelected then Some(0)
    else match FirstSelected(cells[1..])
      case None => None
      case Some(j) => Some(j + 1)
  }

  /** Index of the first cell showing `date`, as `FirstOrDefault` on
      (Day, Month, Year). */
  function FirstWithDate(cells: seq<Cell>, date: Date): (r: Option<nat>)
    ensures r.Some? ==> r.value < |cells| && cells[r.value].date == date
    ensures r.Some? ==> forall j :: 0 <= j < r.value ==> cells[j].date != date
    ensures r.None? ==> forall j :: 0 <= j < |cells| ==> cells[j].date != date
    decreases |cells|
  {
    if |cells| == 0 then None
    else if cells[0].date == date then Some(0)
    else match FirstWithDate(cells[1..], date)
      case None => None
      case Some(j) => Some(j + 1)
  }

  /** Clicking a day: clear the first selected cell, then mark the first cell
      showing the clicked date. Only selection flags change. */
  function SelectInGrid(cells: seq<Cell>, date: Date): (r: seq<Cell>)
    ensures |r| == |cells|
    ensures forall i :: 0 <= i < |r| ==> r[i].date == cells[i].date && r[i].currentMonth == cells[i].currentMonth
    ensures forall i :: 0 <= i < |r| && r[i].isSelected ==> r[i].date == date || cells[i].isSelected
    ensures date in Dates(cells) ==> exists i :: 0 <= i < |r| && r[i].isSelected && r[i].date == date
  {
    var cleared := match FirstSelected(cells)
      case Some(i) => cells[i := cells[i].(isSelected := false)]
      case None => cells;
    match FirstWithDate(cleared, date)
    case Some(j) => cleared[j := cleared[j].(isSelected := true)]
    case None => cleared
  }

  /** The dates shown by a sequence of cells. */
  function Dates(cells: seq<Cell>): set<Date> {
    set i | 0 <= i < |cells| :: cells[i].date
  }

  // ---------------------------------------------------------------------
  // Decade strip

  /** One year of the decade strip. */
  datatype DecadeYear = DecadeYear(year: int, startDecadeYear: int, endDecadeYear: int, currentDecade: bool, currentYear: bool)

  /** Integer division as the source language does it: truncated toward
      zero, so `q * b` is the multiple of `b` nearest `a` on zero's side. */
  function TruncDiv(a: int, b: int): (q: int)
    requires b > 0
    ensures 0 <= a ==> q * b <= a < q * b + b
    ensures a < 0 ==> q * b - b < a <= q * b
  {
    if a >= 0 then a / b else -((-a) / b)
  }

  /** First year of the decade of `selectingYear`, `selectingYear / 10 * 10`
      with truncating division. */
  function DecadeStart(selectingYear: int): int {
    TruncDiv(selectingYear, 10) * 10
  }

  /** A strip entry; `thisYear` stands for the wall clock's year. */
  function GetDecade(year: int, start: int, end: int, thisYear: int): (d: DecadeYear)
    ensures d.year == year && d.startDecadeYear == start && d.endDecadeYear == end
    ensures d.currentDecade <==> start <= year <= end
    ensures d.currentYear <==> year == thisYear
  {
    DecadeYear(year, start, end, start <= year <= end, year == thisYear)
  }

  /** The strip as its three loops build it: three years before `start`, the
      ten years `start .. start + 9`, three years after. */
  function DecadeStrip(start: int, thisYear: int): (s: seq<DecadeYear>)
    ensures |s| == StripSize
    ensures forall i :: 0 <= i < StripSize ==> s[i].year == start - 3 + i
    ensures forall i :: 0 <= i < StripSize ==> (s[i].currentDecade <==> 3 <= i < 13)
    ensures forall i :: 0 <= i < StripSize ==> (s[i].currentYear <==> s[i].year == thisYear)
    ensures forall i :: 0 <= i < StripSize ==> s[i].startDecadeYear == start && s[i].endDecadeYear == start + 9
  {
    var end := start + 9;
    var before := YearRun(start - 3, 3, start, end, thisYear);
    var within := YearRun(start, 10, start, end, thisYear);
    var after := YearRun(end + 1, 3, start, end, thisYear);
    var s := before + within + after;
    assert forall i :: 0 <= i < StripSize ==> s[i] == GetDecade(start - 3 + i, start, end, thisYear) by {
      forall i | 0 <= i < StripSize
        ensures s[i] == GetDecade(start - 3 + i, start, end, thisYear)
      {
        if i < 3 {
          assert s[i] == before[i];
        } else if i < 13 {
          assert s[i] == within[i - 3];
        } else {
          assert s[i] == after[i - 13];
        }
      }
    }
    s
  }

  /** The entries one of the strip's loops appends: `count` years from
      `first` on. */
  function YearRun(first: int, count: nat, start: int, end: int, thisYear: int): (r: seq<DecadeYear>)
    ensures |r| == count
    ensures forall i :: 0 <= i < count ==> r[i] == GetDecade(first + i, start, end, thisYear)
  {
    seq(count, i requires 0 <= i < count => GetDecade(first + i, start, end, thisYear))
  }
}
