/** The `DateTimePicker` component: its mutable fields as an immutable
    `Picker` record, and every handler as a function from the old record to
    the new one. A handler that rebuilds the day grid can throw, so it
    returns a `Result`. */
module DateTimePicker {
  import opened Common
  import opened Calendar
  import opened DatePicker
  import opened DatePickerProofs

  datatype Picker = Picker(
    selectedDate: Date,
    selectedMonth: int,
    selectedYear: int,
    days: seq<Cell>,
    selectingNewDate: bool,
    selectingNewYears: bool,
    selectingYear: int,
    decade: seq<DecadeYear>,
    startCurrentDecadeYear: int,
    endCurrentDecadeYear: int)

  /** The state every successful handler leaves behind: a valid displayed
      month whose grid, with the current selection, is what `Days` holds. */
  predicate Consistent(p: Picker) {
    CanFill(p.selectedYear, p.selectedMonth)
    && p.days == Grid(p.selectedYear, p.selectedMonth, p.selectedDate, TrailingMonthAsWritten(p.selectedYear, p.selectedMonth))
  }

  /** Rebuild `Days` for the displayed month, as `FillDaysArray` does. */
  function Refill(p: Picker): (r: Result<Picker, Failure>)
    ensures r.Ok? <==> CanFill(p.selectedYear, p.selectedMonth)
    ensures r.Ok? ==> Consistent(r.value) && r.value == p.(days := r.value.days)
  {
    match FillDays(p.selectedYear, p.selectedMonth, p.selectedDate)
    case Ok(days) => Ok(p.(days := days))
    case Err(e) => Err(e)
  }

  /** The month name shown in the header. Choosing that name in the month
      chooser selects the displayed month again. */
  function SelectedMonthName(p: Picker): (name: string)
    requires ValidMonth(p.selectedMonth)
    ensures name in MonthNames
    ensures MonthNumber(name) == Some(p.selectedMonth)
  {
    MonthNamesDistinct();
    MonthNames[p.selectedMonth - 1]
  }

  /** Start-up: select today and show its month. */
  function OnInitialized(today: Date): (r: Result<Picker, Failure>)
    requires IsDate(today) && InLibraryRange(today.year)
    ensures r.Ok? <==> !(today.year == 1 && today.month == 1)
    ensures r.Ok? ==> Consistent(r.value) && r.value.selectedDate == today
    ensures r.Ok? ==> r.value.selectedYear == today.year && r.value.selectedMonth == today.month
  {
    Refill(Picker(today, today.month, today.year, [], false, false, 1, [], 0, 0))
  }

  /** Clicking a day: the selection moves to it in place, without a rebuild.
      Cells keep their dates and month flags. On a consistent picker the
      result is exactly the grid a rebuild with the new selection would give,
      so at most one cell is selected and it shows the clicked day. */
  function OnDateSelected(p: Picker, day: Date): (r: Picker)
    ensures r == p.(selectedDate := day, days := r.days)
    ensures |r.days| == |p.days|
    ensures forall i :: 0 <= i < |r.days| ==> r.days[i].date == p.days[i].date && r.days[i].currentMonth == p.days[i].currentMonth
    ensures Consistent(p) ==> Consistent(r)
    ensures Consistent(p) ==>
      && (forall i, j :: 0 <= i < |r.days| && 0 <= j < |r.days| && r.days[i].isSelected && r.days[j].isSelected ==> i == j)
      && (forall i :: 0 <= i < |r.days| && r.days[i].isSelected ==> r.days[i].date == day)
  {
    var r := p.(selectedDate := day, days := SelectInGrid(p.days, day));
    if Consistent(p) then SelectionMatchesRebuild(p, day); r else r
  }

  /** Marking the clicked day in place gives the grid rebuilt with it. */
  lemma SelectionMatchesRebuild(p: Picker, day: Date)
    requires Consistent(p)
    ensures var g := SelectInGrid(p.days, day);
            && g == Grid(p.selectedYear, p.selectedMonth, day, TrailingMonthAsWritten(p.selectedYear, p.selectedMonth))
            && (forall i, j :: 0 <= i < |g| && 0 <= j < |g| && g[i].isSelected && g[j].isSelected ==> i == j)
            && (forall i :: 0 <= i < |g| && g[i].isSelected ==> g[i].date == day)
  {
    var y, m := p.selectedYear, p.selectedMonth;
    var next := Grid(y, m, day, TrailingMonthAsWritten(y, m));
    GridDatesDistinct(y, m, p.selectedDate);
    GridSelection(y, m, p.selectedDate);
    SelectInGridExact(p.days, p.selectedDate, day);
    var r := SelectInGrid(p.days, day);
    assert forall i :: 0 <= i < GridSize ==> r[i] == next[i];
    assert r == next;
    GridSelection(y, m, day);
  }

  /** "Next month": one step forward on the line of months, grid rebuilt. */
  function OnNextClick(p: Picker): (r: Result<Picker, Failure>)
    ensures r.Ok? <==> CanFill(NextMonth(p.selectedYear, p.selectedMonth).0, NextMonth(p.selectedYear, p.selectedMonth).1)
    ensures r.Ok? ==> Consistent(r.value)
    ensures r.Ok? && ValidMonth(p.selectedMonth) ==>
      MonthOrdinal(r.value.selectedYear, r.value.selectedMonth) == MonthOrdinal(p.selectedYear, p.selectedMonth) + 1
    ensures r.Ok? ==> r.value == p.(selectedYear := r.value.selectedYear, selectedMonth := r.value.selectedMonth, days := r.value.days)
  {
    var (y, m) := NextMonth(p.selectedYear, p.selectedMonth);
    Refill(p.(selectedYear := y, selectedMonth := m))
  }

  /** "Previous month": one step back on the line of months, grid rebuilt. */
  function OnPrevClick(p: Picker): (r: Result<Picker, Failure>)
    ensures r.Ok? <==> CanFill(PrevMonth(p.selectedYear, p.selectedMonth).0, PrevMonth(p.selectedYear, p.selectedMonth).1)
    ensures r.Ok? ==> Consistent(r.value)
    ensures r.Ok? && ValidMonth(p.selectedMonth) ==>
      MonthOrdinal(r.value.selectedYear, r.value.selectedMonth) == MonthOrdinal(p.selectedYear, p.selectedMonth) - 1
    ensures r.Ok? ==> r.value == p.(selectedYear := r.value.selectedYear, selectedMonth := r.value.selectedMonth, days := r.value.days)
  {
    var (y, m) := PrevMonth(p.selectedYear, p.selectedMonth);
    Refill(p.(selectedYear := y, selectedMonth := m))
  }

  /** The displayed month, its grid and the selected date are the same in
      `p` and `q`: the choosers never touch them. */
  predicate SameDisplay(p: Picker, q: Picker) {
    q.selectedDate == p.selectedDate && q.selectedYear == p.selectedYear && q.selectedMonth == p.selectedMonth && q.days == p.days
  }

  /** Opens or closes the month chooser, starting it at the displayed year. */
  function SelectNewDate(p: Picker): (r: Picker)
    ensures r.selectingYear == p.selectedYear && r.selectingNewDate == !p.selectingNewDate
    ensures SameDisplay(p, r) && r.selectingNewYears == p.selectingNewYears && r.decade == p.decade
  {
    p.(selectingYear := p.selectedYear, selectingNewDate := !p.selectingNewDate)
  }

  /** The month chooser's year buttons move its cursor by one year. */
  function OnPrevYearClick(p: Picker): (r: Picker)
    ensures r.selectingYear == p.selectingYear - 1
    ensures r == p.(selectingYear := r.selectingYear)
  {
    p.(selectingYear := p.selectingYear - 1)
  }

  function OnNextYearClick(p: Picker): (r: Picker)
    ensures r.selectingYear == p.selectingYear + 1
    ensures r == p.(selectingYear := r.selectingYear)
  {
    p.(selectingYear := p.selectingYear + 1)
  }

  /** Choosing a month by name in the month chooser: a known name sets the
      month, any other name keeps it; the year becomes the chooser's year. */
  function SelectedNewDate(p: Picker, name: string): (r: Result<Picker, Failure>)
    ensures r.Ok? ==> Consistent(r.value) && r.value.selectedYear == p.selectingYear
    ensures r.Ok? && MonthNumber(name).Some? ==> r.value.selectedMonth == MonthNumber(name).value
    ensures r.Ok? && name !in MonthNames ==> r.value.selectedMonth == p.selectedMonth
    ensures r.Ok? ==> r.value.selectingYear == p.selectingYear && r.value.selectingNewDate == !p.selectingNewDate
    ensures r.Ok? ==> r.value.selectedDate == p.selectedDate
  {
    var month := match MonthNumber(name)
      case Some(m) => m
      case None => p.selectedMonth;
    Refill(SelectNewDate(p.(selectedMonth := month, selectedYear := p.selectingYear)))
  }

  /** `FillDecadeArray`: the strip and its bounds for the chooser's year. */
  function FillDecadeArray(p: Picker, thisYear: int): (q: Picker)
    ensures q.startCurrentDecadeYear == DecadeStart(p.selectingYear)
    ensures q.endCurrentDecadeYear == q.startCurrentDecadeYear + 9
    ensures q.decade == DecadeStrip(q.startCurrentDecadeYear, thisYear)
    ensures q == p.(decade := q.decade, startCurrentDecadeYear := q.startCurrentDecadeYear, endCurrentDecadeYear := q.endCurrentDecadeYear)
  {
    var start := DecadeStart(p.selectingYear);
    p.(startCurrentDecadeYear := start, endCurrentDecadeYear := start + 9, decade := DecadeStrip(start, thisYear))
  }

  /** Opens or closes the year strip, built for the cursor's decade. */
  function SelectNewYears(p: Picker, thisYear: int): (r: Picker)
    ensures r.selectingNewYears == !p.selectingNewYears && r.selectingYear == p.selectingYear
    ensures r.decade == DecadeStrip(DecadeStart(p.selectingYear), thisYear)
    ensures SameDisplay(p, r)
  {
    var q := FillDecadeArray(p, thisYear);
    q.(selectingNewYears := !q.selectingNewYears)
  }

  /** The strip's arrows move the cursor by ten years and rebuild the strip. */
  function OnPrevDecadeClick(p: Picker, thisYear: int): (r: Picker)
    ensures r.selectingYear == p.selectingYear - 10
    ensures r.decade == DecadeStrip(DecadeStart(r.selectingYear), thisYear)
    ensures SameDisplay(p, r) && r.selectingNewYears == p.selectingNewYears
  {
    FillDecadeArray(p.(selectingYear := p.selectingYear - 10), thisYear)
  }

  function OnNextDecadeClick(p: Picker, thisYear: int): (r: Picker)
    ensures r.selectingYear == p.selectingYear + 10
    ensures r.decade == DecadeStrip(DecadeStart(r.selectingYear), thisYear)
    ensures SameDisplay(p, r) && r.selectingNewYears == p.selectingNewYears
  {
    FillDecadeArray(p.(selectingYear := p.selectingYear + 10), thisYear)
  }

  /** Picking a year in the strip moves the cursor there and toggles the
      strip; the strip itself is not rebuilt until it is opened again. */
  function SetSelectingYear(p: Picker, year: int): (r: Picker)
    ensures r.selectingYear == year && r.selectingNewYears == !p.selectingNewYears
    ensures SameDisplay(p, r) && r.decade == p.decade
  {
    p.(selectingYear := year, selectingNewYears := !p.selectingNewYears)
  }
}
