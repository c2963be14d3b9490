/** What the date picker's handlers guarantee: navigation round trips,
    selection by value, the month and year choosers and decade paging. */
module DateTimePickerProofs {
  import opened Common
  import opened Calendar
  import opened DatePicker
  import opened DatePickerProofs
  import opened DateTimePicker

  // ---------------------------------------------------------------------
  // Month navigation and selection

  /** "Next" followed by "previous", and "previous" followed by "next",
      give back the very same picker, day grid included. */
  lemma NavigationRoundTrip(p: Picker)
    requires Consistent(p)
    ensures OnNextClick(p).Ok? ==> OnPrevClick(OnNextClick(p).value) == Ok(p)
    ensures OnPrevClick(p).Ok? ==> OnNextClick(OnPrevClick(p).value) == Ok(p)
  {
    NextPrevRoundTrip(p.selectedYear, p.selectedMonth);
  }

  /** "Next" on December shows January of the next year; "previous" on
      January shows December of the previous year. */
  lemma NavigationCarriesYear(p: Picker)
    requires Consistent(p)
    ensures p.selectedMonth == 12 && OnNextClick(p).Ok? ==>
      OnNextClick(p).value.selectedMonth == 1 && OnNextClick(p).value.selectedYear == p.selectedYear + 1
    ensures p.selectedMonth == 1 && OnPrevClick(p).Ok? ==>
      OnPrevClick(p).value.selectedMonth == 12 && OnPrevClick(p).value.selectedYear == p.selectedYear - 1
  {
    NextMonthIsSuccessor(p.selectedYear, p.selectedMonth);
    PrevMonthIsPredecessor(p.selectedYear, p.selectedMonth);
  }

  /** Choosing the `m`-th month name shows month `m` of the chooser's year;
      an unknown name keeps the displayed month. */
  lemma SelectByMonthName(p: Picker, m: int, other: string)
    requires ValidMonth(m) && other !in MonthNames
    ensures SelectedNewDate(p, MonthNames[m - 1]).Ok? <==> CanFill(p.selectingYear, m)
    ensures SelectedNewDate(p, MonthNames[m - 1]).Ok? ==>
      SelectedNewDate(p, MonthNames[m - 1]).value.selectedMonth == m
      && SelectedNewDate(p, MonthNames[m - 1]).value.selectedYear == p.selectingYear
    ensures SelectedNewDate(p, other).Ok? ==> SelectedNewDate(p, other).value.selectedMonth == p.selectedMonth
  {
    var n := MonthNumber(MonthNames[m - 1]);
    assert n.Some?;
    MonthNamesDistinct();
    assert MonthNames[n.value - 1] == MonthNames[m - 1];
  }

  /** Selection is by value, so it survives leaving the month and coming
      back: after clicking a day of the displayed month, "next" then
      "previous" shows the same month with that day's cell selected. */
  lemma SelectionSurvivesNavigation(p: Picker, day: Date)
    requires Consistent(p)
    requires day.year == p.selectedYear && day.month == p.selectedMonth
    requires 1 <= day.day <= DaysInMonth(p.selectedYear, p.selectedMonth)
    ensures var q := OnDateSelected(p, day);
            OnNextClick(q).Ok? ==>
              && OnPrevClick(OnNextClick(q).value) == Ok(q)
              && q.days[Weekday(Date(p.selectedYear, p.selectedMonth, 1)) + day.day - 1].isSelected
  {
    var q := OnDateSelected(p, day);
    NavigationRoundTrip(q);
    GridSelection(p.selectedYear, p.selectedMonth, day);
  }

  // ---------------------------------------------------------------------
  // Year chooser and decade strip

  /** Decade paging moves the cursor by exactly ten years, rebuilds the strip
      for the new cursor, and the two buttons undo each other. */
  lemma DecadePaging(p: Picker, thisYear: int)
    ensures OnNextDecadeClick(p, thisYear).selectingYear == p.selectingYear + 10
    ensures OnPrevDecadeClick(p, thisYear).selectingYear == p.selectingYear - 10
    ensures OnPrevDecadeClick(OnNextDecadeClick(p, thisYear), thisYear) == FillDecadeArray(p, thisYear)
    ensures OnNextDecadeClick(OnPrevDecadeClick(p, thisYear), thisYear) == FillDecadeArray(p, thisYear)
  {
  }

  /** The strip for cursor year 2024: decade 2020 .. 2029, shown as the
      years 2017 .. 2032 with exactly the middle ten highlighted. */
  lemma DecadeOf2024(thisYear: int)
    ensures var q := FillDecadeArray(Picker(Date(2024, 1, 1), 1, 2024, [], false, false, 2024, [], 0, 0), thisYear);
            && q.startCurrentDecadeYear == 2020 && q.endCurrentDecadeYear == 2029
            && q.decade[0].year == 2017 && q.decade[StripSize - 1].year == 2032
            && (forall i :: 0 <= i < StripSize ==> (q.decade[i].currentDecade <==> 2020 <= q.decade[i].year <= 2029))
  {
  }

  /** The year chooser: opening the month chooser puts the cursor on the
      displayed year; the year buttons undo each other; picking a year in the
      strip closes it, and reopening it shows that year's decade. None of
      these touches the displayed month, its grid or the selected date. */
  lemma YearChooser(p: Picker, year: int, thisYear: int)
    ensures SelectNewDate(p).selectingYear == p.selectedYear
    ensures SelectNewDate(SelectNewDate(p)).selectingNewDate == p.selectingNewDate
    ensures OnPrevYearClick(OnNextYearClick(p)) == p && OnNextYearClick(OnPrevYearClick(p)) == p
    ensures var q := SetSelectingYear(SelectNewYears(p, thisYear), year);
            && q.selectingNewYears == p.selectingNewYears
            && (year >= 0 ==> SelectNewYears(q, thisYear).startCurrentDecadeYear <= year <= SelectNewYears(q, thisYear).endCurrentDecadeYear)
    ensures forall q :: q in {SelectNewDate(p), OnPrevYearClick(p), OnNextYearClick(p), SelectNewYears(p, thisYear), SetSelectingYear(p, year)} ==>
      q.selectedDate == p.selectedDate && q.selectedYear == p.selectedYear && q.selectedMonth == p.selectedMonth && q.days == p.days
  {
    if year >= 0 {
      DecadeContainsCursor(year);
    }
  }
}
