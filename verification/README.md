# Date picker and video player chrome, modelled in Dafny

This project models the two pieces of sequential logic in the Blazor
components `DateTimePicker` and `VideoPlayer`.

- **DateTimePicker**: the 42-cell day grid (`FillDaysArray`/`GetDate`), the
  16-cell decade strip (`FillDecadeArray`/`GetDecade`), the month-name
  table, month navigation with year carry, the month and year choosers, and
  the single-selection flag (`OnDateSelected`). The platform's
  `DateTime.DaysInMonth` and `DayOfWeek` are defined from first principles
  in `Calendar` (proleptic Gregorian calendar; day 0 is Monday 1 January of
  year 1; Sunday = 0 as `DayOfWeek` numbers it). `DateTime.Now` becomes a
  parameter (`today`, `thisYear`).
- **VideoPlayer**: the UI flags as an immutable `Player` record, and every
  handler as a pure step function returning the new record and the commands
  sent to the media script (`Play`, `Pause`, `Stop`, `Seek(t)` for
  `changeCurrentTime`, `SetVolume`, ...). This covers the derived
  `HideControls` rule and `Repaint`, the event-to-status table of
  `OnVideoChange`, the seek dead band of `OnProgressChanged`, the auto-hide
  delay with its stale-token guard, volume stepping on the wheel, the
  settings menu, clicks and touches on the video area, and the time display
  (`GetTimeLevel`/`GetTime`, in `ClockFormat`).

Files:

| file | module | contents |
|---|---|---|
| `common.dfy` | `Common` | `Option`, `Result`, the library exception |
| `calendar.dfy` | `Calendar` | days in month, day numbers, weekday, month navigation |
| `date_picker.dfy` | `DatePicker` | the builders: day grid, month names, selection, decade strip |
| `date_picker_proofs.dfy` | `DatePickerProofs` | grid layout, order, selection and decade lemmas |
| `date_time_picker.dfy` | `DateTimePicker` | the picker's state and every handler |
| `date_time_picker_proofs.dfy` | `DateTimePickerProofs` | navigation, month and year chooser lemmas |
| `clock_format.dfy` | `ClockFormat` | `GetTimeLevel`, `GetTime`, and a reader for the displayed text |
| `video_player.dfy` | `VideoPlayer` | player state, commands, every handler, input dispatch |
| `video_player_proofs.dfy` | `VideoPlayerProofs` | runs of inputs, token freshness, delay, wheel and menu lemmas |

Modelling choices:

- Exceptions of the date library become `Err(ArgumentOutOfRange)`.
  `FillDaysArray` throws exactly when `CanFill` fails: a month outside
  1..12, a year outside 1..9999, or January of year 1, whose previous
  December is in year 0.
- Volume is in integer tenths (`Tenths`, 0..10). Times and durations are
  `real`. `GetTime` works on whole seconds.
- `Guid.NewGuid()` becomes a counter (`Timer.issued`). `Task.Delay(3000)`
  is split in two. `ProgressiveDelay` emits `StartDelay(token)`, and the
  input `DelayEnds(token)` (`DelayExpired`) is the moment the wait ends.
  `OnMouseWheel` awaits `OnVolumeChanging`, which awaits a whole
  `ProgressiveDelay`. So with the slider open, the wheel handler stays
  suspended until that first delay ends, and only then starts its own
  delay. `Timer.wheelResume` records the delays a suspended wheel handler
  waits on.
- `VideoInfo` is reduced to its `Duration`, as `Option<real>`. A handler
  that dereferences a missing info in the source (a taken time update, a
  committed seek) has the duration's presence as a precondition. `Enabled`
  collects these preconditions, and `Run` stops with `None` at such an
  input.
- The source names the stopped status `Stoped`; the model calls it `Stopped`.

Notes on the code's behaviour:

- The decade start is `selectingYear / 10 * 10` with C#'s truncating
  division. For non-negative years this is the floor
  (`DatePickerProofs.DecadeStartCorrected`); below zero a cursor year
  that is not a multiple of ten falls outside its own strip's decade
  (`DatePickerProofs.NegativeCursorOutsideDecade`).
- The grid's dates are not increasing for January (see Findings).
- `OnProgressChanged` compares the current time as it was *before* the
  seek lands with the duration.
- A missing video info makes a taken time update or a committed seek throw.
- The progress-bar style is stored and only recomputed by handlers that
  call `Repaint`. `MoreButtonInfo` and `OnEmptyClick` change `ShowSideBar`
  without repainting.

## Model

| member | source | states |
|---|---|---|
| Calendar.DaysInMonth | Components/DateTimePicker/DateTimePicker.razor.cs:269-276 | A month has 28 to 31 days, and 29 exactly for February of a leap year. |
| Calendar.Weekday | Components/DateTimePicker/DateTimePicker.razor.cs:282-287 | The weekday of a date is in 0..6 (Sunday = 0). |
| Calendar.WeekdayAnchors | Components/DateTimePicker/DateTimePicker.razor.cs:282-287 | Known dates fall on their real weekdays: 1 Jan 0001 is a Monday, 1 Mar 2024 a Friday, 1 Jan 2000 a Saturday. |
| Calendar.NextMonthIsSuccessor | Components/DateTimePicker/DateTimePicker.razor.cs:154-165 | "Next" keeps the month in 1..12 and moves exactly one month forward; December goes to January of year + 1. |
| Calendar.PrevMonthIsPredecessor | Components/DateTimePicker/DateTimePicker.razor.cs:167-178 | "Previous" keeps the month in 1..12 and moves exactly one month back; January goes to December of year - 1. |
| Calendar.NextPrevRoundTrip | Components/DateTimePicker/DateTimePicker.razor.cs:154-178 | Next then previous, and previous then next, return to the same (year, month). |
| Calendar.NextMonthsOrdinal | Components/DateTimePicker/DateTimePicker.razor.cs:154-165 | n presses of "next" move n months forward. |
| Calendar.PrevMonthsOrdinal | Components/DateTimePicker/DateTimePicker.razor.cs:167-178 | n presses of "previous" move n months back. |
| Calendar.TwelveMonths | Components/DateTimePicker/DateTimePicker.razor.cs:154-178 | Twelve presses of "next" give the same month in year + 1; twelve of "previous" give it in year - 1. |
| Calendar.DayNumberOrder | Components/DateTimePicker/DateTimePicker.razor.cs:267-313 | Calendar order of dates agrees with the order of their day numbers, in both directions. |
| DatePicker.MonthNumber | Components/DateTimePicker/DateTimePicker.razor.cs:196-236 | The `switch` maps a name to month m only if the name is the m-th entry of `MonthNames`, and yields nothing only for names not in the table. |
| DatePicker.FillDays | Components/DateTimePicker/DateTimePicker.razor.cs:267-313 | The grid exists exactly when the date library accepts the year and month (January of year 1 throws); it always has 42 cells. |
| DatePicker.FillDaysArray | Components/DateTimePicker/DateTimePicker.razor.cs:267-313 | The three loops (leading countdown, month days, trailing fill up to 42) build exactly the cell-by-cell grid of `FillDays`. |
| DatePicker.FirstSelected | Components/DateTimePicker/DateTimePicker.razor.cs:143 | `FirstOrDefault(IsSelected)` returns the first selected cell, or nothing when none is selected. |
| DatePicker.FirstWithDate | Components/DateTimePicker/DateTimePicker.razor.cs:148 | `FirstOrDefault` on (Day, Month, Year) returns the first cell showing the date, or nothing when none does. |
| DatePicker.GetDate | Components/DateTimePicker/DateTimePicker.razor.cs:315-322 | A cell shows its date; it is selected exactly when year, month and day all equal the selected date's, and in the current month exactly when its year and month are the displayed ones. |
| DatePicker.SelectInGrid | Components/DateTimePicker/DateTimePicker.razor.cs:139-152 | Clicking a day changes only selection flags; a selected cell afterwards shows the new date or was already selected; if the new date is shown, a cell showing it is selected. |
| DatePicker.TruncDiv | Components/DateTimePicker/DateTimePicker.razor.cs:326 | C# integer division rounds toward zero: for a non-negative year the quotient times ten is the largest multiple of ten not above it, for a negative year the smallest not below it. |
| DatePicker.GetDecade | Components/DateTimePicker/DateTimePicker.razor.cs:347-354 | A strip entry carries its year and the decade bounds; it is in the current decade exactly when the year lies within the bounds, and the current year exactly when it is the wall clock's year. |
| DatePicker.DecadeStrip | Components/DateTimePicker/DateTimePicker.razor.cs:331-354 | The strip holds the 16 years start - 3 .. start + 12 in order; exactly the middle ten are in the current decade; a year is the current year exactly when it equals the wall clock's year; each carries the decade bounds. |
| DateTimePicker.Refill | Components/DateTimePicker/DateTimePicker.razor.cs:267-313 | Rebuilding succeeds exactly when the displayed month can be filled, and then only `Days` changes and the picker is consistent. |
| DateTimePicker.SelectedMonthName | Components/DateTimePicker/DateTimePicker.razor.cs:43 | The header name is one of the twelve month names, and choosing it in the month chooser selects the displayed month again. |
| DateTimePicker.OnInitialized | Components/DateTimePicker/DateTimePicker.razor.cs:130-137 | Start-up selects today and shows its month; it fails only in January of year 1. |
| DateTimePicker.OnNextClick | Components/DateTimePicker/DateTimePicker.razor.cs:154-165 | "Next" succeeds exactly when the next month can be filled; it moves one month forward, rebuilds the grid, and changes nothing else. |
| DateTimePicker.OnPrevClick | Components/DateTimePicker/DateTimePicker.razor.cs:167-178 | "Previous" succeeds exactly when the previous month can be filled; it moves one month back, rebuilds the grid, and changes nothing else. |
| DateTimePicker.SelectNewDate | Components/DateTimePicker/DateTimePicker.razor.cs:180-184 | The month chooser toggles and its cursor starts at the displayed year; the displayed month, grid, selection and year strip are untouched. |
| DateTimePicker.OnPrevYearClick | Components/DateTimePicker/DateTimePicker.razor.cs:186-189 | The chooser's cursor moves one year back; nothing else changes. |
| DateTimePicker.OnNextYearClick | Components/DateTimePicker/DateTimePicker.razor.cs:191-194 | The chooser's cursor moves one year forward; nothing else changes. |
| DateTimePicker.SelectedNewDate | Components/DateTimePicker/DateTimePicker.razor.cs:196-241 | Choosing a month name sets the month from the table, or keeps it for an unknown name; the year becomes the chooser's year; the chooser toggles; the selected date stays. |
| DateTimePicker.SelectNewYears | Components/DateTimePicker/DateTimePicker.razor.cs:243-247 | The year strip toggles and is rebuilt for the cursor's decade; the cursor, displayed month, grid and selection stay. |
| DateTimePicker.OnPrevDecadeClick | Components/DateTimePicker/DateTimePicker.razor.cs:249-253 | The cursor moves ten years back and the strip is rebuilt for its decade; the display and the strip's open flag stay. |
| DateTimePicker.OnNextDecadeClick | Components/DateTimePicker/DateTimePicker.razor.cs:255-259 | The cursor moves ten years forward and the strip is rebuilt for its decade; the display and the strip's open flag stay. |
| DateTimePicker.SetSelectingYear | Components/DateTimePicker/DateTimePicker.razor.cs:261-265 | Picking a year sets the cursor to it and toggles the strip without rebuilding it; the display stays. |
| DateTimePicker.FillDecadeArray | Components/DateTimePicker/DateTimePicker.razor.cs:324-345 | The decade starts at the truncated `selectingYear / 10 * 10` and ends nine years later; the strip is the 16-year strip around that decade; only the strip fields change. |
| DatePickerProofs.LeadingCells | Components/DateTimePicker/DateTimePicker.razor.cs:269-289 | The number of leading cells is the weekday of the 1st. They are days of the previous month, in ascending order, ending the day before the 1st. For January that month is December of year - 1. |
| DatePickerProofs.MonthCells | Components/DateTimePicker/DateTimePicker.razor.cs:291-292 | Cells k .. k + daysInMonth - 1 show days 1 .. daysInMonth in order, and exactly these cells are flagged as the current month. |
| DatePickerProofs.TrailingCells | Components/DateTimePicker/DateTimePicker.razor.cs:294-310 | Trailing cells exist and are numbered 1, 2, ... from the next month (February to November), January of year + 1 (December), or December of year - 1 (January). |
| DatePickerProofs.GridConsecutive | Components/DateTimePicker/DateTimePicker.razor.cs:267-313 | For every month but January, the 42 cells are consecutive calendar days, and cell i falls on weekday i mod 7. |
| DatePickerProofs.GridIncreasing | Components/DateTimePicker/DateTimePicker.razor.cs:267-313 | For every month but January, the dates are strictly increasing. |
| DatePickerProofs.GridDatesDistinct | Components/DateTimePicker/DateTimePicker.razor.cs:267-313 | No date appears twice in any month's grid, January included. |
| DatePickerProofs.GridSelection | Components/DateTimePicker/DateTimePicker.razor.cs:315-322 | A cell is selected exactly when its (y, m, d) equals the selected date. At most one cell is selected. A selected date in the displayed month marks its own cell. |
| DatePickerProofs.AtMostOneToday | Components/DateTimePicker/DateTimePicker.razor.cs:54 | At most one cell is flagged as today. |
| DatePickerProofs.JanuaryTrailingDiverges | Components/DateTimePicker/DateTimePicker.razor.cs:301-305 | In every January the cell after the 31st shows 1 December of the previous year, which comes before it and is not the next day. |
| DatePickerProofs.FillDaysCorrected | Components/DateTimePicker/DateTimePicker.razor.cs:294-310 | With February as January's trailing month, every grid is 42 consecutive days starting on a Sunday. For every other month it equals `FillDays`. |
| DatePickerProofs.CorrectedGridConsecutive | Components/DateTimePicker/DateTimePicker.razor.cs:294-310 | With the next month as trailing month, the grid is consecutive and Sunday-aligned for every month, January included. |
| DateTimePickerProofs.NavigationRoundTrip | Components/DateTimePicker/DateTimePicker.razor.cs:154-178 | On a consistent picker, next then previous (and previous then next) gives back the very same picker, grid included. |
| DateTimePickerProofs.NavigationCarriesYear | Components/DateTimePicker/DateTimePicker.razor.cs:156-175 | "Next" on December shows January of year + 1; "previous" on January shows December of year - 1. |
| DateTimePickerProofs.SelectByMonthName | Components/DateTimePicker/DateTimePicker.razor.cs:196-241 | Choosing the m-th month name succeeds exactly when month m of the chooser's year can be filled, and then shows month m of that year. An unknown name keeps the month. |
| DatePickerProofs.MonthNamesDistinct | Components/DateTimePicker/DateTimePicker.razor.cs:13-26 | No two months share a name. |
| DateTimePicker.OnDateSelected | Components/DateTimePicker/DateTimePicker.razor.cs:139-152 | Clicking a day sets the selected date and changes only selection flags: every cell keeps its date and month flag. On a consistent picker the result is consistent, its grid equals a rebuild with the new selection, at most one cell is selected and that cell shows the clicked day. |
| DateTimePickerProofs.SelectionSurvivesNavigation | Components/DateTimePicker/DateTimePicker.razor.cs:139-178 | After clicking a day of the displayed month, "next" then "previous" returns the same picker, and that day's cell is still selected. |
| DatePickerProofs.SelectInGridExact | Components/DateTimePicker/DateTimePicker.razor.cs:139-152 | On a grid with distinct dates whose selection marks one date, clicking a day marks exactly the cells showing that day. |
| DatePickerProofs.DecadeContainsCursor | Components/DateTimePicker/DateTimePicker.razor.cs:326-327 | For a non-negative cursor year the decade starts on a multiple of ten and contains the cursor. |
| DatePickerProofs.NegativeCursorOutsideDecade | Components/DateTimePicker/DateTimePicker.razor.cs:326 | With truncating division, a negative cursor year that is not a multiple of ten lies below its decade's start; -5 gets decade 0..9. |
| DatePickerProofs.DecadeStartCorrected | Components/DateTimePicker/DateTimePicker.razor.cs:326 | A floor-based start is a multiple of ten whose decade always contains the cursor. It agrees with the truncated start for years from 0 on. |
| DateTimePickerProofs.YearChooser | Components/DateTimePicker/DateTimePicker.razor.cs:180-194 | Opening the month chooser sets the cursor to the displayed year, and opening it twice restores the flag. The year buttons undo each other. Picking a year closes the strip, and reopening it shows that year's decade (for years from 0 on). None of these touch the displayed month, the grid or the selection. |
| DateTimePickerProofs.DecadePaging | Components/DateTimePicker/DateTimePicker.razor.cs:249-259 | Decade paging moves the cursor by exactly +10 or -10 and rebuilds the strip; the two buttons undo each other. |
| DateTimePickerProofs.DecadeOf2024 | Components/DateTimePicker/DateTimePicker.razor.cs:324-345 | Cursor year 2024 gives decade 2020..2029 and a strip of 2017..2032 with exactly the middle ten highlighted. |
| ClockFormat.GetTimeLevel | Components/VideoPlayer/VideoPlayer.razor.cs:211-225 | The level is 0..3: 0 under a minute, 1 under an hour, 2 under a day, 3 otherwise. A missing duration counts as zero. |
| ClockFormat.GetTime | Components/VideoPlayer/VideoPlayer.razor.cs:188-209 | The text splits at its colons into exactly the fields the level calls for; every field after the first shows two digits; the first shows two digits from 10 on and a single digit below 10, the one '0' the display removes. |
| ClockFormat.ReadBackGetTime | Components/VideoPlayer/VideoPlayer.razor.cs:188-209 | Reading the displayed text field by field gives the seconds, minutes, hours and days that the level calls for. Stripping one leading '0' loses nothing. |
| ClockFormat.DisplayedSeconds | Components/VideoPlayer/VideoPlayer.razor.cs:188-225 | The display shows level + 1 fields. They stand for the time modulo a minute, an hour or a day, or the whole time at level 3. |
| ClockFormat.GetTimeExamples | Components/VideoPlayer/VideoPlayer.razor.cs:188-209 | Sample displays: "5", "1:15", "1:02:05", "1:01:01:01". A missing duration shows only seconds. |
| VideoPlayer.Initial | Components/VideoPlayer/VideoPlayer.razor.cs:25-31 | A new player is painted consistently with its controls shown, holds no token beyond those issued, is not playing, knows no duration, and takes its loop flag and volume from the parameters. |
| VideoPlayer.Repaint | Components/VideoPlayer/VideoPlayer.razor.cs:58-82 | The progress bar is flat exactly when the controls hide, and the volume slider closes when they hide. Only the view changes. |
| VideoPlayer.ProgressiveDelay | Components/VideoPlayer/VideoPlayer.razor.cs:610-619 | The user is marked as interacting, so the controls show. The delay starts under a token greater than any issued before. |
| VideoPlayer.DelayExpired | Components/VideoPlayer/VideoPlayer.razor.cs:619-626 | A superseded delay changes nothing. The latest one clears the interaction mark and repaints. A delay a wheel handler waits on resumes it into a new delay. |
| VideoPlayer.StopVideo | Components/VideoPlayer/VideoPlayer.razor.cs:546-555 | Stop rewinds the time to zero and sends `stop`. |
| VideoPlayer.PlayVideo | Components/VideoPlayer/VideoPlayer.razor.cs:501-516 | Play fetches the video info first when none is known, then sends `play`. |
| VideoPlayer.PauseVideo | Components/VideoPlayer/VideoPlayer.razor.cs:518-523 | Pause sends `pause` and changes no state. |
| VideoPlayer.TimeUpdate | Components/VideoPlayer/VideoPlayer.razor.cs:388-402 | While the user drags, nothing changes. Otherwise the time is taken. At the duration the video stops and rewinds, followed by a play exactly when looping. Duration, loop flag, gestures, menu and timer are untouched. |
| VideoPlayer.NextStatus | Components/VideoPlayer/VideoPlayer.razor.cs:373-421 | The status table: loaded metadata gives Stopped, waiting gives Buffering, play and playing give Playing. A pause gives Stopped exactly at time zero and Paused otherwise. Other events keep the status. |
| VideoPlayer.OnVideoChange | Components/VideoPlayer/VideoPlayer.razor.cs:366-422 | Every event sets the playing flag to not-paused and moves the status by the table. Only time updates move the time, and only loaded metadata records the duration. Gestures, menu and timer are untouched. |
| VideoPlayer.OnProgressPress | Components/VideoPlayer/VideoPlayer.razor.cs:289-299 | Pressing the progress bar marks the user as dragging and interacting, and starts a delay. |
| VideoPlayer.OnProgressChanged | Components/VideoPlayer/VideoPlayer.razor.cs:301-326 | Seeking flags always clear. A move under a second from the previous value sends nothing and keeps the drag flag. Any other move sends `Seek` first and releases the drag. A stop is sent exactly when the pre-seek time sat at the end. |
| VideoPlayer.OnProgressMouseOut | Components/VideoPlayer/VideoPlayer.razor.cs:357-364 | During a seek nothing changes; otherwise the seek preview hides. |
| VideoPlayer.WheelStep | Components/VideoPlayer/VideoPlayer.razor.cs:575-582 | Up adds one tenth and down removes one. The volume stays in 0..10 and is unchanged only when already at the limit. |
| VideoPlayer.OnVolumeChanging | Components/VideoPlayer/VideoPlayer.razor.cs:157-166 | The new volume is stored and sent, then a delay starts. |
| VideoPlayer.OnMouseWheel | Components/VideoPlayer/VideoPlayer.razor.cs:571-588 | The volume changes, by one wheel step, only while the slider is shown. That change waits out its own delay before the handler's closing delay. Without the slider only the closing delay starts. |
| VideoPlayer.OnVolumeChanged | Components/VideoPlayer/VideoPlayer.razor.cs:168-177 | The slider closes. Releasing it at zero mutes and resets the volume to full. |
| VideoPlayer.MuteVolume | Components/VideoPlayer/VideoPlayer.razor.cs:133-142 | Mute sets the muted flag, closes the slider and tells the script. |
| VideoPlayer.OnVolumeButtonClick | Components/VideoPlayer/VideoPlayer.razor.cs:144-155 | On a muted player the button unmutes it and tells the script. Otherwise it toggles the slider and sends nothing. |
| VideoPlayer.ResetSettingsMenu | Components/VideoPlayer/VideoPlayer.razor.cs:252-257 | All three sub-panels close, so the main menu shows. The side bar stays as it was. |
| VideoPlayer.MoreButtonInfo | Components/VideoPlayer/VideoPlayer.razor.cs:259-263 | The "more" button toggles the side bar, which opens on its main menu. |
| VideoPlayer.ShowVideoInfo | Components/VideoPlayer/VideoPlayer.razor.cs:265-268 | The info panel opens, leaving the main menu. |
| VideoPlayer.ShowVideoPlaybackSpeedOptions | Components/VideoPlayer/VideoPlayer.razor.cs:270-273 | The speed panel opens, leaving the main menu. |
| VideoPlayer.ShowVideoLoop | Components/VideoPlayer/VideoPlayer.razor.cs:275-278 | The loop panel opens, leaving the main menu. |
| VideoPlayer.ChangeLoop | Components/VideoPlayer/VideoPlayer.razor.cs:280-285 | Looping flips and the loop panel closes. |
| VideoPlayer.ChangePlaybackSpeed | Components/VideoPlayer/VideoPlayer.razor.cs:241-250 | The speed is stored and sent, and the speed panel closes. |
| VideoPlayer.OnEmptyTouch | Components/VideoPlayer/VideoPlayer.razor.cs:439-449 | A touch is remembered. On a playing video with visible controls it drops the interaction mark and forces hiding. A playing video that nobody drags, with the side bar closed, ends up hidden. |
| VideoPlayer.OnEmptyClick | Components/VideoPlayer/VideoPlayer.razor.cs:451-472 | With the side bar open, a click closes it (main menu) or returns to the main menu (sub-panel), sending nothing. After a touch it is swallowed. Otherwise it pauses exactly when playing and plays exactly when not. |
| VideoPlayer.OnComponentClick | Components/VideoPlayer/VideoPlayer.razor.cs:590-600 | The click after a hiding touch is swallowed; any other click starts a delay. |
| VideoPlayer.MainMouseMove | Components/VideoPlayer/VideoPlayer.razor.cs:602-608 | Moving the mouse starts a delay, unless a touch forced the controls hidden. |
| VideoPlayer.OnFullScreenChange | Components/VideoPlayer/VideoPlayer.razor.cs:539-544 | The full-screen flag flips and the view is repainted. |
| VideoPlayer.Step | Components/VideoPlayer/VideoPlayer.razor.cs:610-617 | No input moves the token counter back. |
| VideoPlayerProofs.StepDelaysFresh | Components/VideoPlayer/VideoPlayer.razor.cs:610-617 | One input never moves the token counter back, and any delay it starts gets a token above all earlier ones. |
| VideoPlayerProofs.RunDelaysFresh | Components/VideoPlayer/VideoPlayer.razor.cs:610-617 | Over any run of inputs, delays start under strictly increasing tokens, all above those issued before the run. So a token names one delay, as a fresh `Guid` does. |
| VideoPlayerProofs.StepKeepsTokensIssued | Components/VideoPlayer/VideoPlayer.razor.cs:610-617 | Every input keeps the live token, and those a wheel handler waits on, among the issued ones. |
| VideoPlayerProofs.RunKeepsTokensIssued | Components/VideoPlayer/VideoPlayer.razor.cs:610-617 | The same holds over any run of inputs. |
| VideoPlayerProofs.FreshPlayerRuns | Components/VideoPlayer/VideoPlayer.razor.cs:25-31 | From a new player, over any run, every token held was issued and delays start under increasing tokens. |
| VideoPlayerProofs.StatusOnlyFromMediaEvents | Components/VideoPlayer/VideoPlayer.razor.cs:366-422 | No gesture or method call changes the status or the playing flag; only media events do. |
| VideoPlayerProofs.InteractionShowsControls | Components/VideoPlayer/VideoPlayer.razor.cs:58 | A progress press, wheel turn, volume drag, click or mouse move leaves `HideControls` false, the view painted, and a delay started last; a click or move after a hiding touch sends nothing. |
| VideoPlayerProofs.RepaintIdempotent | Components/VideoPlayer/VideoPlayer.razor.cs:60-82 | Repainting twice is repainting once. |
| VideoPlayerProofs.SupersededDelay | Components/VideoPlayer/VideoPlayer.razor.cs:610-626 | After two gestures, the end of the first delay changes nothing and the controls stay shown. Only the end of the second clears the interaction mark. |
| VideoPlayerProofs.LastDelayHides | Components/VideoPlayer/VideoPlayer.razor.cs:619-626 | When the last delay ends on a playing video that nobody drags, with the side bar closed, the controls hide: flat bar, slider closed. |
| VideoPlayerProofs.WheelHoldsControlsForTwoDelays | Components/VideoPlayer/VideoPlayer.razor.cs:571-588 | With the slider open, a wheel notch keeps the controls up through two delays. The end of the first starts the second, and only the end of the second clears the mark. |
| VideoPlayerProofs.EndOfVideo | Components/VideoPlayer/VideoPlayer.razor.cs:388-402 | A time update at the duration stops and rewinds the video. It plays again exactly when looping, and the status is untouched. |
| VideoPlayerProofs.DraggingFreezesTime | Components/VideoPlayer/VideoPlayer.razor.cs:388-391 | While the user drags, a time update changes only the playing flag and sends nothing. |
| VideoPlayerProofs.PauseStatus | Components/VideoPlayer/VideoPlayer.razor.cs:416-417 | A pause at time 0 gives Stopped; a pause at time 5 gives Paused. |
| VideoPlayerProofs.SeekDeadBand | Components/VideoPlayer/VideoPlayer.razor.cs:307-318 | Moves of 0.5 and 0.8 seconds send nothing. A one-second move sends `Seek` without a stop. A seek with no previous value is always sent. |
| VideoPlayerProofs.SeekFromEndStops | Components/VideoPlayer/VideoPlayer.razor.cs:322-323 | A committed seek from a video sitting at its end also sends a stop. |
| VideoPlayerProofs.WheelStepsSaturate | Components/VideoPlayer/VideoPlayer.razor.cs:575-582 | n notches move the volume by n tenths, saturating at full volume going up and at silence going down. |
| VideoPlayerProofs.WheelRoundTrip | Components/VideoPlayer/VideoPlayer.razor.cs:575-582 | A notch down undoes an unsaturated notch up, and the other way round. |
| VideoPlayerProofs.WheelNeedsSlider | Components/VideoPlayer/VideoPlayer.razor.cs:571-588 | With the slider closed, the wheel neither changes nor sends a volume. |
| VideoPlayerProofs.ReleaseAtZeroThenUnmute | Components/VideoPlayer/VideoPlayer.razor.cs:144-177 | Releasing the slider at zero mutes the player. The next button click unmutes it at full volume and tells the script. |
| VideoPlayerProofs.MoreButtonTwice | Components/VideoPlayer/VideoPlayer.razor.cs:252-263 | Pressing "more" twice leaves the side bar as it was, on its main menu. |
| VideoPlayerProofs.ChangeLoopTwice | Components/VideoPlayer/VideoPlayer.razor.cs:280-285 | Toggling looping twice restores it, with the loop panel shut. |
| VideoPlayerProofs.EmptyClickWithSideBar | Components/VideoPlayer/VideoPlayer.razor.cs:451-460 | With the side bar open, a click on the video never plays or pauses. Two clicks from a sub-panel return to the main menu, then close the side bar. |

## Left out

- `DateTimePickerDate.Classes`, `DecadeYears.Classes`, `ClassAttributes`, `FullDate` and the other display strings: markup and culture-dependent formatting, no logic.
- `WeekDaysNames`: a display table.
- `OnProgressChanging`: the seek preview while the progress bar is dragged. It sets `IsSeeking` and `ShowSeekingInfo`, repaints, stores the bar's value as `SeekInfoTime` and reads the duration (VideoPlayer.razor.cs:328-337); the preview time is display only and the handler is not an input of the model.
- `OnProgressMouseMove`: the preview time it shows comes back from the media script's `seeking` call, which the model cannot see.
- The seeking flags: with those two handlers left out, no input sets `gesture.isSeeking` or `gesture.showSeekingInfo` to true. So the `isSeeking` guard of `OnProgressMouseOut` never fires in a run, and the flag clearing in `OnProgressChanged` only restates what holds already.
- DateTimePicker.OnNextClick, DateTimePicker.OnPrevClick, DateTimePicker.SelectedNewDate: when `FillDaysArray` throws, the component has already moved `SelectedMonth`/`SelectedYear` (and, in `SelectedNewDate`, toggled the chooser and set the year from `SelectingYear`), so it keeps the moved header over the stale `Days` (after "next" on December 9999 it shows January 10000). The model returns `Err(ArgumentOutOfRange)` and drops that partly updated state.
- DateTimePicker.OnPrevYearClick, DateTimePicker.OnNextYearClick, DateTimePicker.OnPrevDecadeClick, DateTimePicker.OnNextDecadeClick, DateTimePicker.OnNextClick, DateTimePicker.OnPrevClick: years are unbounded integers, so the 32-bit `int` wrap-around of `SelectingYear ± 1`, `SelectingYear ± 10` and `SelectedYear++/--` is not modelled; reaching it takes hundreds of millions of presses, and any year past 9999 already makes the next grid rebuild fail.
- The `LoadedMetadata` polling loop: it retries an external call with no bound. The event instead carries the duration the info request finally returns, and the status becomes Stopped.
- `OnAfterRenderAsync`, `Implement`, `DisposeAsync`, `Module`: script-module plumbing and handler registration.
- JSON decoding of event payloads in `OnVideoChange`: the decoded event and paused flag are inputs.
- `TimeUpdate`/`EventFired` callbacks, `VideoSettingsInfo`, `DisplayTimeDuration`, `DisplayVolume`: notifications and display only.
- `OnParametersSet`: only calls the base class.
- Interleaving at awaits other than the auto-hide delay: each handler runs as one step up to its delay. The script calls it awaits are treated as returning at once.
- VideoPlayer.OnVolumeChanging: slider values are whole tenths, not arbitrary doubles in [0, 1].
- VideoPlayer.WheelStep: tenths are exact, so the double arithmetic and `Math.Round(newValue, 1)` of the source are not reproduced.
- ClockFormat.GetTime: whole seconds only; the fractional part a `TimeSpan` would truncate is not modelled.
- VideoPlayer.PlayVideo: `getVideoInfo` may return no info; `fetched` is then `None` and play is still sent, as in the source.
- `DisplayPlaybackSpeed`: the lookup would throw for a speed outside the option table. It is display only, so `ChangePlaybackSpeed` takes any speed.

## Findings

| source | as written | input that shows it | evidently intended | confidence | as-written member | corrected member |
|---|---|---|---|---|---|---|
| Components/DateTimePicker/DateTimePicker.razor.cs:301-305 | For January the trailing cells are days 1, 2, ... of December of `SelectedYear - 1` | January 2024: the cell after 31 January 2024 shows 1 December 2023 | Trailing days of February of the same year, so the 42 cells are consecutive | high, not executed | DatePickerProofs.JanuaryTrailingDiverges | DatePickerProofs.FillDaysCorrected |

The handlers of `DateTimePicker` keep the grid as written, so that they
describe the component as it ships. `DatePickerProofs.FillDaysCorrected`
is the corrected grid. It is proved consecutive and Sunday-aligned for
every month, and equal to the as-written grid for every month but January.
So every handler property holds for it unchanged, except the January
trailing cells.
