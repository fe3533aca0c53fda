# Wage-Labor-Record time tracker: a Dafny model of its core

Wage-Labor-Record is a GTK tray application that records worked time. One
tracking state holds an optional start time, a task and a client. Four
application actions act on that state: Start, SetCurrentTask, Stop and Abort.
Each action enables itself from the state. Stop emits a worked time, which the
application appends to a worked-time store. The history window then sums the
stored times per task, formats the totals as `HH:MM[:SS]` and filters them by
a time window and by task and client. The tray icon shows the state and offers
the five most recent (task, client) pairs.

This project models that core in Dafny:

- `TrackingStates`: the tracking state, its JSON state file and the save on
  every change notification (`tracking_state.py`).
- `Actions`: the four actions as a specification function `Handle`, their
  enabled predicates, runs of activations, and methods on the state class
  proved against `Handle` (`actions.py`).
- `TrackedTimeStore`: the list-backed store (`tracked_time_store.py`).
  `SortedStore`: the sorted `Gtk.ListStore` store (`worked_time_store.py`).
  Both stores share the scan of `Distinct`, which yields the most recent
  distinct pairs.
- `SummaryView`: per-task aggregation and duration text (`summary_view.py`).
- `WorkedTimesListView`: how much of each time the list shows
  (`worked_times_list_view.py`).
- `DatetimePicker`: the calendar and spin-button picker, including its
  re-entrant hour and minute carries (`datetime_picker.py`).
- `SelectorWidget`: the time, task and client selections
  (`selector_widget.py`).
- `TrayIcon`: the tooltip, left-click, icon and menu rules
  (`time_tracker_tray_icon.py`).
- `SimpleTimeTracker`: the older single-file tracker, whose state marks
  "not tracking" with a start time of -1 (`simple_time_tracker.py`).
- `Calendar`, `Text` and `Options` are the shared helpers: proleptic Gregorian
  dates from year 1 to 9999, decimal text, and the option type.

Conventions:

- Time is whole seconds since an arbitrary epoch, and the clock is a `now`
  parameter.
- A local date-time is a `Calendar.LocalDateTime` value.
- ISO 8601 text is replaced by a signed decimal text (`Text.TimestampText`).
  The JSON round trips therefore keep their content without modelling the ISO
  format itself.
- Signals that the source emits are recorded in a log field, such as
  `DatetimePicker.emitted` or `SelectorWidget.selectionChanges`, or returned
  as out-parameters.

The picker's hour carry selects the new day before the new month. The
intermediate `day-selected` emission therefore pairs the new day with the old
month. On 1 April, going back one hour emits "31 April" first, which GLib
rejects, so that emission carries None. The list view's handler
(`worked_times_list_view.py:55`) writes every emission into the item's start
time, and the final emission carries the right date.
`DatetimePicker.TransientPreviousDay` states when that intermediate value is
None. `DatetimePicker.DatetimePicker.OnHourChanged` states that the last
emission is the settled, correct time.

## Model

| member | source | states |
|---|---|---|
| TrackingStates.ElapsedTime | src/wage_labor_record/tracking_state.py:43-46 | zero while idle; otherwise start + elapsed = now |
| TrackingStates.SnapshotOf | src/wage_labor_record/tracking_state.py:29-35 | the saved start time is null exactly when not tracking; the labels are saved as they are |
| TrackingStates.LoadStart | src/wage_labor_record/tracking_state.py:25 | a null or empty stored start time loads as no start time |
| TrackingStates.Restore | src/wage_labor_record/tracking_state.py:24-27 | loading keeps the stored task and client |
| TrackingStates.SnapshotRoundTrip | src/wage_labor_record/tracking_state.py:21-35 | loading what `_save` wrote restores the same state |
| TrackingStates.TrackingState.constructor | src/wage_labor_record/tracking_state.py:15-27 | defaults without a file, the file's state with one; loading writes nothing |
| TrackingStates.TrackingState.SetStart | src/wage_labor_record/tracking_state.py:11-35 | changes only the start time, and the file then holds the new state |
| TrackingStates.TrackingState.SetTask | src/wage_labor_record/tracking_state.py:12-35 | changes only the task, and the file then holds the new state |
| TrackingStates.TrackingState.SetClient | src/wage_labor_record/tracking_state.py:13-35 | changes only the client, and the file then holds the new state |
| Actions.EnabledComplements | src/wage_labor_record/actions.py:29-114 | exactly one of Start and Abort is enabled, exactly one of SetCurrentTask and Stop, and Stop implies Abort |
| Actions.Handle | src/wage_labor_record/actions.py:24-110 | only Stop emits; tracking afterwards iff Start or SetCurrentTask; only SetCurrentTask changes the labels; the start becomes None, now, or stays |
| Actions.StopRecordsElapsed | src/wage_labor_record/actions.py:47-60 | the emitted duration is the elapsed time at `now`, and the labels are kept |
| Actions.SetCurrentTaskKeepsRunningStart | src/wage_labor_record/actions.py:84-89 | relabelling a running interval keeps its start; an idle one starts now |
| Actions.Dispatch | src/wage_labor_record/actions.py:29-114 | a disabled action leaves the state unchanged and emits nothing; an enabled one runs its handler |
| Actions.DispatchStep | src/wage_labor_record/actions.py:16-118 | one activation of a run is a Dispatch |
| Actions.RunChronological | src/wage_labor_record/actions.py:47-110 | with a non-decreasing clock, the recorded intervals never end before they start and follow each other in time |
| Actions.AbortsRecordNothing | src/wage_labor_record/actions.py:24-25 | aborts record nothing and keep both labels |
| Actions.HandleAsWritten | src/wage_labor_record/actions.py:25-110 | as written, no handler changes the start time, and nothing is emitted |
| Actions.AsWrittenTrackingFrozen | src/wage_labor_record/actions.py:16-118 | as written, no run of activations changes tracking or records a worked time |
| Actions.StartStopExample | src/wage_labor_record/actions.py:47-110 | Start then Stop records one interval as intended and none as written |
| Actions.StartTracking | src/wage_labor_record/actions.py:109-110 | the new state is Handle's, and it is saved (corrected behaviour, see Findings) |
| Actions.SetCurrentTaskTracking | src/wage_labor_record/actions.py:84-89 | the new state is Handle's, and it is saved (corrected behaviour, see Findings) |
| Actions.StopTracking | src/wage_labor_record/actions.py:47-60 | the worked time and the new state are Handle's, and the state is saved (corrected behaviour, see Findings) |
| Actions.AbortTracking | src/wage_labor_record/actions.py:24-25 | the new state is Handle's, and it is saved (corrected behaviour, see Findings) |
| Actions.Activate | src/wage_labor_record/actions.py:16-118 | the outcome is Dispatch's; an enabled action leaves the new state saved, a disabled one changes nothing (corrected behaviour, see Findings) |
| TrackedTimeStore.AsDictRoundTrip | src/wage_labor_record/tracked_time_store.py:18-28 | `asdict` followed by `__post_init__` gives back the same worked time |
| TrackedTimeStore.SaveTimes | src/wage_labor_record/tracked_time_store.py:42-44 | one dictionary per worked time, in order |
| TrackedTimeStore.ParsedPrefixStops | src/wage_labor_record/tracked_time_store.py:39 | the records parsed, in order, up to the first entry that fails to parse, which is then the next entry |
| TrackedTimeStore.LoadTimes | src/wage_labor_record/tracked_time_store.py:37-40 | a successful load holds, in order, the record each entry parses to; the load fails exactly when some entry does not parse |
| TrackedTimeStore.LoadedPrefixOfLoad | src/wage_labor_record/tracked_time_store.py:37-40 | a load succeeds exactly when it gets through every entry, and then holds the records it parsed |
| TrackedTimeStore.SaveLoadRoundTrip | src/wage_labor_record/tracked_time_store.py:37-44 | loading what `save` wrote gives back the same list in the same order |
| TrackedTimeStore.ClientsOf | src/wage_labor_record/tracked_time_store.py:53-54 | exactly the clients of the stored worked times |
| TrackedTimeStore.TasksOf | src/wage_labor_record/tracked_time_store.py:56-57 | exactly the tasks of the stored worked times |
| TrackedTimeStore.LabelsOfAppend | src/wage_labor_record/tracked_time_store.py:46-57 | appending adds exactly the new client and task to the label sets |
| TrackedTimeStore.PairsOf | src/wage_labor_record/tracked_time_store.py:69 | the (task, client) pair of each record, in order |
| TrackedTimeStore.WorkedTimeStore.constructor | src/wage_labor_record/tracked_time_store.py:32-40 | the store holds what the file held; nothing is written |
| TrackedTimeStore.WorkedTimeStore.AddWorkedTime | src/wage_labor_record/tracked_time_store.py:46-48 | appends the worked time, saves the whole list and extends the label sets by its labels |
| TrackedTimeStore.WorkedTimeStore.MostRecentWorkedTasksAndClients | src/wage_labor_record/tracked_time_store.py:59-74 | the first distinct pairs scanning from the newest record |
| TrackedTimeStore.RecentByLatestInsertion | src/wage_labor_record/tracked_time_store.py:59-74 | pairs come out by descending latest insertion |
| TrackedTimeStore.RecentExample | src/wage_labor_record/tracked_time_store.py:59-74 | a concrete history with a repeated pair yields (C,Z) then (A,X) |
| Distinct.Dedup | src/wage_labor_record/tracked_time_store.py:67-72 | distinct, and holds exactly the scanned elements |
| Distinct.FirstDistinct | src/wage_labor_record/tracked_time_store.py:67-74 | the loop with its seen-set and early break yields MostRecent |
| Distinct.StoppedScan | src/wage_labor_record/tracked_time_store.py:73-74 | where the scan breaks it has yielded exactly MostRecent |
| Distinct.MostRecentDistinct | src/wage_labor_record/tracked_time_store.py:62 | no pair is yielded twice |
| Distinct.MostRecentMembers | src/wage_labor_record/tracked_time_store.py:68-72 | every yielded pair was scanned |
| Distinct.MostRecentSize | src/wage_labor_record/tracked_time_store.py:64-74 | at most n for n >= 1; one for n <= 0 on a non-empty scan; none on an empty one |
| Distinct.MostRecentComplete | src/wage_labor_record/tracked_time_store.py:64-74 | fewer than n yielded means every pair was yielded |
| Distinct.MostRecentOrder | src/wage_labor_record/tracked_time_store.py:68-72 | yielded pairs follow their first occurrence in the scan |
| Distinct.MostRecentSkipsOnlyLater | src/wage_labor_record/tracked_time_store.py:61-74 | a pair not yielded first occurs after every yielded one |
| Distinct.DedupPrefix | src/wage_labor_record/tracked_time_store.py:67-72 | what a shorter scan yields is a prefix of what a longer one yields |
| Distinct.DedupSnoc | src/wage_labor_record/tracked_time_store.py:70-72 | one more element is yielded iff it was not seen |
| Distinct.DedupOrder | src/wage_labor_record/tracked_time_store.py:68-72 | distinct elements come in order of first occurrence |
| Distinct.ReverseFirstIndex | src/wage_labor_record/tracked_time_store.py:68 | the first place in the reversed list is the last place in the list |
| Distinct.MostRecentHead | src/wage_labor_record/tracked_time_store.py:67-74 | on a non-empty scan the first pair yielded is the first pair scanned, whatever n is |
| SortedStore.RowsOf | src/wage_labor_record/worked_time_store.py:69-72 | one row per worked time, with columns task, client, start, end |
| SortedStore.WorkedTimesOf | src/wage_labor_record/worked_time_store.py:75-82 | one worked time per row, in row order |
| SortedStore.RowRoundTrip | src/wage_labor_record/worked_time_store.py:69-82 | a worked time stored as a row reads back unchanged |
| SortedStore.RowPairs | src/wage_labor_record/worked_time_store.py:103-104 | the (task, client) pair of each row, in row order |
| SortedStore.LaterRowsEarlier | src/wage_labor_record/worked_time_store.py:49-55 | in the descending model, every row after an earlier-starting row also starts earlier |
| SortedStore.InsertSorted | src/wage_labor_record/worked_time_store.py:49-72 | placing a row between the later and the earlier starts keeps the model sorted |
| SortedStore.InsertPosition | src/wage_labor_record/worked_time_store.py:49-72 | the place after every row starting no earlier and before the first row starting earlier |
| SortedStore.InsertAt | src/wage_labor_record/worked_time_store.py:49-72 | inserting there keeps the model sorted and adds exactly the one row |
| SortedStore.WorkedTimeStore.constructor | src/wage_labor_record/worked_time_store.py:45-63 | a sorted model holding exactly the records parsed before the end or the first bad entry; the file is rewritten once one is added, so a failing load leaves it holding only the earlier records |
| SortedStore.WorkedTimeStore.AddAll | src/wage_labor_record/worked_time_store.py:59-63 | adding the loaded records one by one keeps the model sorted and adds exactly those records |
| SortedStore.WorkedTimeStore.AddWorkedTime | src/wage_labor_record/worked_time_store.py:69-73 | the row lands at its sorted place, the rows gain exactly it, and the file holds them all |
| SortedStore.WorkedTimeStore.WorkedTimes | src/wage_labor_record/worked_time_store.py:75-82 | one record per row, and the start times never increase |
| SortedStore.WorkedTimeStore.MostRecentWorkedTasksAndClients | src/wage_labor_record/worked_time_store.py:94-109 | the first distinct pairs in row order |
| SortedStore.LatestStartIsLatest | src/wage_labor_record/worked_time_store.py:49-55 | in the sorted model a pair's first row carries its latest start |
| SortedStore.RecentByLatestStart | src/wage_labor_record/worked_time_store.py:94-109 | pairs come out by descending latest start time |
| SummaryView.Hms | src/wage_labor_record/history_view/summary_view.py:92-93 | hours*3600 + minutes*60 + seconds = input, with minutes and seconds in 0..59 |
| SummaryView.Pad2NonNegative | src/wage_labor_record/history_view/summary_view.py:95 | `:02` gives at least two digits that read back as the number |
| SummaryView.DurationTextRoundTrip | src/wage_labor_record/history_view/summary_view.py:90-95 | for a non-negative duration, ParseDuration reads the `HH:MM:SS` text back as the same number of seconds |
| SummaryView.ParseDuration | src/wage_labor_record/history_view/summary_view.py:90-95 | a parsed `HH:MM:SS` text is never a negative number of seconds |
| SummaryView.NoSecondsDropsLastField | src/wage_labor_record/history_view/summary_view.py:94-97 | without seconds the text is the full text minus its trailing ":SS" |
| SummaryView.Tasks | src/wage_labor_record/history_view/summary_view.py:49-50 | the task of each worked time, in input order |
| SummaryView.AbsentTaskTotal | src/wage_labor_record/history_view/summary_view.py:48-51 | a task that never occurs totals zero |
| SummaryView.SumTotalsSnoc | src/wage_labor_record/history_view/summary_view.py:49-51 | one more item adds its duration to exactly its own task's total |
| SummaryView.GrandTotal | src/wage_labor_record/history_view/summary_view.py:63 | the sum of the per-task totals is the sum of all durations |
| SummaryView.SummaryView.constructor | src/wage_labor_record/history_view/summary_view.py:22 | no rows, empty clipboard text, a zero total |
| SummaryView.SummaryView.SetWorkedTimesList | src/wage_labor_record/history_view/summary_view.py:46-75 | the table rows, the clipboard text and the total markup are those of the input |
| SummaryView.Summarize | src/wage_labor_record/history_view/summary_view.py:46-63 | the dict loop, the ListStore loop and the clipboard join together produce Rows and Lines of the input, and the markup shows the grand total |
| SummaryView.Running | src/wage_labor_record/history_view/summary_view.py:65-67 | the running total is present exactly when asked for and tracking, and exceeds the total by the time since the start |
| SummaryView.AggregatedTotals | src/wage_labor_record/history_view/summary_view.py:48-51 | after the loop every task's entry is its total |
| SummaryView.Aggregate | src/wage_labor_record/history_view/summary_view.py:48-51 | the loop builds the first-seen task order and each task's total |
| SummaryView.TableRows | src/wage_labor_record/history_view/summary_view.py:57-59 | the ListStore loop appends, for each key of the dict in order, the task and its formatted total (DictRows) |
| SummaryView.RowsOfTotals | src/wage_labor_record/history_view/summary_view.py:48-59 | the rows built from the aggregated dict are Rows of the input: one per task in order of first appearance with that task's summed durations |
| SummaryView.LinesOfTotals | src/wage_labor_record/history_view/summary_view.py:48-54 | the clipboard lines built from the aggregated dict are Lines of the input |
| SummaryView.SumOfTotals | src/wage_labor_record/history_view/summary_view.py:63 | summing the dictionary's values gives the sum of all durations |
| SummaryView.TaskOrderSnoc | src/wage_labor_record/history_view/summary_view.py:49-50 | `setdefault` enters a task as a new last key exactly when it has not been seen before |
| SummaryView.TaskTotalSnoc | src/wage_labor_record/history_view/summary_view.py:51 | one more worked time adds its duration to its own task's total and to no other |
| SummaryView.StepTotal | src/wage_labor_record/history_view/summary_view.py:49-51 | after `setdefault` and `+=`, every key holds its task's total over the items seen so far |
| SummaryView.AggregateStep | src/wage_labor_record/history_view/summary_view.py:48-51 | one loop pass keeps the dict aggregated over the items seen so far |
| SummaryView.Rows | src/wage_labor_record/history_view/summary_view.py:57-59 | one table row per distinct task |
| SummaryView.Lines | src/wage_labor_record/history_view/summary_view.py:54 | one clipboard line per distinct task |
| SummaryView.RowsByFirstAppearance | src/wage_labor_record/history_view/summary_view.py:48-59 | every task has a row, no task has two, and rows follow first appearance |
| SummaryView.LineEnding | src/wage_labor_record/history_view/summary_view.py:54 | a line is "task, " followed by the HH:MM:SS total |
| SummaryView.ClipboardEnding | src/wage_labor_record/history_view/summary_view.py:54 | the clipboard text has no trailing newline |
| WorkedTimesListView.OneValue | src/wage_labor_record/history_view/worked_times_list_view.py:23-25 | a set of values has size one iff the list is non-empty and constant |
| WorkedTimesListView.StartYears | src/wage_labor_record/history_view/worked_times_list_view.py:23 | each item's start year, in order |
| WorkedTimesListView.StartMonths | src/wage_labor_record/history_view/worked_times_list_view.py:24 | each item's start month, in order |
| WorkedTimesListView.StartDays | src/wage_labor_record/history_view/worked_times_list_view.py:25 | each item's start day of month, in order |
| WorkedTimesListView.PatternEndsWithTime | src/wage_labor_record/history_view/worked_times_list_view.py:73-95 | every pattern ends with the hour and minute |
| WorkedTimesListView.EndPatternByDate | src/wage_labor_record/history_view/worked_times_list_view.py:83-95 | the end pattern drops exactly the date fields the end shares with its start |
| WorkedTimesListView.WorkedTimesListView.constructor | src/wage_labor_record/history_view/worked_times_list_view.py:18-20 | all three flags false |
| WorkedTimesListView.WorkedTimesListView.SetWorkedTimesList | src/wage_labor_record/history_view/worked_times_list_view.py:22-25 | each flag is its one-distinct-value test, and each requires the one before |
| WorkedTimesListView.WorkedTimesListView.StartPattern | src/wage_labor_record/history_view/worked_times_list_view.py:73-81 | each pattern is chosen exactly when its flag is the most specific one set |
| WorkedTimesListView.FlagsMeaning | src/wage_labor_record/history_view/worked_times_list_view.py:22-25 | the flags hold iff all items share the first item's year, year and month, or date; an empty list sets none |
| Calendar.NextDay | src/wage_labor_record/history_view/datetime_picker.py:66 | a later valid date; None only on 9999-12-31 |
| Calendar.PrevDay | src/wage_labor_record/history_view/datetime_picker.py:72 | an earlier valid date; None only on 0001-01-01 |
| Calendar.NextPrevInverse | src/wage_labor_record/history_view/datetime_picker.py:66-72 | adding and removing a day undo each other |
| Calendar.NextDayNumber | src/wage_labor_record/history_view/datetime_picker.py:66 | the next day's day number is one more |
| Calendar.PrevDayNumber | src/wage_labor_record/history_view/datetime_picker.py:72 | the previous day's day number is one less |
| Calendar.DayNumberOrder | src/wage_labor_record/history_view/datetime_picker.py:66-72 | day numbers order dates as the calendar does |
| Calendar.NextDayIsSuccessor | src/wage_labor_record/history_view/datetime_picker.py:66 | no date lies strictly between a day and the next |
| Calendar.Weekday | src/wage_labor_record/history_view/selector_widget.py:51 | a weekday number from 1 (Monday) to 7 |
| Calendar.NextDayWeekday | src/wage_labor_record/history_view/selector_widget.py:51 | weekdays advance by one each day, wrapping after Sunday |
| Calendar.WeekdayOfSuccessor | src/wage_labor_record/history_view/selector_widget.py:51 | the day numbered one higher has the next weekday, Sunday wrapping to Monday |
| Calendar.DaysEarlier | src/wage_labor_record/history_view/selector_widget.py:51 | a valid date when there is one |
| Calendar.DaysEarlierNumber | src/wage_labor_record/history_view/selector_widget.py:51 | going back k days lowers the day number by k |
| Calendar.FirstOfPreviousMonth | src/wage_labor_record/history_view/selector_widget.py:63 | a first of month; None only in January of year 1 |
| Calendar.FirstOfPreviousMonthSpan | src/wage_labor_record/history_view/selector_widget.py:62-64 | the previous first of month lies exactly that month's length earlier |
| Calendar.MonthSpan | src/wage_labor_record/history_view/selector_widget.py:62-64 | the first of the next month lies that month's length after the first of a month |
| Calendar.DecemberSpan | src/wage_labor_record/history_view/selector_widget.py:62-64 | the first of January lies 31 days after the first of the previous December |
| DatetimePicker.NewLocal | src/wage_labor_record/history_view/datetime_picker.py:81 | a value iff the fields form a valid local time, with second zero |
| DatetimePicker.Clamp | src/wage_labor_record/history_view/datetime_picker.py:33-44 | a spin button value lies in its range and keeps values already in it |
| DatetimePicker.SettledInRange | src/wage_labor_record/history_view/datetime_picker.py:77-81 | a valid picker time is an instant the picker can represent |
| DatetimePicker.NextDayInstant | src/wage_labor_record/history_view/datetime_picker.py:63-68 | hour 24 of a day is hour 0 of the next; on the last day it leaves the range |
| DatetimePicker.PrevDayInstant | src/wage_labor_record/history_view/datetime_picker.py:69-74 | hour -1 of a day is hour 23 of the previous; on the first day it leaves the range |
| DatetimePicker.TransientPreviousDay | src/wage_labor_record/history_view/datetime_picker.py:69-74 | the intermediate day-selected value is None iff the day is the 1st and the previous day does not exist in the current month |
| DatetimePicker.DatetimePicker.constructor | src/wage_labor_record/history_view/datetime_picker.py:12-48 | the picker shows the initial time with second zero and has emitted nothing |
| DatetimePicker.DatetimePicker.EmitChangeSignal | src/wage_labor_record/history_view/datetime_picker.py:77-81 | emits the current fields as a local time, or None |
| DatetimePicker.DatetimePicker.SelectDay | src/wage_labor_record/history_view/datetime_picker.py:67-73 | sets the day and emits day-selected |
| DatetimePicker.DatetimePicker.SelectMonth | src/wage_labor_record/history_view/datetime_picker.py:68-74 | sets month and year and emits nothing |
| DatetimePicker.DatetimePicker.SetHourValue | src/wage_labor_record/history_view/datetime_picker.py:33-37 | clamps; an unchanged value emits nothing; a new in-day value emits exactly it; the instant is kept |
| DatetimePicker.DatetimePicker.OnHourChanged | src/wage_labor_record/history_view/datetime_picker.py:61-75 | an in-day hour emits once; a carry moves to the neighbouring day and the last emission is the settled time, at the same instant |
| DatetimePicker.DatetimePicker.HourPastMidnight | src/wage_labor_record/history_view/datetime_picker.py:63-68 | hour 24 moves the calendar to the next day and the hour to 0, keeping the instant and ending on an emission of it |
| DatetimePicker.DatetimePicker.HourBeforeMidnight | src/wage_labor_record/history_view/datetime_picker.py:69-74 | hour -1 moves the calendar to the previous day and the hour to 23, keeping the instant and ending on an emission of it |
| DatetimePicker.DatetimePicker.CarryIntoNextDay | src/wage_labor_record/history_view/datetime_picker.py:63-68 | hour 0 of the next day, with the intermediate emissions; overflow at the last day |
| DatetimePicker.DatetimePicker.CarryIntoPreviousDay | src/wage_labor_record/history_view/datetime_picker.py:69-74 | hour 23 of the previous day, with the intermediate emissions; overflow at the first day |
| DatetimePicker.DatetimePicker.SetMinuteValue | src/wage_labor_record/history_view/datetime_picker.py:44-48 | clamps; an unchanged value emits nothing; a new in-hour value emits exactly it |
| DatetimePicker.DatetimePicker.OnMinuteChanged | src/wage_labor_record/history_view/datetime_picker.py:51-59 | 60 becomes 0 of the next hour and -1 becomes 59 of the previous one; the last emission is the settled time, at the same instant |
| SelectorWidget.WindowBounds | src/wage_labor_record/history_view/selector_widget.py:39-66 | only "Last Month" sets an end, and every bound is a valid local time |
| SelectorWidget.MidnightStarts | src/wage_labor_record/history_view/selector_widget.py:43-59 | "Today" and "This Month" start at midnight of today and of the first of the month |
| SelectorWidget.ThisWeekStartsOnMonday | src/wage_labor_record/history_view/selector_widget.py:49-53 | "This Week" starts on a Monday at most six days back, at the current time of day |
| SelectorWidget.LastMonthIsPreviousMonth | src/wage_labor_record/history_view/selector_widget.py:61-66 | "Last Month" spans exactly the previous month; only January of year 1 has no start |
| SelectorWidget.SelectionToSet | src/wage_labor_record/history_view/selector_widget.py:86-111 | None iff nothing is selected, otherwise exactly the selected names |
| SelectorWidget.SelectorWidget.constructor | src/wage_labor_record/history_view/selector_widget.py:19-22 | nothing is selected |
| SelectorWidget.SelectorWidget.OnTimeSelectorChanged | src/wage_labor_record/history_view/selector_widget.py:39-69 | a selected row sets both bounds to its window and emits once; no row changes nothing |
| SelectorWidget.SelectorWidget.OnTaskSelectorChanged | src/wage_labor_record/history_view/selector_widget.py:86-92 | sets the task selection, keeps the rest, emits once |
| SelectorWidget.SelectorWidget.OnClientSelectorChanged | src/wage_labor_record/history_view/selector_widget.py:105-111 | sets the client selection, keeps the rest, emits once |
| Text.NatText | src/wage_labor_record/history_view/summary_view.py:95 | decimal digits, one of them exactly below ten |
| Text.NatTextRoundTrip | src/wage_labor_record/history_view/summary_view.py:95 | the digits read back as the number |
| Text.Pad2TwoDigits | src/wage_labor_record/history_view/summary_view.py:95 | below 100, `:02` gives exactly two digits |
| Text.TimestampRoundTrip | src/wage_labor_record/tracked_time_store.py:20-28 | the stored time text is non-empty and parses back to the time |
| Text.JoinEndsWithLast | src/wage_labor_record/history_view/summary_view.py:54 | a join ends with its last part, so it adds no trailing separator |
| Text.RStrip | src/wage_labor_record/time_tracker_tray_icon.py:29 | a prefix, not ending in white space, having removed only white space |
| Text.LStrip | src/wage_labor_record/time_tracker_tray_icon.py:29 | a suffix, not starting with white space, having removed only white space |
| TrayIcon.TooltipLines | src/wage_labor_record/time_tracker_tray_icon.py:25-28 | the status line first, then one line per non-empty label |
| TrayIcon.RawTooltipIsJoin | src/wage_labor_record/time_tracker_tray_icon.py:25-28 | the unstripped text is the lines, each ending in a newline |
| TrayIcon.TooltipIsStrippedJoin | src/wage_labor_record/time_tracker_tray_icon.py:25-29 | the tooltip is the newline-joined lines with trailing white space removed |
| TrayIcon.TooltipStatusLine | src/wage_labor_record/time_tracker_tray_icon.py:25-29 | the tooltip starts with "Working" or "Not working" and does not end in a newline |
| TrayIcon.LeftClick | src/wage_labor_record/time_tracker_tray_icon.py:42-49 | Start when idle, Stop when running with both labels, the window otherwise |
| TrayIcon.IconShowsClick | src/wage_labor_record/time_tracker_tray_icon.py:53-63 | the icon names what a left click does, and that action is enabled |
| TrayIcon.OnLeftClick | src/wage_labor_record/time_tracker_tray_icon.py:42-49 | the click runs the chosen action's handler, leaving the state valid and saved, or opens the window, leaving the state untouched (corrected behaviour, see Findings) |
| TrayIcon.LabelsIdentify | src/wage_labor_record/time_tracker_tray_icon.py:77-91 | "Set Client"/"Set Task" iff the label is empty; otherwise the item text holds the label, and equal texts mean equal labels |
| TrayIcon.UpdateMenu | src/wage_labor_record/time_tracker_tray_icon.py:70-125 | client, task, separator, the five most recent pairs of the sorted store, separator, Abort, Quit |
| TrayIcon.BuildMenu | src/wage_labor_record/time_tracker_tray_icon.py:70-125 | the menu holds the two labels and a separator, one entry per given pair in order, then separator, Abort and Quit |
| TrayIcon.RecentMenu | src/wage_labor_record/time_tracker_tray_icon.py:102-109 | at most five recent entries, all distinct, each from a stored row |
| SimpleTimeTracker.StartOf | simple_time_tracker.py:107-115 | a start time iff the sentinel is at least zero |
| SimpleTimeTracker.SentinelState.constructor | simple_time_tracker.py:106-112 | start -1 and empty labels, so not tracking |
| SimpleTimeTracker.SentinelState.Start | simple_time_tracker.py:158-160 | the start time becomes now, as Handle's Start |
| SimpleTimeTracker.SentinelState.SetCurrentTask | simple_time_tracker.py:133-139 | labels set, start kept if running else now, as Handle's SetCurrentTask |
| SimpleTimeTracker.SentinelState.Stop | simple_time_tracker.py:180-195 | emits the interval and resets the start to -1, as Handle's Stop |
| SimpleTimeTracker.SentinelState.Abort | simple_time_tracker.py:213-216 | resets the start to -1, as Handle's Abort |
| SimpleTimeTracker.SentinelState.Activate | simple_time_tracker.py:121-223 | a worked time only from an enabled Stop; the outcome is Dispatch's for a clock at or after zero |
| SimpleTimeTracker.ActivateAndRecord | simple_time_tracker.py:444-447 | the store gains exactly the emitted worked time and its file is rewritten with the whole list; without an emission neither changes |
| SimpleTimeTracker.UpdateMenu | simple_time_tracker.py:364-423 | the menu of the tray, with the recent pairs from the list store |
| SimpleTimeTracker.StoppedWorkFirstInMenu | simple_time_tracker.py:88-103 | after a Stop is recorded, its pair is the first recent entry |

## Left out

- I/O: files, JSON parsing and `jsonpickle` are modelled as values. A state file is a `Snapshot`; a store file is a sequence of dictionaries whose texts may fail to parse.
- ISO 8601 text: replaced by a decimal text, so ISO parsing and formatting are not modelled.
- Time zones, microseconds and floating point: time is whole seconds and local time is a field record. `GLib.DateTime.format` is modelled only through the pattern it is given.
- Wall clocks and timers: `now` is a parameter. The `GLib.timeout_add` refreshes at `summary_view.py:76-87` are left out.
- GTK widgets, menus, popovers and signal wiring are left out. Emissions are recorded in log fields instead.
- The idle-time dialog, `time_tracker_window.py`, `worked_time_widget.py`, `history_browser_window.py`, `wlr_app.py`, `wage_labor_record.py` and `utils.py` are not part of this model.
- SortedStore.WorkedTimeStore: `all_clients` and `all_tasks` return GTK filter models built on `filter_duplicate_items`; they are not modelled.
- SortedStore.SortFunc returns the unbounded difference of the two starts. `sort_func` returns a Python int that is passed on as a C `gint`, so the ordering of starts more than 2^31 - 1 seconds (about 68 years) apart is not modelled.
- SortedStore.WorkedTimeStore.constructor: the `ValueError` that leaves `__init__` at an entry that fails to parse is not represented. The model stops at that entry, with the rows and the file as the source leaves them.
- SortedStore.WorkedTimeStore.AddWorkedTime: GTK does not document where a row lands among rows with an equal start time. The model places it after them.
- TrackedTimeStore.WorkedTimeStore.constructor requires a file that parses, because the source raises otherwise; the raising path is not modelled.
- SummaryView.SummaryView.SetWorkedTimesList reads each item's duration as a value. `summary_view.py:51` reads `worked_time.duration` as an attribute. The items come from `get_subset`, which is not part of this model, so their class is unknown here. If they were the `WorkedTime` records of `tracked_time_store.py`, whose `duration` is a method, the attribute would be the bound method and not a number.
- SummaryView.SummaryView.SetWorkedTimesList: the running-total markup with the tracking state's elapsed time is a parameter, not a live subscription.
- Actions: the enabled flags are predicates of the state, not stored booleans that `notify` recomputes.
- TrackingStates.TrackingState.constructor: saving is connected after `_load`, so the constructor writes nothing. A missing file leaves the saved snapshot absent.
- SelectorWidget.SelectorWidget.OnTimeSelectorChanged: the "Unknown time selection" assertion cannot fire, because the selection is one of the four rows of a datatype.
- SelectorWidget: the Esc key handler that deselects everything, and the task and client list models, are left out.
- SimpleTimeTracker: the tray's tooltip, click and icon rules are the same as those of `time_tracker_tray_icon.py` and are modelled once, in TrayIcon. The simple store's `jsonpickle` format is not modelled.
- SimpleTimeTracker.SentinelState.Activate ties its outcome to Dispatch only for clock readings of at least zero, because a negative start time means "not tracking" in that state.
- DatetimePicker.DatetimePicker.OnHourChanged states the intermediate day-selected emissions exactly, but proves the correct-instant property only for the final emission. The transient values are described above the table.
- DatetimePicker: Python's `OverflowError` past year 9999 or before year 1 stops the handler after the spin reset. The model returns `overflow` and emits nothing further.

## Findings

| source | as written | input that shows it | evidently intended | confidence | as-written member | corrected member |
|---|---|---|---|---|---|---|
| src/wage_labor_record/actions.py:25-110 | the handlers assign `time.time()` floats and `-1` to `start_time`, which `tracking_state.py:11` declares as a `GLib.DateTime` property. The assignment raises, so the start time never changes and Stop emits no worked time | an idle state with task "report" and client "acme": Start at 100, then Stop at 160 | Start stores the current time, Stop records the interval 100 to 160 and clears the start (None), Abort clears it | not executed | Actions.AsWrittenTrackingFrozen | Actions.Handle |
