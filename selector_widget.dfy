/**
 * selector_widget.py: picks the slice of the history to show. A time
 * selection sets an optional start and end bound; the task and client lists
 * set an optional set of names, where None means "no constraint". Every
 * change emits selection-changed, counted here.
 */
module SelectorWidget {
  import opened Options
  import opened Calendar

  /** The four rows of the time selector. */
  datatype TimeSelection = Today | ThisWeek | ThisMonth | LastMonth

  function Midnight(d: Date): LocalDateTime
  {
    LocalDateTime(d, 0, 0, 0)
  }

  /** The start and end bounds a time selection sets, given the current local time. */
  datatype Window = Window(start: Option<LocalDateTime>, end: Option<LocalDateTime>)

  /**
   * The four branches of `on_time_selector_changed`. "This Week" goes back
   * to Monday with `add_days` and so keeps the time of day; "Last Month"
   * uses `add_months(-1)`, which GLib answers with None before year 1.
   */
  function TimeWindow(selection: TimeSelection, now: LocalDateTime): Window
    requires ValidDateTime(now)
  {
    match selection
    case Today => Window(Some(Midnight(now.date)), None)
    case ThisWeek =>
      var monday := DaysEarlier(now.date, Weekday(now.date) - 1);
      Window(if monday.Some? then Some(now.(date := monday.value)) else None, None)
    case ThisMonth => Window(Some(Midnight(now.date.(day := 1))), None)
    case LastMonth =>
      var first := now.date.(day := 1);
      var previous := FirstOfPreviousMonth(first);
      Window(if previous.Some? then Some(Midnight(previous.value)) else None, Some(Midnight(first)))
  }

  /** Only "Last Month" sets an end bound, and every start bound is a real local time. */
  lemma WindowBounds(selection: TimeSelection, now: LocalDateTime)
    requires ValidDateTime(now)
    ensures var w := TimeWindow(selection, now);
            (w.end.Some? <==> selection == LastMonth) &&
            (w.start.Some? ==> ValidDateTime(w.start.value)) &&
            (w.end.Some? ==> ValidDateTime(w.end.value))
  {
  }

  /** "Today" and "This Month" start at midnight of today and of the first of this month. */
  lemma MidnightStarts(now: LocalDateTime)
    requires ValidDateTime(now)
    ensures TimeWindow(Today, now).start == Some(LocalDateTime(now.date, 0, 0, 0))
    ensures var s := TimeWindow(ThisMonth, now).start;
            s.Some? && s.value.date.year == now.date.year && s.value.date.month == now.date.month &&
            s.value.date.day == 1 && s.value.hour == 0 && s.value.minute == 0 && s.value.second == 0
  {
  }

  /**
   * "This Week" starts on the Monday of the current week: a Monday at most six
   * days back, at the current time of day. Since 0001-01-01 was a Monday that
   * day always exists.
   */
  lemma ThisWeekStartsOnMonday(now: LocalDateTime)
    requires ValidDateTime(now)
    ensures var s := TimeWindow(ThisWeek, now).start;
            s.Some? && ValidDate(s.value.date) && Weekday(s.value.date) == 1 &&
            0 <= DayNumber(now.date) - DayNumber(s.value.date) < 7 &&
            s.value.hour == now.hour && s.value.minute == now.minute && s.value.second == now.second
  {
    MondayOfWeek(now.date);
  }

  lemma MondayOfWeek(d: Date)
    requires ValidDate(d)
    ensures var m := DaysEarlier(d, Weekday(d) - 1);
            m.Some? && Weekday(m.value) == 1 && 0 <= DayNumber(d) - DayNumber(m.value) < 7
  {
    MondayExists(d);
    MondayWeekday(d, DaysEarlier(d, Weekday(d) - 1).value);
  }

  /** A date that many days back is a Monday of the same week. */
  lemma MondayWeekday(d: Date, m: Date)
    requires ValidDate(d) && ValidDate(m)
    requires DayNumber(m) == DayNumber(d) - (DayNumber(d) - 1) % 7
    ensures Weekday(m) == 1 && 0 <= DayNumber(d) - DayNumber(m) < 7
  {
    DayNumberFirst(d);
    WeekStart(DayNumber(d), DayNumber(m));
  }

  /** Going back to Monday stays within the calendar and lands `Weekday - 1` days earlier. */
  lemma MondayExists(d: Date)
    requires ValidDate(d)
    ensures DaysEarlier(d, Weekday(d) - 1).Some?
    ensures DayNumber(DaysEarlier(d, Weekday(d) - 1).value) == DayNumber(d) - (DayNumber(d) - 1) % 7
  {
    WeekdayBelow(d);
    DaysEarlierNumber(d, Weekday(d) - 1);
  }

  lemma WeekdayBelow(d: Date)
    requires ValidDate(d)
    ensures Weekday(d) - 1 == (DayNumber(d) - 1) % 7 < DayNumber(d)
  {
    DayNumberFirst(d);
  }

  lemma WeekStart(n: int, monday: int)
    requires n >= 1 && monday == n - (n - 1) % 7
    ensures (monday - 1) % 7 == 0 && 0 <= n - monday < 7
  {
  }

  /**
   * "Last Month" runs from the first of the previous month to the first of
   * this month, both at midnight: exactly the previous month's days. Only in
   * January of year 1 is there no start.
   */
  lemma LastMonthIsPreviousMonth(now: LocalDateTime)
    requires ValidDateTime(now)
    ensures var w := TimeWindow(LastMonth, now);
            w.end == Some(LocalDateTime(now.date.(day := 1), 0, 0, 0)) &&
            (w.start.None? <==> now.date.year == MinYear && now.date.month == 1) &&
            (w.start.Some? ==>
               var s := w.start.value.date;
               ValidDate(s) && s.day == 1 && w.start.value.hour == 0 && w.start.value.minute == 0 &&
               w.start.value.second == 0 &&
               DayNumber(now.date.(day := 1)) - DayNumber(s) == DaysInMonth(s.year, s.month))
  {
    var first := now.date.(day := 1);
    if FirstOfPreviousMonth(first).Some? {
      FirstOfPreviousMonthSpan(first);
    }
  }

  /** `count_selected_rows() == 0` gives None, otherwise the set of the selected rows' names. */
  function SelectionToSet(names: seq<string>): (r: Option<set<string>>)
    ensures r.None? <==> names == []
    ensures r.Some? ==> forall x :: x in r.value <==> x in names
  {
    if names == [] then None else Some(set i | 0 <= i < |names| :: names[i])
  }

  class SelectorWidget {
    var selectedStartTime: Option<LocalDateTime>
    var selectedEndTime: Option<LocalDateTime>
    var selectedClients: Option<set<string>>
    var selectedTasks: Option<set<string>>
    /** How many times selection-changed has been emitted. */
    var selectionChanges: nat

    /** Nothing is selected at first, so nothing is constrained. */
    constructor()
      ensures selectedStartTime.None? && selectedEndTime.None?
      ensures selectedClients.None? && selectedTasks.None?
      ensures selectionChanges == 0
    {
      selectedStartTime, selectedEndTime := None, None;
      selectedClients, selectedTasks := None, None;
      selectionChanges := 0;
    }

    /**
     * `on_time_selector_changed`: the selected row, if any, sets both time
     * bounds and emits selection-changed; with no row selected nothing happens.
     */
    method OnTimeSelectorChanged(selection: Option<TimeSelection>, now: LocalDateTime)
      requires ValidDateTime(now)
      modifies this
      ensures selectedClients == old(selectedClients) && selectedTasks == old(selectedTasks)
      ensures selection.None? ==>
        selectedStartTime == old(selectedStartTime) && selectedEndTime == old(selectedEndTime) &&
        selectionChanges == old(selectionChanges)
      ensures selection.Some? ==>
        Window(selectedStartTime, selectedEndTime) == TimeWindow(selection.value, now) &&
        selectionChanges == old(selectionChanges) + 1
    {
      if selection.Some? {
        var w := TimeWindow(selection.value, now);
        selectedStartTime := w.start;
        selectedEndTime := w.end;
        selectionChanges := selectionChanges + 1;
      }
    }

    /** `on_task_selector_changed`, given the names in the selected rows. */
    method OnTaskSelectorChanged(names: seq<string>)
      modifies this
      ensures selectedTasks == SelectionToSet(names)
      ensures selectedClients == old(selectedClients)
      ensures selectedStartTime == old(selectedStartTime) && selectedEndTime == old(selectedEndTime)
      ensures selectionChanges == old(selectionChanges) + 1
    {
      if |names| == 0 {
        selectedTasks := None;
      } else {
        selectedTasks := Some(set i | 0 <= i < |names| :: names[i]);
      }
      selectionChanges := selectionChanges + 1;
    }

    /** `on_client_selector_changed`, given the names in the selected rows. */
    method OnClientSelectorChanged(names: seq<string>)
      modifies this
      ensures selectedClients == SelectionToSet(names)
      ensures selectedTasks == old(selectedTasks)
      ensures selectedStartTime == old(selectedStartTime) && selectedEndTime == old(selectedEndTime)
      ensures selectionChanges == old(selectionChanges) + 1
    {
      if |names| == 0 {
        selectedClients := None;
      } else {
        selectedClients := Some(set i | 0 <= i < |names| :: names[i]);
      }
      selectionChanges := selectionChanges + 1;
    }
  }
}
