/**
 * datetime_picker.py: a calendar plus an hour and a minute spin button that
 * together pick a local date and time. Spinning a field one step past its
 * end carries into the next field (minute 60 becomes 0 of the next hour,
 * hour -1 becomes 23 of the previous day, and so on), and every change emits
 * the picked date and time with the seconds set to zero.
 *
 * GTK's re-entrance is modelled as it happens: `set_value` on a spin button
 * runs its value-changed handler again when the value really changes, and
 * `select_day` on the calendar runs the day-selected handler, while
 * `select_month` emits only month-changed, which the picker does not use.
 */
module DatetimePicker {
  import opened Options
  import opened Calendar

  /** `GLib.DateTime.new_local`: None for a date or time outside the calendar. */
  function NewLocal(d: Date, hour: int, minute: int): (r: Option<LocalDateTime>)
    ensures r.Some? <==> ValidDateTime(LocalDateTime(d, hour, minute, 0))
    ensures r.Some? ==> r.value == LocalDateTime(d, hour, minute, 0)
  {
    var t := LocalDateTime(d, hour, minute, 0);
    if ValidDateTime(t) then Some(t) else None
  }

  /** A spin button keeps its value within its range. */
  function Clamp(v: int, lo: int, hi: int): (r: int)
    requires lo <= hi
    ensures lo <= r <= hi
    ensures lo <= v <= hi ==> r == v
  {
    if v < lo then lo else if v > hi then hi else v
  }

  /** Minutes since 0001-01-01 00:00 minus one day, for a date and a possibly out-of-range hour and minute. */
  function Instant(d: Date, hour: int, minute: int): int
    requires ValidDate(d)
  {
    (DayNumber(d) * 24 + hour) * 60 + minute
  }

  /** The instants GLib can represent: 0001-01-01 00:00 to 9999-12-31 23:59. */
  predicate InRange(t: int)
  {
    ValidDate(Date(MaxYear, 12, 31)) &&
    24 * 60 <= t < (DayNumber(Date(MaxYear, 12, 31)) + 1) * 24 * 60
  }

  /** Every settled date and time is an instant GLib can represent. */
  lemma SettledInRange(d: Date, hour: int, minute: int)
    requires ValidDateTime(LocalDateTime(d, hour, minute, 0))
    ensures InRange(Instant(d, hour, minute))
  {
    DayNumberFirst(d);
    DayNumberOrder(d, Date(MaxYear, 12, 31));
  }

  /** Hour 24 of a day is hour 0 of the next, which exists unless the instant is past the calendar. */
  lemma NextDayInstant(d: Date, minute: int)
    requires ValidDate(d) && 0 <= minute < 60
    ensures NextDay(d).Some? ==> Instant(NextDay(d).value, 0, minute) == Instant(d, 24, minute)
    ensures NextDay(d).None? ==> !InRange(Instant(d, 24, minute))
  {
    if NextDay(d).Some? {
      NextDayNumber(d);
    }
  }

  /** Hour -1 of a day is hour 23 of the previous, which exists unless the instant is before the calendar. */
  lemma PrevDayInstant(d: Date, minute: int)
    requires ValidDate(d) && 0 <= minute < 60
    ensures PrevDay(d).Some? ==> Instant(PrevDay(d).value, 23, minute) == Instant(d, -1, minute)
    ensures PrevDay(d).None? ==> !InRange(Instant(d, -1, minute))
  {
    if PrevDay(d).Some? {
      PrevDayNumber(d);
    } else {
      DayNumberFirst(d);
    }
  }

  /**
   * The day selected before the month during a carry to the previous day is
   * emitted in the old month, where it need not exist: stepping back from
   * the first of a month shorter than the one before (April 1 to March 31)
   * passes `None` for a moment.
   */
  lemma TransientPreviousDay(d: Date, minute: int)
    requires ValidDate(d) && PrevDay(d).Some? && 0 <= minute < 60
    ensures var p := PrevDay(d).value;
            NewLocal(Date(d.year, d.month, p.day), 23, minute).None? <==>
              d.day == 1 && p.day > DaysInMonth(d.year, d.month)
    ensures d == Date(2023, 4, 1) ==>
              PrevDay(d) == Some(Date(2023, 3, 31)) && NewLocal(Date(2023, 4, 31), 23, minute).None?
  {
  }

  /** Every value ever emitted is a valid local time on a whole minute. */
  predicate WholeMinutes(log: seq<Option<LocalDateTime>>)
  {
    forall i :: 0 <= i < |log| && log[i].Some? ==> ValidDateTime(log[i].value) && log[i].value.second == 0
  }

  class DatetimePicker {
    /** The calendar's selection; GTK counts months from 0. */
    var year: int
    var month: int
    var day: int
    /** The spin buttons' values: hours range over -1..24 and minutes over -1..60. */
    var hour: int
    var minute: int
    /** The values passed to `datetime-changed`, oldest first. */
    var emitted: seq<Option<LocalDateTime>>

    function CalendarDate(): Date
      reads this
    {
      Date(year, month + 1, day)
    }

    /** What `_emit_change_signal` would pass now. */
    function Current(): Option<LocalDateTime>
      reads this
    {
      NewLocal(CalendarDate(), hour, minute)
    }

    /** A settled picker: a real date and an hour and minute within a day. */
    predicate Valid()
      reads this
    {
      ValidDate(CalendarDate()) && 0 <= hour < 24 && 0 <= minute < 60
    }

    /**
     * `__init__`: the widgets start at the given time; the handlers are
     * connected only after the initial values are set, so nothing is emitted.
     */
    constructor(initial: LocalDateTime)
      requires ValidDateTime(initial)
      ensures Valid() && emitted == []
      ensures Current() == Some(initial.(second := 0))
    {
      year, month, day := initial.date.year, initial.date.month - 1, initial.date.day;
      hour, minute := initial.hour, initial.minute;
      emitted := [];
    }

    /** `_emit_change_signal`. */
    method EmitChangeSignal()
      requires WholeMinutes(emitted)
      modifies this
      ensures emitted == old(emitted) + [old(Current())]
      ensures emitted[|emitted| - 1] == Current() && (Valid() ==> Current().Some?)
      ensures WholeMinutes(emitted)
      ensures year == old(year) && month == old(month) && day == old(day)
      ensures hour == old(hour) && minute == old(minute)
    {
      emitted := emitted + [Current()];
    }

    /** `Calendar.select_day`: changes the day and emits day-selected. */
    method SelectDay(d: int)
      requires WholeMinutes(emitted)
      modifies this
      ensures day == d && year == old(year) && month == old(month)
      ensures hour == old(hour) && minute == old(minute)
      ensures emitted == old(emitted) + [NewLocal(CalendarDate(), hour, minute)]
      ensures WholeMinutes(emitted)
    {
      day := d;
      EmitChangeSignal();
    }

    /** `Calendar.select_month`: changes month and year; month-changed is not connected. */
    method SelectMonth(m: int, y: int)
      modifies this
      ensures month == m && year == y && day == old(day)
      ensures hour == old(hour) && minute == old(minute) && emitted == old(emitted)
    {
      month, year := m, y;
    }

    /**
     * `hour_picker.set_value`, by the user or by a handler: the value is
     * clamped to -1..24 and the handler runs only when it changes. From a
     * settled calendar the picker settles again, the instant is the one the
     * new hour denotes whenever that instant exists, and the last emission is
     * the settled time.
     */
    method SetHourValue(v: int)
      requires ValidDate(CalendarDate()) && -1 <= hour <= 24 && 0 <= minute < 60
      requires WholeMinutes(emitted)
      modifies this
      decreases if Clamp(v, -1, 24) == 24 || Clamp(v, -1, 24) == -1 then 5 else 1
      ensures WholeMinutes(emitted) && minute == old(minute)
      ensures Clamp(v, -1, 24) == old(hour) ==>
        hour == old(hour) && CalendarDate() == old(CalendarDate()) && emitted == old(emitted)
      ensures Clamp(v, -1, 24) != old(hour) && 0 <= Clamp(v, -1, 24) < 24 ==>
        hour == Clamp(v, -1, 24) && CalendarDate() == old(CalendarDate()) && emitted == old(emitted) + [Current()]
      ensures Clamp(v, -1, 24) != old(hour) ==>
        Valid() && |emitted| > |old(emitted)| && emitted[..|old(emitted)|] == old(emitted) &&
        (InRange(Instant(old(CalendarDate()), Clamp(v, -1, 24), old(minute))) ==>
           Instant(CalendarDate(), hour, minute) == Instant(old(CalendarDate()), Clamp(v, -1, 24), old(minute)) &&
           emitted[|emitted| - 1] == Current() && Current().Some?)
    {
      var value := Clamp(v, -1, 24);
      if value != hour {
        hour := value;
        OnHourChanged();
      }
    }

    /**
     * `_on_hour_changed`. Hour 24 becomes 0 of the next day and hour -1
     * becomes 23 of the previous day; past either end of the calendar Python
     * raises OverflowError and the handler stops before emitting. From a
     * settled calendar the picker settles, the instant is kept whenever it
     * exists, and the last emission is the settled time.
     */
    method OnHourChanged()
      requires ValidDate(CalendarDate()) && -1 <= hour <= 24 && 0 <= minute < 60
      requires WholeMinutes(emitted)
      modifies this
      decreases if hour == 24 || hour == -1 then 4 else 0
      ensures Valid() && WholeMinutes(emitted) && minute == old(minute)
      ensures |emitted| > |old(emitted)| && emitted[..|old(emitted)|] == old(emitted)
      ensures 0 <= old(hour) < 24 ==>
        CalendarDate() == old(CalendarDate()) && hour == old(hour) && emitted == old(emitted) + [Current()]
      ensures InRange(old(Instant(CalendarDate(), hour, minute))) ==>
        Instant(CalendarDate(), hour, minute) == old(Instant(CalendarDate(), hour, minute)) &&
        emitted[|emitted| - 1] == Current() && Current().Some?
    {
      if hour == 24 {
        HourPastMidnight();
      } else if hour == -1 {
        HourBeforeMidnight();
      } else {
        EmitChangeSignal();
        assert emitted[|emitted| - 1] == Current() && Current().Some?;
      }
    }

    /** `_on_hour_changed` at hour 24: carry into the next day, then emit unless that overflowed. */
    method HourPastMidnight()
      requires ValidDate(CalendarDate()) && hour == 24 && 0 <= minute < 60
      requires WholeMinutes(emitted)
      modifies this
      decreases 3
      ensures Valid() && WholeMinutes(emitted) && minute == old(minute)
      ensures |emitted| > |old(emitted)| && emitted[..|old(emitted)|] == old(emitted)
      ensures InRange(old(Instant(CalendarDate(), hour, minute))) ==>
        Instant(CalendarDate(), hour, minute) == old(Instant(CalendarDate(), hour, minute)) &&
        emitted[|emitted| - 1] == Current() && Current().Some?
    {
      NextDayInstant(CalendarDate(), minute);
      var stopped := CarryIntoNextDay();
      if !stopped {
        EmitChangeSignal();
      }
    }

    /** `_on_hour_changed` at hour -1: carry into the previous day, then emit unless that overflowed. */
    method HourBeforeMidnight()
      requires ValidDate(CalendarDate()) && hour == -1 && 0 <= minute < 60
      requires WholeMinutes(emitted)
      modifies this
      decreases 3
      ensures Valid() && WholeMinutes(emitted) && minute == old(minute)
      ensures |emitted| > |old(emitted)| && emitted[..|old(emitted)|] == old(emitted)
      ensures InRange(old(Instant(CalendarDate(), hour, minute))) ==>
        Instant(CalendarDate(), hour, minute) == old(Instant(CalendarDate(), hour, minute)) &&
        emitted[|emitted| - 1] == Current() && Current().Some?
    {
      PrevDayInstant(CalendarDate(), minute);
      var stopped := CarryIntoPreviousDay();
      if !stopped {
        EmitChangeSignal();
      }
    }

    /**
     * The hour-24 branch of `_on_hour_changed`: the spin button is reset to 0
     * (which runs the handler again and emits), then the calendar selects the
     * next day's number, still in the old month (which emits that date), then
     * the next day's month and year. At 9999-12-31 it stops after the reset.
     */
    method CarryIntoNextDay() returns (overflow: bool)
      requires ValidDate(CalendarDate()) && hour == 24 && 0 <= minute < 60
      requires WholeMinutes(emitted)
      modifies this
      decreases 2
      ensures Valid() && WholeMinutes(emitted) && hour == 0 && minute == old(minute)
      ensures var d := old(CalendarDate());
        (overflow <==> NextDay(d).None?) &&
        (overflow ==> CalendarDate() == d && emitted == old(emitted) + [NewLocal(d, 0, minute)]) &&
        (!overflow ==> CalendarDate() == NextDay(d).value &&
                       emitted == old(emitted) + [NewLocal(d, 0, minute), NewLocal(Date(d.year, d.month, NextDay(d).value.day), 0, minute)])
    {
      var d := CalendarDate();
      SetHourValue(0);
      var next := NextDay(d);
      if next.None? {
        return true;
      }
      SelectDay(next.value.day);
      SelectMonth(next.value.month - 1, next.value.year);
      return false;
    }

    /** The hour -1 branch of `_on_hour_changed`, towards the previous day; it stops at 0001-01-01. */
    method CarryIntoPreviousDay() returns (overflow: bool)
      requires ValidDate(CalendarDate()) && hour == -1 && 0 <= minute < 60
      requires WholeMinutes(emitted)
      modifies this
      decreases 2
      ensures Valid() && WholeMinutes(emitted) && hour == 23 && minute == old(minute)
      ensures var d := old(CalendarDate());
        (overflow <==> PrevDay(d).None?) &&
        (overflow ==> CalendarDate() == d && emitted == old(emitted) + [NewLocal(d, 23, minute)]) &&
        (!overflow ==> CalendarDate() == PrevDay(d).value &&
                       emitted == old(emitted) + [NewLocal(d, 23, minute), NewLocal(Date(d.year, d.month, PrevDay(d).value.day), 23, minute)])
    {
      var d := CalendarDate();
      SetHourValue(23);
      var prev := PrevDay(d);
      if prev.None? {
        return true;
      }
      SelectDay(prev.value.day);
      SelectMonth(prev.value.month - 1, prev.value.year);
      return false;
    }

    /**
     * `minute_picker.set_value`, by the user or by a handler: the value is
     * clamped to -1..60 and the handler runs only when it changes.
     */
    method SetMinuteValue(v: int)
      requires ValidDate(CalendarDate()) && 0 <= hour < 24 && -1 <= minute <= 60
      requires WholeMinutes(emitted)
      modifies this
      decreases if Clamp(v, -1, 60) == 60 || Clamp(v, -1, 60) == -1 then 3 else 1
      ensures WholeMinutes(emitted)
      ensures Clamp(v, -1, 60) == old(minute) ==>
        hour == old(hour) && minute == old(minute) && CalendarDate() == old(CalendarDate()) &&
        emitted == old(emitted)
      ensures Clamp(v, -1, 60) != old(minute) && 0 <= Clamp(v, -1, 60) < 60 ==>
        minute == Clamp(v, -1, 60) && hour == old(hour) && CalendarDate() == old(CalendarDate()) &&
        emitted == old(emitted) + [Current()]
      ensures Clamp(v, -1, 60) != old(minute) ==>
        Valid() && |emitted| > |old(emitted)| && emitted[..|old(emitted)|] == old(emitted) &&
        (InRange(Instant(old(CalendarDate()), old(hour), Clamp(v, -1, 60))) ==>
           Instant(CalendarDate(), hour, minute) == Instant(old(CalendarDate()), old(hour), Clamp(v, -1, 60)) &&
           emitted[|emitted| - 1] == Current() && Current().Some?)
    {
      var value := Clamp(v, -1, 60);
      if value != minute {
        minute := value;
        OnMinuteChanged();
      }
    }

    /**
     * `_on_minute_changed`. Minute 60 becomes 0 and the hour goes up by one;
     * minute -1 becomes 59 and the hour goes down by one, which may in turn
     * carry into the calendar. The handler always ends by emitting.
     */
    method OnMinuteChanged()
      requires ValidDate(CalendarDate()) && 0 <= hour < 24 && -1 <= minute <= 60
      requires WholeMinutes(emitted)
      modifies this
      decreases if minute == 60 || minute == -1 then 2 else 0
      ensures Valid() && WholeMinutes(emitted)
      ensures |emitted| > |old(emitted)| && emitted[..|old(emitted)|] == old(emitted)
      ensures emitted[|emitted| - 1] == Current() && Current().Some?
      ensures 0 <= old(minute) < 60 ==>
        CalendarDate() == old(CalendarDate()) && hour == old(hour) && minute == old(minute) &&
        emitted == old(emitted) + [Current()]
      ensures old(minute) == 60 ==> minute == 0
      ensures old(minute) == 60 && old(hour) < 23 ==> hour == old(hour) + 1 && CalendarDate() == old(CalendarDate())
      ensures old(minute) == -1 ==> minute == 59
      ensures old(minute) == -1 && old(hour) > 0 ==> hour == old(hour) - 1 && CalendarDate() == old(CalendarDate())
      ensures InRange(old(Instant(CalendarDate(), hour, minute))) ==>
        Instant(CalendarDate(), hour, minute) == old(Instant(CalendarDate(), hour, minute))
    {
      if minute == 60 {
        SettledInRange(CalendarDate(), hour, 59);
        SetMinuteValue(0);
        SetHourValue(hour + 1);
        EmitChangeSignal();
      } else if minute == -1 {
        SettledInRange(CalendarDate(), hour, 0);
        SetMinuteValue(59);
        SetHourValue(hour - 1);
        EmitChangeSignal();
      } else {
        EmitChangeSignal();
      }
    }
  }
}
