/**
 * worked_times_list_view.py: how much of a start or end time the list shows.
 * The view notes whether all items start in one year, one month and one day,
 * and leaves out of each start time what all items share; an end time leaves
 * out what it shares with its own start time.
 */
module WorkedTimesListView {
  import opened Calendar

  /** A listed worked time; only its two local times matter here. */
  datatype ListItem = ListItem(start: LocalDateTime, end: LocalDateTime)

  /** The distinct values of a sequence, as `len({...})` counts them. */
  function Values(xs: seq<int>): set<int>
  {
    set i | 0 <= i < |xs| :: xs[i]
  }

  /** A sequence has exactly one distinct value iff it is non-empty and constant. */
  lemma OneValue(xs: seq<int>)
    ensures |Values(xs)| == 1 <==> |xs| > 0 && forall i :: 0 <= i < |xs| ==> xs[i] == xs[0]
  {
    var vs := Values(xs);
    if |xs| > 0 && forall i :: 0 <= i < |xs| ==> xs[i] == xs[0] {
      assert vs == {xs[0]};
    }
    if |vs| == 1 {
      forall i | 0 <= i < |xs|
        ensures xs[i] == xs[0]
      {
        if xs[i] != xs[0] {
          assert {xs[0], xs[i]} <= vs;
          assert |{xs[0], xs[i]}| == 2;
          SubsetSize({xs[0], xs[i]}, vs);
        }
      }
    }
  }

  lemma SubsetSize(a: set<int>, b: set<int>)
    requires a <= b
    ensures |a| <= |b|
  {
    assert b == a + (b - a);
  }

  function StartYears(items: seq<ListItem>): (xs: seq<int>)
    ensures |xs| == |items| && forall i :: 0 <= i < |items| ==> xs[i] == items[i].start.date.year
  {
    seq(|items|, i requires 0 <= i < |items| => items[i].start.date.year)
  }

  function StartMonths(items: seq<ListItem>): (xs: seq<int>)
    ensures |xs| == |items| && forall i :: 0 <= i < |items| ==> xs[i] == items[i].start.date.month
  {
    seq(|items|, i requires 0 <= i < |items| => items[i].start.date.month)
  }

  function StartDays(items: seq<ListItem>): (xs: seq<int>)
    ensures |xs| == |items| && forall i :: 0 <= i < |items| ==> xs[i] == items[i].start.date.day
  {
    seq(|items|, i requires 0 <= i < |items| => items[i].start.date.day)
  }

  /** `%H:%M`, `%d %H:%M`, `%b %d %H:%M` or `%Y-%m-%d %H:%M`, most specific first. */
  function Pattern(sameDay: bool, sameMonth: bool, sameYear: bool): string
  {
    if sameDay then "%H:%M"
    else if sameMonth then "%d %H:%M"
    else if sameYear then "%b %d %H:%M"
    else "%Y-%m-%d %H:%M"
  }

  /** Every pattern the view chooses ends with the hour and minute. */
  lemma PatternEndsWithTime(sameDay: bool, sameMonth: bool, sameYear: bool)
    ensures var p := Pattern(sameDay, sameMonth, sameYear);
            |p| >= 5 && p[|p| - 5..] == "%H:%M"
  {
  }

  /** `_get_end_time_string`'s choice: drop what the end shares with the item's own start. */
  function EndPattern(item: ListItem): string
  {
    var sameYear := item.end.date.year == item.start.date.year;
    var sameMonth := sameYear && item.end.date.month == item.start.date.month;
    var sameDay := sameMonth && item.end.date.day == item.start.date.day;
    Pattern(sameDay, sameMonth, sameYear)
  }

  /** The end pattern is decided by the calendar date alone: which of its fields the end shares with the start. */
  lemma EndPatternByDate(item: ListItem)
    ensures var s, e := item.start.date, item.end.date;
            (EndPattern(item) == "%H:%M" <==> e == s) &&
            (EndPattern(item) == "%d %H:%M" <==> e.year == s.year && e.month == s.month && e.day != s.day) &&
            (EndPattern(item) == "%b %d %H:%M" <==> e.year == s.year && e.month != s.month) &&
            (EndPattern(item) == "%Y-%m-%d %H:%M" <==> e.year != s.year)
  {
  }

  class WorkedTimesListView {
    var allItemsInSameYear: bool
    var allItemsInSameMonth: bool
    var allItemsInSameDay: bool

    constructor()
      ensures !allItemsInSameYear && !allItemsInSameMonth && !allItemsInSameDay
    {
      allItemsInSameYear, allItemsInSameMonth, allItemsInSameDay := false, false, false;
    }

    /** `set_worked_times_list`: the three flags, each requiring the one before. */
    method SetWorkedTimesList(items: seq<ListItem>)
      modifies this
      ensures allItemsInSameYear == (|Values(StartYears(items))| == 1)
      ensures allItemsInSameMonth == (allItemsInSameYear && |Values(StartMonths(items))| == 1)
      ensures allItemsInSameDay == (allItemsInSameMonth && |Values(StartDays(items))| == 1)
    {
      allItemsInSameYear := |Values(StartYears(items))| == 1;
      allItemsInSameMonth := allItemsInSameYear && |Values(StartMonths(items))| == 1;
      allItemsInSameDay := allItemsInSameMonth && |Values(StartDays(items))| == 1;
    }

    /** `_get_start_time_string`'s choice of pattern. */
    function StartPattern(): (p: string)
      reads this
      ensures p == "%H:%M" <==> allItemsInSameDay
      ensures p == "%d %H:%M" <==> !allItemsInSameDay && allItemsInSameMonth
      ensures p == "%b %d %H:%M" <==> !allItemsInSameDay && !allItemsInSameMonth && allItemsInSameYear
      ensures p == "%Y-%m-%d %H:%M" <==> !allItemsInSameDay && !allItemsInSameMonth && !allItemsInSameYear
    {
      Pattern(allItemsInSameDay, allItemsInSameMonth, allItemsInSameYear)
    }
  }

  /**
   * What the three flags mean: the day flag holds iff the list is non-empty and
   * every item starts on the first item's date, the month flag iff they all
   * share its year and month, the year flag iff they all share its year. An
   * empty list sets none of them.
   */
  lemma FlagsMeaning(items: seq<ListItem>)
    ensures var year := |Values(StartYears(items))| == 1;
            var month := year && |Values(StartMonths(items))| == 1;
            var day := month && |Values(StartDays(items))| == 1;
            (year <==> |items| > 0 && forall i :: 0 <= i < |items| ==>
                         items[i].start.date.year == items[0].start.date.year) &&
            (month <==> |items| > 0 && forall i :: 0 <= i < |items| ==>
                         items[i].start.date.year == items[0].start.date.year &&
                         items[i].start.date.month == items[0].start.date.month) &&
            (day <==> |items| > 0 && forall i :: 0 <= i < |items| ==>
                         items[i].start.date == items[0].start.date) &&
            (day ==> month) && (month ==> year) &&
            (items == [] ==> !year && Pattern(day, month, year) == "%Y-%m-%d %H:%M")
  {
    OneValue(StartYears(items));
    OneValue(StartMonths(items));
    OneValue(StartDays(items));
  }
}
