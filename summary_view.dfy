/**
 * summary_view.py: total durations per task, in the order in which each task
 * first appears, the text copied to the clipboard, and the grand total shown
 * in the big label. Durations are whole seconds.
 */
module SummaryView {
  import opened Options
  import opened Text
  import opened Distinct
  import opened TrackedTimeStore
  import TrackingStates

  /** `divmod` by 3600 and then by 60; Python floors, as Dafny does for positive divisors. */
  function Hms(seconds: int): (r: (int, int, int))
    ensures r.0 * 3600 + r.1 * 60 + r.2 == seconds
    ensures 0 <= r.1 < 60 && 0 <= r.2 < 60
    ensures seconds >= 0 ==> r.0 >= 0
    ensures seconds < 0 ==> r.0 < 0
  {
    var remainder := seconds % 3600;
    (seconds / 3600, remainder / 60, remainder % 60)
  }

  /** `_duration_to_str`: `HH:MM:SS`, or `HH:MM` without the seconds. */
  function DurationToStr(seconds: int, includeSeconds: bool): string
  {
    var (h, m, s) := Hms(seconds);
    if includeSeconds then Pad2(h) + ":" + Pad2(m) + ":" + Pad2(s)
    else Pad2(h) + ":" + Pad2(m)
  }

  /** A non-negative number padded to two places keeps its value and is at least two digits long. */
  lemma Pad2NonNegative(x: int)
    requires x >= 0
    ensures |Pad2(x)| >= 2 && AllDigits(Pad2(x)) && DigitsValue(Pad2(x)) == x
  {
    if x < 100 {
      Pad2TwoDigits(x);
    } else {
      NatTextRoundTrip(x);
    }
  }

  /**
   * Reads `HH:MM:SS` back: hours of any number of digits, then two-digit
   * minutes and seconds below sixty; None for any other text.
   */
  function ParseDuration(r: string): (v: Option<int>)
    ensures v.Some? ==> v.value >= 0
  {
    if |r| >= 8 && r[|r| - 6] == ':' && r[|r| - 3] == ':' &&
       AllDigits(r[..|r| - 6]) && AllDigits(r[|r| - 5..|r| - 3]) && AllDigits(r[|r| - 2..])
    then
      var h, m, s := DigitsValue(r[..|r| - 6]), DigitsValue(r[|r| - 5..|r| - 3]), DigitsValue(r[|r| - 2..]);
      if m < 60 && s < 60 then Some(h * 3600 + m * 60 + s) else None
    else None
  }

  /** For a non-negative duration the text reads back as the same number of seconds. */
  lemma DurationTextRoundTrip(seconds: int)
    requires seconds >= 0
    ensures ParseDuration(DurationToStr(seconds, true)) == Some(seconds)
  {
    var r := DurationToStr(seconds, true);
    var hms := Hms(seconds);
    DurationFields(seconds, r, hms.0, hms.1, hms.2);
    ParseFields(r, hms.0, hms.1, hms.2, seconds);
  }

  /** A text with those three fields parses to their total in seconds. */
  lemma ParseFields(r: string, h: nat, m: nat, s: nat, total: int)
    requires |r| >= 8 && r[|r| - 6] == ':' && r[|r| - 3] == ':'
    requires AllDigits(r[..|r| - 6]) && AllDigits(r[|r| - 5..|r| - 3]) && AllDigits(r[|r| - 2..])
    requires DigitsValue(r[..|r| - 6]) == h && DigitsValue(r[|r| - 5..|r| - 3]) == m && DigitsValue(r[|r| - 2..]) == s
    requires m < 60 && s < 60 && h * 3600 + m * 60 + s == total
    ensures ParseDuration(r) == Some(total)
  {
  }

  /** The three fields of the text hold the hours, minutes and seconds, each in decimal. */
  lemma DurationFields(seconds: int, r: string, h: int, m: int, s: int)
    requires seconds >= 0 && r == DurationToStr(seconds, true) && (h, m, s) == Hms(seconds)
    ensures |r| >= 8 && r[|r| - 6] == ':' && r[|r| - 3] == ':' &&
            AllDigits(r[..|r| - 6]) && AllDigits(r[|r| - 5..|r| - 3]) && AllDigits(r[|r| - 2..]) &&
            DigitsValue(r[..|r| - 6]) == h && DigitsValue(r[|r| - 5..|r| - 3]) == m && DigitsValue(r[|r| - 2..]) == s
  {
    Pad2NonNegative(h);
    Pad2TwoDigits(m);
    Pad2TwoDigits(s);
    assert r == Pad2(h) + ":" + Pad2(m) + ":" + Pad2(s);
    assert r[..|r| - 6] == Pad2(h);
    assert r[|r| - 5..|r| - 3] == Pad2(m);
    assert r[|r| - 2..] == Pad2(s);
  }

  /** Without seconds the text is the full text minus its trailing `:SS`. */
  lemma NoSecondsDropsLastField(seconds: int)
    ensures var full := DurationToStr(seconds, true);
            |full| >= 3 && DurationToStr(seconds, false) == full[..|full| - 3]
  {
    var (h, m, s) := Hms(seconds);
    Pad2TwoDigits(s);
    var full := DurationToStr(seconds, true);
    assert full == (Pad2(h) + ":" + Pad2(m)) + (":" + Pad2(s));
  }

  /** The tasks of the worked times in order of first appearance: the dict's key order. */
  function TaskOrder(items: seq<WorkedTime>): seq<string>
  {
    Dedup(Tasks(items))
  }

  function Tasks(items: seq<WorkedTime>): (ts: seq<string>)
    ensures |ts| == |items| && forall i :: 0 <= i < |items| ==> ts[i] == items[i].task
  {
    seq(|items|, i requires 0 <= i < |items| => items[i].task)
  }

  /** Sum of the durations of the worked times on `task`. */
  function TaskTotal(items: seq<WorkedTime>, task: string): int
  {
    if items == [] then 0
    else
      var last := items[|items| - 1];
      TaskTotal(items[..|items| - 1], task) + (if last.task == task then Duration(last) else 0)
  }

  /** Sum of all durations. */
  function TotalDuration(items: seq<WorkedTime>): int
  {
    if items == [] then 0 else TotalDuration(items[..|items| - 1]) + Duration(items[|items| - 1])
  }

  /** Sum of the per-task totals over the given tasks. */
  function SumTotals(items: seq<WorkedTime>, tasks: seq<string>): int
  {
    if tasks == [] then 0
    else SumTotals(items, tasks[..|tasks| - 1]) + TaskTotal(items, tasks[|tasks| - 1])
  }

  /** A task that never occurs has total zero. */
  lemma {:induction false} AbsentTaskTotal(items: seq<WorkedTime>, task: string)
    requires task !in Tasks(items)
    ensures TaskTotal(items, task) == 0
  {
    if items != [] {
      var init := items[..|items| - 1];
      assert Tasks(init) == Tasks(items)[..|items| - 1];
      AbsentTaskTotal(init, task);
    }
  }

  /** Adding one worked time raises the sum over distinct tasks by its duration if its task is listed. */
  lemma {:induction false} SumTotalsSnoc(items: seq<WorkedTime>, w: WorkedTime, tasks: seq<string>)
    requires NoDuplicates(tasks)
    ensures SumTotals(items + [w], tasks) == SumTotals(items, tasks) + (if w.task in tasks then Duration(w) else 0)
  {
    if tasks != [] {
      var init := tasks[..|tasks| - 1];
      assert (items + [w])[..|items + [w]| - 1] == items;
      assert NoDuplicates(init);
      SumTotalsSnoc(items, w, init);
      assert w.task in tasks <==> w.task in init || w.task == tasks[|tasks| - 1];
      assert w.task == tasks[|tasks| - 1] ==> w.task !in init;
    }
  }

  /** The grand total equals the sum of the per-task totals, so every duration is counted once. */
  lemma {:induction false} GrandTotal(items: seq<WorkedTime>)
    ensures SumTotals(items, TaskOrder(items)) == TotalDuration(items)
  {
    if items != [] {
      var init := items[..|items| - 1];
      var w := items[|items| - 1];
      assert items == init + [w];
      assert Tasks(items) == Tasks(init) + [w.task];
      GrandTotal(init);
      var order := TaskOrder(init);
      if w.task in Tasks(init) {
        assert TaskOrder(items) == order;
        SumTotalsSnoc(init, w, order);
        DedupSnoc(Tasks(items), |items| - 1);
      } else {
        assert TaskOrder(items) == order + [w.task];
        SumTotalsSnoc(init, w, order);
        AbsentTaskTotal(init, w.task);
        assert (order + [w.task])[..|order|] == order;
      }
    }
  }

  /** A clipboard line: `task, HH:MM:SS`. */
  function Line(task: string, seconds: int): string
  {
    task + ", " + DurationToStr(seconds, true)
  }

  /** Markup of the big label: the total without seconds, and the running total when tracking is shown. */
  function TotalMarkup(total: int, running: Option<int>): string
  {
    match running
    case None => "<span font='monospace bold 24'>" + DurationToStr(total, false) + "</span>"
    case Some(r) =>
      "<span font='monospace bold 24'>" + DurationToStr(total, false) + "</span>\n" +
      "<span font='monospace bold 16' color='grey'>(" + DurationToStr(r, true) + ")</span>"
  }

  class SummaryView {
    /** Rows of the table: task and formatted total. */
    var rows: seq<(string, string)>
    /** The text the copy button puts on the clipboard. */
    var clipboardText: string
    var totalMarkup: string

    constructor()
      ensures rows == [] && clipboardText == ""
      ensures totalMarkup == "<span font='monospace bold 24'>00:00</span>"
    {
      rows := [];
      clipboardText := "";
      totalMarkup := "<span font='monospace bold 24'>00:00</span>";
    }

    /**
     * `set_worked_times_list`: one row and one clipboard line per task, in order
     * of first appearance, each with the sum of that task's durations; the label
     * shows the grand total, plus the total with the running interval when asked
     * to and the tracker is tracking.
     */
    method SetWorkedTimesList(items: seq<WorkedTime>, includeTrackingState: bool,
                              tracking: TrackingStates.TrackerView, now: int)
      modifies this
      ensures rows == Rows(items)
      ensures clipboardText == Join("\n", Lines(items))
      ensures var total := TotalDuration(items);
              totalMarkup == TotalMarkup(total, Running(total, includeTrackingState, tracking, now))
    {
      var model, text, markup := Summarize(items, includeTrackingState, tracking, now);
      Show(model, text, markup);
    }

    /** Fills the ListStore, the clipboard text and the label. */
    method Show(model: seq<(string, string)>, text: string, markup: string)
      modifies this
      ensures rows == model && clipboardText == text && totalMarkup == markup
    {
      rows, clipboardText, totalMarkup := model, text, markup;
    }
  }

  /**
   * The work of `set_worked_times_list` before it touches the widgets: the dict,
   * the ListStore rows, the clipboard lines and the label's markup.
   */
  method Summarize(items: seq<WorkedTime>, includeTrackingState: bool,
                   tracking: TrackingStates.TrackerView, now: int)
    returns (model: seq<(string, string)>, text: string, markup: string)
    ensures model == Rows(items)
    ensures text == Join("\n", Lines(items))
    ensures var total := TotalDuration(items);
            markup == TotalMarkup(total, Running(total, includeTrackingState, tracking, now))
  {
    var order, totals := Aggregate(items);
    AggregatedTotals(items, order, totals);
    text := Join("\n", DictLines(order, totals));
    LinesOfTotals(items, order, totals);
    model := TableRows(order, totals);
    RowsOfTotals(items, order, totals);
    var total := SumOfTotals(items, order, totals);
    markup := TotalMarkup(total, Running(total, includeTrackingState, tracking, now));
  }

  /**
   * The second line of the label: the total with the running interval added,
   * present only when asked for and the tracker is tracking.
   */
  function Running(total: int, includeTrackingState: bool, tracking: TrackingStates.TrackerView, now: int): (r: Option<int>)
    ensures r.Some? <==> includeTrackingState && TrackingStates.Tracking(tracking)
    ensures r.Some? ==> r.value - total == now - tracking.start.value
  {
    if includeTrackingState && TrackingStates.Tracking(tracking)
    then Some(total + TrackingStates.ElapsedTime(tracking, now)) else None
  }

  /** The dict after the aggregation loop: keys in first-seen order, each mapped to its task's total. */
  ghost predicate Aggregated(items: seq<WorkedTime>, order: seq<string>, totals: map<string, int>)
  {
    order == TaskOrder(items) &&
    (forall t :: t in totals <==> t in order) &&
    (forall t :: t in totals ==> totals[t] == TaskTotal(items, t))
  }

  lemma AggregatedTotals(items: seq<WorkedTime>, order: seq<string>, totals: map<string, int>)
    requires Aggregated(items, order, totals)
    ensures forall i :: 0 <= i < |order| ==> order[i] in totals && totals[order[i]] == TaskTotal(items, order[i])
  {
  }

  /** The ListStore's rows built from the dict: each task with its formatted total, in key order. */
  function DictRows(order: seq<string>, totals: map<string, int>): (rs: seq<(string, string)>)
    requires forall i :: 0 <= i < |order| ==> order[i] in totals
    ensures |rs| == |order|
  {
    seq(|order|, i requires 0 <= i < |order| => (order[i], DurationToStr(totals[order[i]], true)))
  }

  /** The clipboard lines built from the dict, in key order. */
  function DictLines(order: seq<string>, totals: map<string, int>): (ls: seq<string>)
    requires forall i :: 0 <= i < |order| ==> order[i] in totals
    ensures |ls| == |order|
  {
    seq(|order|, i requires 0 <= i < |order| => Line(order[i], totals[order[i]]))
  }

  /** The loop filling the ListStore: one appended row per key of the dict. */
  method TableRows(order: seq<string>, totals: map<string, int>) returns (model: seq<(string, string)>)
    requires forall i :: 0 <= i < |order| ==> order[i] in totals
    ensures model == DictRows(order, totals)
  {
    model := [];
    for i := 0 to |order|
      invariant model == DictRows(order, totals)[..i]
    {
      TakeSnoc(DictRows(order, totals), i);
      model := model + [(order[i], DurationToStr(totals[order[i]], true))];
    }
    TakeAll(DictRows(order, totals));
  }

  /** With the aggregated dict, the rows built from it are the rows of the worked times. */
  lemma RowsOfTotals(items: seq<WorkedTime>, order: seq<string>, totals: map<string, int>)
    requires Aggregated(items, order, totals)
    ensures forall i :: 0 <= i < |order| ==> order[i] in totals
    ensures DictRows(order, totals) == Rows(items)
  {
    AggregatedTotals(items, order, totals);
    var model, rows := DictRows(order, totals), Rows(items);
    forall k | 0 <= k < |order|
      ensures model[k] == rows[k]
    {
      assert totals[order[k]] == TaskTotal(items, order[k]);
    }
  }

  /** With the aggregated dict, the lines built from it are the lines of the worked times. */
  lemma LinesOfTotals(items: seq<WorkedTime>, order: seq<string>, totals: map<string, int>)
    requires Aggregated(items, order, totals)
    ensures forall i :: 0 <= i < |order| ==> order[i] in totals
    ensures DictLines(order, totals) == Lines(items)
  {
    AggregatedTotals(items, order, totals);
    var lines, expected := DictLines(order, totals), Lines(items);
    forall k | 0 <= k < |order|
      ensures lines[k] == expected[k]
    {
      assert totals[order[k]] == TaskTotal(items, order[k]);
    }
  }

  /** `sum(durations_by_task.values())`: every duration counted once. */
  method SumOfTotals(items: seq<WorkedTime>, order: seq<string>, totals: map<string, int>)
    returns (total: int)
    requires Aggregated(items, order, totals)
    ensures total == TotalDuration(items)
  {
    total := 0;
    for i := 0 to |order|
      invariant total == SumTotals(items, order[..i])
    {
      assert order[..i + 1][..i] == order[..i];
      total := total + totals[order[i]];
    }
    assert order[..|order|] == order;
    GrandTotal(items);
  }

  /**
   * One pass of the loop keeps the dict aggregated over the items seen so far:
   * `sofar` is what `setdefault` leaves under the task before `+=`.
   */
  lemma AggregateStep(seen: seq<WorkedTime>, w: WorkedTime, order: seq<string>, totals: map<string, int>, sofar: int)
    requires Aggregated(seen, order, totals)
    requires sofar == if w.task in totals then totals[w.task] else 0
    ensures Aggregated(seen + [w], if w.task in totals then order else order + [w.task],
                       totals[w.task := sofar + Duration(w)])
  {
    var totals' := totals[w.task := sofar + Duration(w)];
    TaskOrderSnoc(seen, w);
    assert w.task in totals <==> w.task in order;
    forall t | t in totals'
      ensures totals'[t] == TaskTotal(seen + [w], t)
    {
      StepTotal(seen, w, order, totals, sofar, t);
    }
  }

  /** The key order after one more worked time: its task is appended the first time it is seen. */
  lemma TaskOrderSnoc(seen: seq<WorkedTime>, w: WorkedTime)
    ensures TaskOrder(seen + [w]) ==
              if w.task in TaskOrder(seen) then TaskOrder(seen) else TaskOrder(seen) + [w.task]
  {
    var ts := Tasks(seen + [w]);
    assert ts[..|seen|] == Tasks(seen) && ts[..|seen| + 1] == ts;
    DedupSnoc(ts, |seen|);
  }

  /** The total the loop stores under one task after one more worked time. */
  lemma StepTotal(seen: seq<WorkedTime>, w: WorkedTime, order: seq<string>, totals: map<string, int>, sofar: int, t: string)
    requires Aggregated(seen, order, totals)
    requires sofar == if w.task in totals then totals[w.task] else 0
    requires t in totals || t == w.task
    ensures totals[w.task := sofar + Duration(w)][t] == TaskTotal(seen + [w], t)
  {
    TaskTotalSnoc(seen, w, t);
    if t != w.task {
      assert totals[w.task := sofar + Duration(w)][t] == totals[t];
    } else if w.task !in totals {
      assert t !in Dedup(Tasks(seen));
      AbsentTaskTotal(seen, t);
    }
  }

  /** Appending one worked time adds its duration to its own task's total only. */
  lemma TaskTotalSnoc(seen: seq<WorkedTime>, w: WorkedTime, t: string)
    ensures TaskTotal(seen + [w], t) == TaskTotal(seen, t) + (if w.task == t then Duration(w) else 0)
  {
    assert (seen + [w])[..|seen|] == seen;
  }

  /**
   * The loop building `durations_by_task`: `setdefault` enters a task with zero
   * the first time it is seen, then each duration is added to its task.
   */
  method Aggregate(items: seq<WorkedTime>) returns (order: seq<string>, totals: map<string, int>)
    ensures Aggregated(items, order, totals)
  {
    order, totals := [], map[];
    for i := 0 to |items|
      invariant Aggregated(items[..i], order, totals)
    {
      var w := items[i];
      var sofar := if w.task in totals then totals[w.task] else 0;
      AggregateStep(items[..i], w, order, totals, sofar);
      TakeSnoc(items, i);
      if w.task !in totals {
        order := order + [w.task];
      }
      totals := totals[w.task := sofar + Duration(w)];
    }
    assert items[..|items|] == items;
  }

  /** The table rows, one per task in order of first appearance. */
  function Rows(items: seq<WorkedTime>): (rs: seq<(string, string)>)
    ensures |rs| == |TaskOrder(items)|
  {
    var order := TaskOrder(items);
    seq(|order|, i requires 0 <= i < |order| => (order[i], DurationToStr(TaskTotal(items, order[i]), true)))
  }

  /** The clipboard lines, one per task in order of first appearance. */
  function Lines(items: seq<WorkedTime>): (ls: seq<string>)
    ensures |ls| == |TaskOrder(items)|
  {
    var order := TaskOrder(items);
    seq(|order|, i requires 0 <= i < |order| => Line(order[i], TaskTotal(items, order[i])))
  }

  /**
   * Each task of the worked times has exactly one row, and rows follow the
   * order in which the tasks first appear.
   */
  lemma RowsByFirstAppearance(items: seq<WorkedTime>)
    ensures forall i :: 0 <= i < |items| ==> exists k :: 0 <= k < |Rows(items)| && Rows(items)[k].0 == items[i].task
    ensures forall k, l :: 0 <= k < l < |Rows(items)| ==> Rows(items)[k].0 != Rows(items)[l].0
    ensures forall k, l :: 0 <= k < l < |Rows(items)| ==>
              Rows(items)[k].0 in Tasks(items) && Rows(items)[l].0 in Tasks(items) &&
              FirstIndex(Tasks(items), Rows(items)[k].0) < FirstIndex(Tasks(items), Rows(items)[l].0)
  {
    var order := TaskOrder(items);
    var rows := Rows(items);
    assert forall k :: 0 <= k < |rows| ==> rows[k].0 == order[k];
    forall i | 0 <= i < |items|
      ensures exists k :: 0 <= k < |rows| && rows[k].0 == items[i].task
    {
      assert Tasks(items)[i] in order;
      var k :| 0 <= k < |order| && order[k] == items[i].task;
      assert rows[k].0 == items[i].task;
    }
    forall k, l | 0 <= k < l < |rows|
      ensures rows[k].0 in Tasks(items) && rows[l].0 in Tasks(items)
      ensures FirstIndex(Tasks(items), rows[k].0) < FirstIndex(Tasks(items), rows[l].0)
    {
      DedupOrder(Tasks(items), k, l);
    }
  }

  /** A text whose last three characters are a colon and two digits, as every `%S` field leaves it. */
  predicate EndsInSeconds(s: string)
  {
    |s| >= 3 && s[|s| - 3] == ':' && IsDigit(s[|s| - 2]) && IsDigit(s[|s| - 1])
  }

  lemma LineEnding(task: string, seconds: int)
    ensures EndsInSeconds(Line(task, seconds))
  {
    var (h, m, sec) := Hms(seconds);
    Pad2TwoDigits(sec);
    var l := Line(task, seconds);
    assert l == (task + ", " + Pad2(h) + ":" + Pad2(m)) + ":" + Pad2(sec);
  }

  /** The clipboard text is empty without tasks, and otherwise ends in the last line's seconds, not a newline. */
  lemma ClipboardEnding(items: seq<WorkedTime>)
    ensures var text := Join("\n", Lines(items));
            (TaskOrder(items) == [] ==> text == "") &&
            (TaskOrder(items) != [] ==> EndsInSeconds(text))
  {
    var lines := Lines(items);
    if lines != [] {
      LinesEndInSeconds(items, |lines| - 1);
      JoinedSecondsEnding(lines);
    }
  }

  /** Every clipboard line ends in its task's seconds. */
  lemma LinesEndInSeconds(items: seq<WorkedTime>, i: int)
    requires 0 <= i < |Lines(items)|
    ensures EndsInSeconds(Lines(items)[i])
  {
    var order := TaskOrder(items);
    LineEnding(order[i], TaskTotal(items, order[i]));
  }

  lemma JoinedSecondsEnding(lines: seq<string>)
    requires |lines| > 0
    requires EndsInSeconds(lines[|lines| - 1])
    ensures EndsInSeconds(Join("\n", lines))
  {
    JoinEndsWithLast("\n", lines);
    SuffixEndsInSeconds(Join("\n", lines), lines[|lines| - 1]);
  }

  /** A text that ends with a line ending in seconds ends in those seconds too. */
  lemma SuffixEndsInSeconds(text: string, last: string)
    requires |text| >= |last| && text[|text| - |last|..] == last && EndsInSeconds(last)
    ensures EndsInSeconds(text)
  {
    var tail := text[|text| - |last|..];
    assert tail[|last| - 3] == text[|text| - 3] && tail[|last| - 2] == text[|text| - 2] &&
           tail[|last| - 1] == text[|text| - 1];
  }
}
