/**
 * time_tracker_tray_icon.py: the tray icon's tooltip, its left-click
 * behaviour, its icon and its menu, all read off the tracking state, the
 * actions' enabled flags and the sorted worked-time store.
 */
module TrayIcon {
  import opened Options
  import opened Text
  import opened Distinct
  import opened TrackingStates
  import opened TrackedTimeStore
  import opened Actions
  import SortedStore

  /** The tooltip before `strip()`: one newline-terminated line per part. */
  function RawTooltip(v: TrackerView): string
  {
    (if Tracking(v) then "Working\n" else "Not working\n") +
    (if v.task != "" then "On: " + v.task + "\n" else "") +
    (if v.client != "" then "For: " + v.client + "\n" else "")
  }

  /** `_update_tooltip`'s text. */
  function Tooltip(v: TrackerView): string
  {
    Strip(RawTooltip(v))
  }

  /** The tooltip's lines: the working status, then the task and the client when set. */
  function TooltipLines(v: TrackerView): (lines: seq<string>)
    ensures |lines| >= 1 && lines[0] == (if Tracking(v) then "Working" else "Not working")
    ensures |lines| == 1 + (if v.task != "" then 1 else 0) + (if v.client != "" then 1 else 0)
  {
    [if Tracking(v) then "Working" else "Not working"] +
    (if v.task != "" then ["On: " + v.task] else []) +
    (if v.client != "" then ["For: " + v.client] else [])
  }

  lemma JoinTwo(a: string, b: string)
    ensures Join("\n", [a, b]) + "\n" == (a + "\n") + (b + "\n")
  {
    assert [a, b][1..] == [b];
  }

  lemma JoinThree(a: string, b: string, c: string)
    ensures Join("\n", [a, b, c]) + "\n" == (a + "\n") + (b + "\n") + (c + "\n")
  {
    assert [a, b, c][1..] == [b, c];
    JoinTwo(b, c);
    var rest := Join("\n", [b, c]);
    assert (a + "\n" + rest) + "\n" == (a + "\n") + (rest + "\n");
  }

  /** The raw text is the lines joined by newlines, plus a final newline. */
  lemma RawTooltipIsJoin(v: TrackerView)
    ensures RawTooltip(v) == Join("\n", TooltipLines(v)) + "\n"
  {
    var head := if Tracking(v) then "Working" else "Not working";
    assert (if Tracking(v) then "Working\n" else "Not working\n") == head + "\n";
    JoinedParts(head, v.task, v.client);
  }

  /** Each set part ends in its own newline; joining the parts adds only the last one. */
  lemma JoinedParts(head: string, task: string, client: string)
    ensures var lines := [head] + (if task != "" then ["On: " + task] else []) +
                         (if client != "" then ["For: " + client] else []);
            (head + "\n") + (if task != "" then "On: " + task + "\n" else "") +
            (if client != "" then "For: " + client + "\n" else "") == Join("\n", lines) + "\n"
  {
    if task != "" && client != "" {
      JoinThree(head, "On: " + task, "For: " + client);
    } else if task != "" {
      JoinTwo(head, "On: " + task);
    } else if client != "" {
      JoinTwo(head, "For: " + client);
    } else {
      assert [head] + [] + [] == [head];
    }
  }

  /**
   * The tooltip is its lines joined by newlines, with trailing whitespace
   * removed: the status line first, then "On: task" and "For: client" only
   * for labels that are set.
   */
  lemma TooltipIsStrippedJoin(v: TrackerView)
    ensures Tooltip(v) == RStrip(Join("\n", TooltipLines(v)))
  {
    var raw := RawTooltip(v);
    assert LStrip(raw) == raw by {
      assert !IsSpace(raw[0]);
    }
    RawTooltipIsJoin(v);
    RStripNewline(Join("\n", TooltipLines(v)));
  }

  /** The tooltip starts with its status line, "Working" or "Not working", and never ends in a newline. */
  lemma TooltipStatusLine(v: TrackerView)
    ensures var head := TooltipLines(v)[0];
            |Tooltip(v)| >= |head| && Tooltip(v)[..|head|] == head && Tooltip(v)[|Tooltip(v)| - 1] != '\n'
  {
    TooltipIsStrippedJoin(v);
    StatusLineEnd(v);
    StrippedJoinStartsWithFirst(TooltipLines(v));
    assert IsSpace('\n');
  }

  /** Both status lines end in a letter. */
  lemma StatusLineEnd(v: TrackerView)
    ensures var head := TooltipLines(v)[0];
            |head| > 0 && !IsSpace(head[|head| - 1])
  {
  }

  lemma StrippedJoinStartsWithFirst(lines: seq<string>)
    requires |lines| > 0 && |lines[0]| > 0 && !IsSpace(lines[0][|lines[0]| - 1])
    ensures var t := RStrip(Join("\n", lines));
            |t| >= |lines[0]| && t[..|lines[0]|] == lines[0] && !IsSpace(t[|t| - 1])
  {
    JoinStartsWithFirst(lines);
    RStripKeeps(Join("\n", lines), |lines[0]|);
  }

  lemma RStripNewline(s: string)
    ensures RStrip(s + "\n") == RStrip(s)
  {
    assert (s + "\n")[..|s|] == s;
  }

  /** A newline join starts with its first part. */
  lemma JoinStartsWithFirst(parts: seq<string>)
    requires |parts| > 0
    ensures |Join("\n", parts)| >= |parts[0]| && Join("\n", parts)[..|parts[0]|] == parts[0]
  {
  }

  /** Right-stripping keeps a prefix that ends in a non-space character. */
  lemma {:induction false} RStripKeeps(s: string, k: nat)
    requires 0 < k <= |s| && !IsSpace(s[k - 1])
    ensures |RStrip(s)| >= k && RStrip(s)[..k] == s[..k]
    decreases |s|
  {
    if IsSpace(s[|s| - 1]) {
      RStripKeeps(s[..|s| - 1], k);
    }
  }

  /** What a left click on the icon does. */
  datatype Click = ActivateStart | ActivateStop | ActivateApplication

  /** `on_left_click`: start if possible, else stop if possible, else open the window. */
  function LeftClick(v: TrackerView): (c: Click)
    ensures c == ActivateStart <==> !Tracking(v)
    ensures c == ActivateStop <==> Tracking(v) && ClientAndTaskSet(v)
    ensures c == ActivateApplication <==> Tracking(v) && !ClientAndTaskSet(v)
  {
    if Enabled(v, Start) then ActivateStart
    else if Enabled(v, Stop) then ActivateStop
    else ActivateApplication
  }

  /** `_update_icon`'s choice, by the same priority as the left click. */
  function IconName(v: TrackerView): string
  {
    if Enabled(v, Start) then "start-tracking"
    else if Enabled(v, Stop) then "stop-tracking"
    else "stop-tracking-disabled"
  }

  /** The icon always shows what a left click will do, and a click activates only an enabled action. */
  lemma IconShowsClick(v: TrackerView)
    ensures IconName(v) == "start-tracking" <==> LeftClick(v) == ActivateStart
    ensures IconName(v) == "stop-tracking" <==> LeftClick(v) == ActivateStop
    ensures IconName(v) == "stop-tracking-disabled" <==> LeftClick(v) == ActivateApplication
    ensures LeftClick(v) == ActivateStart ==> Enabled(v, Start)
    ensures LeftClick(v) == ActivateStop ==> Enabled(v, Stop)
  {
  }

  /**
   * The left-click handler: exactly one of starting, stopping or opening the
   * window happens, and a stop hands back its worked time.
   */
  method OnLeftClick(state: TrackingState, now: int) returns (emitted: Option<WorkedTime>, windowOpened: bool)
    requires state.Valid()
    modifies state
    ensures windowOpened <==> LeftClick(old(state.View())) == ActivateApplication
    ensures LeftClick(old(state.View())) == ActivateStart ==>
      state.View() == Handle(old(state.View()), Start, now).view && emitted.None?
    ensures LeftClick(old(state.View())) == ActivateStop ==>
      state.View() == Handle(old(state.View()), Stop, now).view && emitted == Handle(old(state.View()), Stop, now).emitted
    ensures windowOpened ==> unchanged(state) && emitted.None?
    ensures state.Valid()
    ensures !windowOpened ==> state.saved == Some(SnapshotOf(state.View()))
  {
    var click := LeftClick(state.View());
    emitted, windowOpened := None, false;
    if click == ActivateStart {
      StartTracking(state, now);
    } else if click == ActivateStop {
      var w := StopTracking(state, now);
      emitted := Some(w);
    } else {
      windowOpened := true;
    }
  }

  /** The client menu item: "Set Client" while no client is set, else "Client: " and the name. */
  function ClientLabel(client: string): string
  {
    if client == "" then "Set Client" else "Client: " + client
  }

  /** The task menu item, by the same rule. */
  function TaskLabel(task: string): string
  {
    if task == "" then "Set Task" else "Task: " + task
  }

  /** Each label names its value, so different clients or tasks never share a label. */
  lemma LabelsIdentify(a: string, b: string)
    ensures ClientLabel(a) == "Set Client" <==> a == ""
    ensures a != "" ==> ClientLabel(a)[|"Client: "|..] == a
    ensures ClientLabel(a) == ClientLabel(b) ==> a == b
    ensures TaskLabel(a) == "Set Task" <==> a == ""
    ensures a != "" ==> TaskLabel(a)[|"Task: "|..] == a
    ensures TaskLabel(a) == TaskLabel(b) ==> a == b
  {
    if a != "" && b != "" && ClientLabel(a) == ClientLabel(b) {
      assert a == ClientLabel(a)[|"Client: "|..];
    }
    if a != "" && b != "" && TaskLabel(a) == TaskLabel(b) {
      assert a == TaskLabel(a)[|"Task: "|..];
    }
    if a == "" && b != "" {
      assert ClientLabel(b)[0] == 'C';
      assert TaskLabel(b)[0] == 'T';
    }
    if a != "" && b == "" {
      assert ClientLabel(a)[0] == 'C';
      assert TaskLabel(a)[0] == 'T';
    }
  }

  /** One entry of the secondary menu. */
  datatype MenuItem =
    | LabelItem(text: string)
    | Separator
    | RecentWork(text: string, client: string, task: string)
    | AbortItem
    | QuitItem

  /** A recent-work entry for a stored (task, client) pair: labelled client first, bound to (client, task). */
  function RecentWorkItem(pair: (string, string)): MenuItem
  {
    RecentWork("▶ " + pair.1 + " - " + pair.0, pair.1, pair.0)
  }

  /**
   * `_update_menu`: client and task items, a separator, one entry per recent
   * pair, a separator, Abort and Quit.
   */
  method UpdateMenu(state: TrackingState, store: SortedStore.WorkedTimeStore) returns (menu: seq<MenuItem>)
    ensures var pairs := MostRecent(SortedStore.RowPairs(store.rows), 5);
            |menu| == |pairs| + 6 &&
            menu[..3] == [LabelItem(ClientLabel(state.client)), LabelItem(TaskLabel(state.task)), Separator] &&
            (forall i :: 0 <= i < |pairs| ==> menu[3 + i] == RecentWorkItem(pairs[i])) &&
            menu[|menu| - 3..] == [Separator, AbortItem, QuitItem]
  {
    var pairs := store.MostRecentWorkedTasksAndClients(5);
    menu := BuildMenu(state.client, state.task, pairs);
  }

  /**
   * The menu both trays build: client and task items, a separator, one entry
   * per recent pair in the given order, a separator, Abort and Quit.
   */
  method BuildMenu(client: string, task: string, pairs: seq<(string, string)>) returns (menu: seq<MenuItem>)
    ensures |menu| == |pairs| + 6
    ensures menu[..3] == [LabelItem(ClientLabel(client)), LabelItem(TaskLabel(task)), Separator]
    ensures forall i :: 0 <= i < |pairs| ==> menu[3 + i] == RecentWorkItem(pairs[i])
    ensures menu[|menu| - 3..] == [Separator, AbortItem, QuitItem]
  {
    menu := [LabelItem(ClientLabel(client)), LabelItem(TaskLabel(task)), Separator];
    var i := 0;
    while i < |pairs|
      invariant 0 <= i <= |pairs|
      invariant |menu| == 3 + i
      invariant menu[..3] == [LabelItem(ClientLabel(client)), LabelItem(TaskLabel(task)), Separator]
      invariant forall j :: 0 <= j < i ==> menu[3 + j] == RecentWorkItem(pairs[j])
    {
      menu := menu + [RecentWorkItem(pairs[i])];
      i := i + 1;
    }
    menu := menu + [Separator, AbortItem, QuitItem];
  }

  /**
   * The recent-work part of the menu: at most five entries, no (client, task)
   * twice, every one a pair some stored row holds, most recent start first.
   */
  lemma RecentMenu(rows: seq<SortedStore.Row>)
    ensures var pairs := MostRecent(SortedStore.RowPairs(rows), 5);
            |pairs| <= 5 &&
            (forall i, j :: 0 <= i < j < |pairs| ==> RecentWorkItem(pairs[i]) != RecentWorkItem(pairs[j])) &&
            (forall i :: 0 <= i < |pairs| ==>
               exists k :: 0 <= k < |rows| && rows[k].task == RecentWorkItem(pairs[i]).task &&
                           rows[k].client == RecentWorkItem(pairs[i]).client)
  {
    var scan := SortedStore.RowPairs(rows);
    var pairs := MostRecent(scan, 5);
    MostRecentSize(scan, 5);
    MostRecentDistinct(scan, 5);
    MostRecentMembers(scan, 5);
    forall i | 0 <= i < |pairs|
      ensures exists k :: 0 <= k < |rows| && rows[k].task == RecentWorkItem(pairs[i]).task &&
                          rows[k].client == RecentWorkItem(pairs[i]).client
    {
      assert pairs[i] in pairs;
      var k :| 0 <= k < |scan| && scan[k] == pairs[i];
      assert rows[k].task == pairs[i].0;
    }
  }
}
