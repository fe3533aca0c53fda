/**
 * simple_time_tracker.py: the older single-file tracker. Its state keeps the
 * start time as a number with `-1` for "not tracking", and tracking means a
 * start time of at least zero. The four actions and their enabled predicates
 * are those of actions.py, written against that sentinel; every worked time
 * Stop emits is appended to the list store, and then the tray menu is
 * rebuilt from it. The list store and the tray rules are the ones modelled in
 * TrackedTimeStore and TrayIcon.
 */
module SimpleTimeTracker {
  import opened Options
  import opened Distinct
  import opened TrackingStates
  import opened TrackedTimeStore
  import opened Actions
  import TrayIcon

  /** The sentinel of the `start_time` property. */
  const NotTracking: int := -1

  /** How the sentinel encodes the optional start time of the newer state. */
  function StartOf(startTime: int): (s: Option<int>)
    ensures s.Some? <==> startTime >= 0
    ensures s.Some? ==> s.value == startTime
  {
    if startTime >= 0 then Some(startTime) else None
  }

  class SentinelState {
    var startTime: int
    var task: string
    var client: string

    /** The state as the newer TrackingState's three properties. */
    function View(): TrackerView
      reads this
    {
      TrackerView(StartOf(startTime), task, client)
    }

    /** The property defaults: start time -1 and empty labels, so not tracking. */
    constructor()
      ensures startTime == NotTracking && task == "" && client == ""
      ensures View() == Initial && !Tracking(View())
    {
      startTime, task, client := NotTracking, "", "";
    }

    /** `_start_tracking`. */
    method Start(now: int)
      requires Enabled(View(), Actions.Start)
      modifies this
      ensures startTime == now && task == old(task) && client == old(client)
      ensures now >= 0 ==> View() == Handle(old(View()), Actions.Start, now).view
    {
      startTime := now;
    }

    /** `_start_tracking_task`: the parameter comes in (client, task) order. */
    method SetCurrentTask(client': string, task': string, now: int)
      requires Enabled(View(), Actions.SetCurrentTask(client', task'))
      modifies this
      ensures task == task' && client == client'
      ensures startTime == if old(startTime) >= 0 then old(startTime) else now
      ensures now >= 0 ==> View() == Handle(old(View()), Actions.SetCurrentTask(client', task'), now).view
    {
      task := task';
      client := client';
      if !(startTime >= 0) {
        startTime := now;
      }
    }

    /** `_stop_tracking`: its assertions are the enabled predicate; the start returns to -1. */
    method Stop(now: int) returns (w: WorkedTime)
      requires Enabled(View(), Actions.Stop)
      modifies this
      ensures w == WorkedTime(old(startTime), now, old(task), old(client))
      ensures startTime == NotTracking && task == old(task) && client == old(client)
      ensures View() == Handle(old(View()), Actions.Stop, now).view
      ensures Some(w) == Handle(old(View()), Actions.Stop, now).emitted
    {
      w := WorkedTime(startTime, now, task, client);
      startTime := NotTracking;
    }

    /** `_abort_tracking`. */
    method Abort()
      requires Enabled(View(), Actions.Abort)
      modifies this
      ensures startTime == NotTracking && task == old(task) && client == old(client)
      ensures forall now :: View() == Handle(old(View()), Actions.Abort, now).view
    {
      startTime := NotTracking;
    }

    /**
     * `Gio.SimpleAction.activate` on one of the four actions: a disabled
     * action ignores it. With a clock reading of at least zero the sentinel
     * state moves exactly as the newer state machine does.
     */
    method Activate(a: Action, now: int) returns (emitted: Option<WorkedTime>)
      modifies this
      ensures emitted.Some? <==> a.Stop? && Enabled(old(View()), a)
      ensures now >= 0 ==> Outcome(View(), emitted) == Dispatch(old(View()), a, now)
      ensures !Enabled(old(View()), a) ==> startTime == old(startTime) && task == old(task) && client == old(client)
    {
      emitted := None;
      if Enabled(View(), a) {
        match a
        case Start => Start(now);
        case SetCurrentTask(c, t) => SetCurrentTask(c, t, now);
        case Stop =>
          var w := Stop(now);
          emitted := Some(w);
        case Abort => Abort();
      }
    }
  }

  /**
   * `TimerTrackerApplication`'s wiring: the worked time Stop emits is added
   * to the store (line 446), and the tray menu is rebuilt afterwards.
   */
  method ActivateAndRecord(state: SentinelState, store: WorkedTimeStore, a: Action, now: int)
    returns (emitted: Option<WorkedTime>)
    modifies state, store
    ensures now >= 0 ==> Outcome(state.View(), emitted) == Dispatch(old(state.View()), a, now)
    ensures emitted.None? ==> store.workedTimes == old(store.workedTimes)
    ensures emitted.Some? ==> store.workedTimes == old(store.workedTimes) + [emitted.value]
    ensures store.saved == if emitted.Some? then Some(SaveTimes(store.workedTimes)) else old(store.saved)
  {
    emitted := state.Activate(a, now);
    if emitted.Some? {
      store.AddWorkedTime(emitted.value);
    }
  }

  /**
   * The single-file tray's `_update_menu`: the same items as the newer tray,
   * with the recent pairs taken from the list store, newest insertion first.
   */
  method UpdateMenu(state: SentinelState, store: WorkedTimeStore) returns (menu: seq<TrayIcon.MenuItem>)
    ensures var pairs := MostRecent(Reverse(PairsOf(store.workedTimes)), 5);
            |menu| == |pairs| + 6 &&
            menu[..3] == [TrayIcon.LabelItem(TrayIcon.ClientLabel(state.client)),
                          TrayIcon.LabelItem(TrayIcon.TaskLabel(state.task)), TrayIcon.Separator] &&
            (forall i :: 0 <= i < |pairs| ==> menu[3 + i] == TrayIcon.RecentWorkItem(pairs[i])) &&
            menu[|menu| - 3..] == [TrayIcon.Separator, TrayIcon.AbortItem, TrayIcon.QuitItem]
  {
    var pairs := store.MostRecentWorkedTasksAndClients(5);
    menu := TrayIcon.BuildMenu(state.client, state.task, pairs);
  }

  /**
   * After a Stop is recorded, the rebuilt menu offers the stopped (client,
   * task) first, since the list store yields the latest insertion first.
   */
  lemma StoppedWorkFirstInMenu(ts: seq<WorkedTime>, w: WorkedTime)
    ensures var pairs := MostRecent(Reverse(PairsOf(ts + [w])), 5);
            |pairs| >= 1 && TrayIcon.RecentWorkItem(pairs[0]) == TrayIcon.RecentWork("▶ " + w.client + " - " + w.task, w.client, w.task)
  {
    var scan := Reverse(PairsOf(ts + [w]));
    assert scan[0] == (w.task, w.client);
    MostRecentHead(scan, 5);
  }
}
