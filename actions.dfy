/**
 * actions.py: the four application actions (Start, SetCurrentTask, Stop and
 * Abort) over the shared tracking state. Each action is enabled by a predicate
 * of the state that its `_update_enabled_state` recomputes on every change
 * notification, and a disabled action ignores activation. The wall clock is
 * the parameter `now`.
 */
module Actions {
  import opened Options
  import opened TrackingStates
  import opened TrackedTimeStore

  /** An activation; SetCurrentTask carries its `(ss)` parameter in (client, task) order. */
  datatype Action = Start | SetCurrentTask(client: string, task: string) | Stop | Abort

  /** `_update_enabled_state` of each action. */
  predicate Enabled(v: TrackerView, a: Action)
  {
    match a
    case Start => !Tracking(v)
    case SetCurrentTask(_, _) => !Tracking(v) || !ClientAndTaskSet(v)
    case Stop => ClientAndTaskSet(v) && Tracking(v)
    case Abort => Tracking(v)
  }

  /** Exactly one of Start and Abort is enabled, and exactly one of SetCurrentTask and Stop. */
  lemma EnabledComplements(v: TrackerView, client: string, task: string)
    ensures Enabled(v, Start) <==> !Enabled(v, Abort)
    ensures Enabled(v, SetCurrentTask(client, task)) <==> !Enabled(v, Stop)
    ensures Enabled(v, Stop) ==> Enabled(v, Abort)
  {
  }

  /** The state after a handler and the worked time it emits, if any. */
  datatype Outcome = Outcome(view: TrackerView, emitted: Option<WorkedTime>)

  /** What the handler of an enabled action does. */
  function Handle(v: TrackerView, a: Action, now: int): (o: Outcome)
    requires Enabled(v, a)
    ensures o.emitted.Some? <==> a.Stop?
    ensures Tracking(o.view) <==> a.Start? || a.SetCurrentTask?
    ensures !a.SetCurrentTask? ==> o.view.task == v.task && o.view.client == v.client
    ensures o.view.start == None || o.view.start == Some(now) || o.view.start == v.start
  {
    match a
    case Start => Outcome(v.(start := Some(now)), None)
    case SetCurrentTask(client, task) =>
      var labelled := v.(task := task, client := client);
      Outcome(if Tracking(v) then labelled else labelled.(start := Some(now)), None)
    case Stop =>
      Outcome(v.(start := None), Some(WorkedTime(v.start.value, now, v.task, v.client)))
    case Abort => Outcome(v.(start := None), None)
  }

  /**
   * Stop records the interval from the state's start to `now` under the
   * state's labels, so its duration is the elapsed time shown at that moment,
   * and it keeps both labels.
   */
  lemma StopRecordsElapsed(v: TrackerView, now: int)
    requires Enabled(v, Stop)
    ensures var o := Handle(v, Stop, now);
            o.emitted.value.startTime == v.start.value && o.emitted.value.endTime == now &&
            o.emitted.value.task == v.task && o.emitted.value.client == v.client &&
            Duration(o.emitted.value) == ElapsedTime(v, now) &&
            o.view == v.(start := None)
  {
  }

  /** SetCurrentTask replaces both labels and keeps a start time that is already running. */
  lemma SetCurrentTaskKeepsRunningStart(v: TrackerView, client: string, task: string, now: int)
    requires Enabled(v, SetCurrentTask(client, task))
    ensures var o := Handle(v, SetCurrentTask(client, task), now);
            o.view.task == task && o.view.client == client &&
            (Tracking(v) ==> o.view.start == v.start) &&
            (!Tracking(v) ==> o.view.start == Some(now))
  {
  }

  /** Activation of any action: a disabled action does nothing. */
  function Dispatch(v: TrackerView, a: Action, now: int): (o: Outcome)
    ensures !Enabled(v, a) ==> o == Outcome(v, None)
    ensures Enabled(v, a) ==> o == Handle(v, a, now)
  {
    if Enabled(v, a) then Handle(v, a, now) else Outcome(v, None)
  }

  /** One activation and the clock reading at that moment. */
  datatype Event = Event(action: Action, now: int)

  /** Final state and all emitted worked times after a sequence of activations. */
  function Run(v: TrackerView, events: seq<Event>): (TrackerView, seq<WorkedTime>)
    decreases |events|
  {
    if events == [] then (v, [])
    else
      var o := Dispatch(v, events[0].action, events[0].now);
      var rest := Run(o.view, events[1..]);
      (rest.0, (if o.emitted.Some? then [o.emitted.value] else []) + rest.1)
  }

  /** A clock that never runs backwards and never reads earlier than `lo`. */
  predicate ClockFrom(events: seq<Event>, lo: int)
  {
    (forall i :: 0 <= i < |events| ==> lo <= events[i].now) &&
    (forall i, j :: 0 <= i < j < |events| ==> events[i].now <= events[j].now)
  }

  /** A recorded interval that carries both labels and does not end before it starts. */
  predicate WellFormed(w: WorkedTime)
  {
    w.task != "" && w.client != "" && w.startTime <= w.endTime
  }

  /** One activation at time `t`: what the run-level properties need to know about it. */
  lemma DispatchStep(v: TrackerView, a: Action, t: int)
    ensures var o := Dispatch(v, a, t);
            (o.emitted.Some? ==> Tracking(v) && ClientAndTaskSet(v) && !Tracking(o.view) &&
                                 o.emitted.value == WorkedTime(v.start.value, t, v.task, v.client)) &&
            (o.emitted.None? && Tracking(o.view) ==> o.view.start == Some(t) || o.view.start == v.start)
  {
  }

  /** Recorded intervals that never overlap, in time order. */
  predicate Chronological(e: seq<WorkedTime>)
  {
    forall i, j :: 0 <= i < j < |e| ==> e[i].endTime <= e[j].startTime
  }

  /** Every interval ends no earlier than `lo`, and is well formed. */
  predicate EndsFrom(e: seq<WorkedTime>, lo: int)
  {
    forall i :: 0 <= i < |e| ==> WellFormed(e[i]) && lo <= e[i].endTime
  }

  /** Every interval starts no earlier than `lo`, except a first one that continues `start`. */
  predicate StartsFrom(e: seq<WorkedTime>, lo: int, start: Option<int>)
  {
    forall i :: 0 <= i < |e| ==> lo <= e[i].startTime || (i == 0 && start == Some(e[0].startTime))
  }

  /**
   * With a monotone clock, every recorded interval is well formed, the
   * intervals come out in time order without overlapping, and all but a first
   * one continuing the initial tracking begin no earlier than `lo`.
   */
  lemma {:induction false} RunChronological(v: TrackerView, events: seq<Event>, lo: int)
    requires ClockFrom(events, lo)
    requires Tracking(v) ==> v.start.value <= lo
    ensures EndsFrom(Run(v, events).1, lo)
    ensures StartsFrom(Run(v, events).1, lo, v.start)
    ensures Chronological(Run(v, events).1)
    decreases |events|
  {
    if events != [] {
      var t := events[0].now;
      var o := Dispatch(v, events[0].action, t);
      DispatchStep(v, events[0].action, t);
      assert ClockFrom(events[1..], t);
      RunChronological(o.view, events[1..], t);
      var rest := Run(o.view, events[1..]).1;
      var e := Run(v, events).1;
      if o.emitted.Some? {
        assert e == [o.emitted.value] + rest;
        assert forall j :: 0 <= j < |rest| ==> t <= rest[j].startTime;
      } else {
        assert e == rest;
      }
    }
  }

  /** Abort never records anything: a run of aborts alone emits no worked time. */
  lemma {:induction false} AbortsRecordNothing(v: TrackerView, events: seq<Event>)
    requires forall i :: 0 <= i < |events| ==> events[i].action == Abort
    ensures Run(v, events).1 == []
    ensures Run(v, events).0.task == v.task && Run(v, events).0.client == v.client
    decreases |events|
  {
    if events != [] {
      var o := Dispatch(v, Abort, events[0].now);
      AbortsRecordNothing(o.view, events[1..]);
    }
  }

  /**
   * The handlers as written store `time.time()` floats and `-1` into a
   * property typed `GLib.DateTime`; the property refuses them with a
   * TypeError, so the assignment leaves the start time as it was. Stop's
   * first check, `start_time >= 0` on a `GLib.DateTime`, raises before
   * anything is emitted. Only SetCurrentTask's two label assignments land.
   */
  function HandleAsWritten(v: TrackerView, a: Action, now: int): (o: Outcome)
    requires Enabled(v, a)
    ensures o.view.start == v.start && o.emitted.None?
  {
    match a
    case SetCurrentTask(client, task) => Outcome(v.(task := task, client := client), None)
    case _ => Outcome(v, None)
  }

  function DispatchAsWritten(v: TrackerView, a: Action, now: int): Outcome
  {
    if Enabled(v, a) then HandleAsWritten(v, a, now) else Outcome(v, None)
  }

  function RunAsWritten(v: TrackerView, events: seq<Event>): (TrackerView, seq<WorkedTime>)
    decreases |events|
  {
    if events == [] then (v, [])
    else
      var o := DispatchAsWritten(v, events[0].action, events[0].now);
      var rest := RunAsWritten(o.view, events[1..]);
      (rest.0, (if o.emitted.Some? then [o.emitted.value] else []) + rest.1)
  }

  /** As written, no sequence of activations changes whether the tracker is tracking or records a worked time. */
  lemma {:induction false} AsWrittenTrackingFrozen(v: TrackerView, events: seq<Event>)
    ensures RunAsWritten(v, events).0.start == v.start
    ensures RunAsWritten(v, events).1 == []
    decreases |events|
  {
    if events != [] {
      var o := DispatchAsWritten(v, events[0].action, events[0].now);
      AsWrittenTrackingFrozen(o.view, events[1..]);
    }
  }

  /** Start then Stop on an idle tracker with both labels set: one interval as intended, none as written. */
  lemma StartStopExample()
    ensures var v := TrackerView(None, "report", "acme");
            var events := [Event(Start, 100), Event(Stop, 160)];
            Run(v, events) == (v, [WorkedTime(100, 160, "report", "acme")]) &&
            RunAsWritten(v, events) == (v, [])
  {
    var v := TrackerView(None, "report", "acme");
    var events := [Event(Start, 100), Event(Stop, 160)];
    var w := WorkedTime(100, 160, "report", "acme");
    var started := v.(start := Some(100));
    assert Dispatch(v, events[0].action, events[0].now) == Outcome(started, None);
    var tail := events[1..];
    assert tail[0] == Event(Stop, 160) && tail[1..] == [];
    var o := Dispatch(started, tail[0].action, tail[0].now);
    assert o == Outcome(v, Some(w));
    var rest := Run(o.view, tail[1..]);
    assert rest == (v, []);
    assert Run(started, tail) == (rest.0, [w] + rest.1);
    assert [w] + rest.1 == [w];
    var after := Run(started, tail);
    assert Run(v, events) == (after.0, [] + after.1);
    assert [] + after.1 == after.1;
    AsWrittenTrackingFrozen(v, events);
  }

  /** Start: the handler stores `now` as the start time. */
  method StartTracking(state: TrackingState, now: int)
    requires Enabled(state.View(), Start)
    modifies state
    ensures state.View() == Handle(old(state.View()), Start, now).view
    ensures state.saved == Some(SnapshotOf(state.View())) && state.Valid()
  {
    state.SetStart(Some(now));
  }

  /** SetCurrentTask: task, then client, then the start time when idle; each assignment saves. */
  method SetCurrentTaskTracking(state: TrackingState, client: string, task: string, now: int)
    requires Enabled(state.View(), SetCurrentTask(client, task))
    modifies state
    ensures state.View() == Handle(old(state.View()), SetCurrentTask(client, task), now).view
    ensures state.saved == Some(SnapshotOf(state.View())) && state.Valid()
  {
    state.SetTask(task);
    state.SetClient(client);
    if state.start.None? {
      state.SetStart(Some(now));
    }
  }

  /** Stop: emits the interval, then clears the start time. */
  method StopTracking(state: TrackingState, now: int) returns (w: WorkedTime)
    requires Enabled(state.View(), Stop)
    modifies state
    ensures Some(w) == Handle(old(state.View()), Stop, now).emitted
    ensures state.View() == Handle(old(state.View()), Stop, now).view
    ensures state.saved == Some(SnapshotOf(state.View())) && state.Valid()
  {
    w := WorkedTime(state.start.value, now, state.task, state.client);
    state.SetStart(None);
  }

  /** Abort: clears the start time and emits nothing. */
  method AbortTracking(state: TrackingState)
    requires Enabled(state.View(), Abort)
    modifies state
    ensures state.View() == Handle(old(state.View()), Abort, 0).view
    ensures state.saved == Some(SnapshotOf(state.View())) && state.Valid()
  {
    state.SetStart(None);
  }

  /** `Gio.SimpleAction.activate`: runs the handler only when the action is enabled. */
  method Activate(state: TrackingState, a: Action, now: int) returns (emitted: Option<WorkedTime>)
    requires state.Valid()
    modifies state
    ensures Outcome(state.View(), emitted) == Dispatch(old(state.View()), a, now)
    ensures state.Valid()
    ensures Enabled(old(state.View()), a) ==> state.saved == Some(SnapshotOf(state.View()))
    ensures !Enabled(old(state.View()), a) ==> unchanged(state)
  {
    emitted := None;
    if Enabled(state.View(), a) {
      match a
      case Start => StartTracking(state, now);
      case SetCurrentTask(client, task) => SetCurrentTaskTracking(state, client, task, now);
      case Stop =>
        var w := StopTracking(state, now);
        emitted := Some(w);
      case Abort => AbortTracking(state);
    }
  }
}
