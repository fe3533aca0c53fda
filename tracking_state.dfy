/**
 * tracking_state.py: what the tracker is doing right now (an optional start
 * time, a task label and a client label) and the JSON snapshot it keeps on
 * disk. Start times are whole seconds.
 */
module TrackingStates {
  import opened Options
  import Text

  /** The three observable properties of the state, as a value. */
  datatype TrackerView = TrackerView(start: Option<int>, task: string, client: string)

  /** `is_tracking`: a start time is present. */
  predicate Tracking(v: TrackerView)
  {
    v.start.Some?
  }

  /** `is_client_and_task_set`: neither label is empty. */
  predicate ClientAndTaskSet(v: TrackerView)
  {
    v.client != "" && v.task != ""
  }

  /** `elapsed_time`: the time since the start, or zero while idle. */
  function ElapsedTime(v: TrackerView, now: int): (d: int)
    ensures !Tracking(v) ==> d == 0
    ensures Tracking(v) ==> v.start.value + d == now
  {
    match v.start
    case None => 0
    case Some(s) => now - s
  }

  /** The default property values: no start time and two empty labels. */
  const Initial: TrackerView := TrackerView(None, "", "")

  /** The JSON object `_save` writes; a None start time is JSON null. */
  datatype Snapshot = Snapshot(startTime: Option<string>, task: string, client: string)

  function SnapshotOf(v: TrackerView): (s: Snapshot)
    ensures s.startTime.None? <==> !Tracking(v)
    ensures s.task == v.task && s.client == v.client
  {
    Snapshot(if v.start.Some? then Some(Text.TimestampText(v.start.value)) else None, v.task, v.client)
  }

  /**
   * `_load`'s reading of the stored start time: null and "" mean idle, and text
   * the parser rejects also leaves no start time.
   */
  function LoadStart(stored: Option<string>): (start: Option<int>)
    ensures stored.None? ==> start.None?
    ensures stored == Some("") ==> start.None?
  {
    match stored
    case None => None
    case Some(text) => if text == "" then None else Text.ParseTimestamp(text)
  }

  function Restore(s: Snapshot): (v: TrackerView)
    ensures v.task == s.task && v.client == s.client
  {
    TrackerView(LoadStart(s.startTime), s.task, s.client)
  }

  /** Loading what `_save` wrote gives back the same state. */
  lemma SnapshotRoundTrip(v: TrackerView)
    ensures Restore(SnapshotOf(v)) == v
  {
    if v.start.Some? {
      Text.TimestampRoundTrip(v.start.value);
    }
  }

  class TrackingState {
    var start: Option<int>
    var task: string
    var client: string
    /** Content of the state file; None while there is no file. */
    ghost var saved: Option<Snapshot>

    function View(): TrackerView
      reads this
    {
      TrackerView(start, task, client)
    }

    /** Reading the state file back, if there is one, restores the current state. */
    ghost predicate Valid()
      reads this
    {
      saved.None? || Restore(saved.value) == View()
    }

    /**
     * `__init__` and `_load`: the fields take the defaults, then the file's
     * values if a file exists. Saving is hooked up only afterwards, so loading
     * writes nothing.
     */
    constructor(file: Option<Snapshot>)
      ensures Valid()
      ensures file.None? ==> View() == Initial
      ensures file.Some? ==> View() == Restore(file.value)
      ensures saved == file
    {
      saved := file;
      match file
      case None =>
        start, task, client := None, "", "";
      case Some(s) =>
        start, task, client := LoadStart(s.startTime), s.task, s.client;
    }

    /** Every property assignment notifies, and every notification saves. */
    method SetStart(t: Option<int>)
      modifies this
      ensures View() == old(View()).(start := t)
      ensures saved == Some(SnapshotOf(View()))
      ensures Valid()
    {
      start := t;
      saved := Some(SnapshotOf(View()));
      SnapshotRoundTrip(View());
    }

    method SetTask(t: string)
      modifies this
      ensures View() == old(View()).(task := t)
      ensures saved == Some(SnapshotOf(View()))
      ensures Valid()
    {
      task := t;
      saved := Some(SnapshotOf(View()));
      SnapshotRoundTrip(View());
    }

    method SetClient(c: string)
      modifies this
      ensures View() == old(View()).(client := c)
      ensures saved == Some(SnapshotOf(View()))
      ensures Valid()
    {
      client := c;
      saved := Some(SnapshotOf(View()));
      SnapshotRoundTrip(View());
    }
  }
}
