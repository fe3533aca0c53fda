/**
 * tracked_time_store.py: the WorkedTime record and the append-only list
 * store that saves itself as a JSON array after every change.
 */
module TrackedTimeStore {
  import opened Options
  import Text
  import opened Distinct

  /** One recorded interval; times are whole seconds. */
  datatype WorkedTime = WorkedTime(startTime: int, endTime: int, task: string, client: string)

  function Duration(w: WorkedTime): int
  {
    w.endTime - w.startTime
  }

  /** The JSON object `asdict()` produces: both times as text. */
  datatype WorkedTimeDict = WorkedTimeDict(startTime: string, endTime: string, task: string, client: string)

  function AsDict(w: WorkedTime): WorkedTimeDict
  {
    WorkedTimeDict(Text.TimestampText(w.startTime), Text.TimestampText(w.endTime), w.task, w.client)
  }

  /** `WorkedTime(**d)` with `__post_init__` parsing both texts; None is the parser's ValueError. */
  function FromDict(d: WorkedTimeDict): Option<WorkedTime>
  {
    match (Text.ParseTimestamp(d.startTime), Text.ParseTimestamp(d.endTime))
    case (Some(s), Some(e)) => Some(WorkedTime(s, e, d.task, d.client))
    case _ => None
  }

  lemma AsDictRoundTrip(w: WorkedTime)
    ensures FromDict(AsDict(w)) == Some(w)
  {
    Text.TimestampRoundTrip(w.startTime);
    Text.TimestampRoundTrip(w.endTime);
  }

  /** What `save()` writes. */
  function SaveTimes(ts: seq<WorkedTime>): (ds: seq<WorkedTimeDict>)
    ensures |ds| == |ts|
    ensures forall i :: 0 <= i < |ts| ==> ds[i] == AsDict(ts[i])
  {
    if ts == [] then [] else [AsDict(ts[0])] + SaveTimes(ts[1..])
  }

  /**
   * The records `load()` has built when it reaches the first entry that fails
   * to parse, or all of them when none fails.
   */
  function ParsedPrefix(ds: seq<WorkedTimeDict>): seq<WorkedTime>
  {
    if ds == [] then []
    else match FromDict(ds[0])
      case None => []
      case Some(w) => [w] + ParsedPrefix(ds[1..])
  }

  /** The prefix holds what its entries parse to, and the entry after it fails. */
  lemma {:induction false} ParsedPrefixStops(ds: seq<WorkedTimeDict>)
    ensures |ParsedPrefix(ds)| <= |ds|
    ensures forall i :: 0 <= i < |ParsedPrefix(ds)| ==> FromDict(ds[i]) == Some(ParsedPrefix(ds)[i])
    ensures |ParsedPrefix(ds)| < |ds| ==> FromDict(ds[|ParsedPrefix(ds)|]).None?
  {
    if ds != [] && FromDict(ds[0]).Some? {
      ParsedPrefixStops(ds[1..]);
    }
  }

  /** The list `load()` builds from a JSON array, or None if one entry fails to parse. */
  function LoadTimes(ds: seq<WorkedTimeDict>): (r: Option<seq<WorkedTime>>)
    ensures r.Some? ==> |r.value| == |ds| && forall i :: 0 <= i < |ds| ==> FromDict(ds[i]) == Some(r.value[i])
    ensures r.None? <==> exists i :: 0 <= i < |ds| && FromDict(ds[i]).None?
  {
    ParsedPrefixStops(ds);
    var parsed := ParsedPrefix(ds);
    if |parsed| == |ds| then Some(parsed) else None
  }

  /** `load()`: a missing file means an empty store. */
  function LoadFile(file: Option<seq<WorkedTimeDict>>): Option<seq<WorkedTime>>
  {
    match file
    case None => Some([])
    case Some(ds) => LoadTimes(ds)
  }

  /** The records a load has built before it stops, at the end or at a bad entry. */
  function LoadedPrefix(file: Option<seq<WorkedTimeDict>>): seq<WorkedTime>
  {
    match file
    case None => []
    case Some(ds) => ParsedPrefix(ds)
  }

  /** A load succeeds exactly when it gets through every entry, and then it holds what it built. */
  lemma LoadedPrefixOfLoad(file: Option<seq<WorkedTimeDict>>)
    ensures LoadFile(file).Some? <==> file.None? || |LoadedPrefix(file)| == |file.value|
    ensures LoadFile(file).Some? ==> LoadFile(file).value == LoadedPrefix(file)
  {
  }

  /** Saving and loading again gives back the same records in the same order. */
  lemma SaveLoadRoundTrip(ts: seq<WorkedTime>)
    ensures LoadTimes(SaveTimes(ts)) == Some(ts)
  {
    var ds := SaveTimes(ts);
    forall i | 0 <= i < |ts|
      ensures FromDict(ds[i]) == Some(ts[i])
    {
      AsDictRoundTrip(ts[i]);
    }
    ParsedPrefixStops(ds);
    var parsed := ParsedPrefix(ds);
    assert |parsed| == |ds|;
    assert parsed == ts;
  }

  function ClientsOf(ts: seq<WorkedTime>): (r: set<string>)
    ensures forall w :: w in ts ==> w.client in r
    ensures forall c :: c in r ==> exists i :: 0 <= i < |ts| && ts[i].client == c
  {
    set i | 0 <= i < |ts| :: ts[i].client
  }

  function TasksOf(ts: seq<WorkedTime>): (r: set<string>)
    ensures forall w :: w in ts ==> w.task in r
    ensures forall t :: t in r ==> exists i :: 0 <= i < |ts| && ts[i].task == t
  {
    set i | 0 <= i < |ts| :: ts[i].task
  }

  lemma LabelsOfAppend(ts: seq<WorkedTime>, w: WorkedTime)
    ensures ClientsOf(ts + [w]) == ClientsOf(ts) + {w.client}
    ensures TasksOf(ts + [w]) == TasksOf(ts) + {w.task}
  {
    var us := ts + [w];
    forall c | c in ClientsOf(us)
      ensures c in ClientsOf(ts) + {w.client}
    {
      var i :| 0 <= i < |us| && us[i].client == c;
      if i < |ts| { assert ts[i] in ts; }
    }
    forall c | c in ClientsOf(ts)
      ensures c in ClientsOf(us)
    {
      var i :| 0 <= i < |ts| && ts[i].client == c;
      assert us[i] in us;
    }
    assert w in us;
    forall t | t in TasksOf(us)
      ensures t in TasksOf(ts) + {w.task}
    {
      var i :| 0 <= i < |us| && us[i].task == t;
      if i < |ts| { assert ts[i] in ts; }
    }
    forall t | t in TasksOf(ts)
      ensures t in TasksOf(us)
    {
      var i :| 0 <= i < |ts| && ts[i].task == t;
      assert us[i] in us;
    }
  }

  /** The (task, client) pair of every record, in store order. */
  function PairsOf(ts: seq<WorkedTime>): (ps: seq<(string, string)>)
    ensures |ps| == |ts|
    ensures forall i :: 0 <= i < |ts| ==> ps[i] == (ts[i].task, ts[i].client)
  {
    seq(|ts|, i requires 0 <= i < |ts| => (ts[i].task, ts[i].client))
  }

  class WorkedTimeStore {
    var workedTimes: seq<WorkedTime>
    /** Content of the JSON file; None while it has never been written. */
    var saved: Option<seq<WorkedTimeDict>>

    /** `__init__` with `load()`; the file must parse, as the constructor raises otherwise. */
    constructor(file: Option<seq<WorkedTimeDict>>)
      requires LoadFile(file).Some?
      ensures workedTimes == LoadFile(file).value
      ensures saved == file
    {
      workedTimes := LoadFile(file).value;
      saved := file;
    }

    method AddWorkedTime(w: WorkedTime)
      modifies this
      ensures workedTimes == old(workedTimes) + [w]
      ensures saved == Some(SaveTimes(workedTimes))
      ensures AllClients() == old(AllClients()) + {w.client}
      ensures AllTasks() == old(AllTasks()) + {w.task}
    {
      workedTimes := workedTimes + [w];
      saved := Some(SaveTimes(workedTimes));
      LabelsOfAppend(old(workedTimes), w);
    }

    function AllClients(): set<string>
      reads this
    {
      ClientsOf(workedTimes)
    }

    function AllTasks(): set<string>
      reads this
    {
      TasksOf(workedTimes)
    }

    /** Scans the list from its end, so the most recently added records come first. */
    method MostRecentWorkedTasksAndClients(n: int) returns (pairs: seq<(string, string)>)
      ensures pairs == MostRecent(Reverse(PairsOf(workedTimes)), n)
    {
      pairs := FirstDistinct(Reverse(PairsOf(workedTimes)), n);
    }
  }

  /**
   * Pairs come out in order of their latest insertion: the pair yielded first was
   * added most recently.
   */
  lemma RecentByLatestInsertion(ts: seq<WorkedTime>, n: int, i: int, j: int)
    requires 0 <= i < j < |MostRecent(Reverse(PairsOf(ts)), n)|
    ensures var r := MostRecent(Reverse(PairsOf(ts)), n);
            r[i] in PairsOf(ts) && r[j] in PairsOf(ts) &&
            LastIndex(PairsOf(ts), r[i]) > LastIndex(PairsOf(ts), r[j])
  {
    var ps := PairsOf(ts);
    var r := MostRecent(Reverse(ps), n);
    MostRecentOrder(Reverse(ps), n, i, j);
    assert r[i] in ps && r[j] in ps by {
      MostRecentMembers(Reverse(ps), n);
      assert r[i] in r && r[j] in r;
      assert forall x :: x in Reverse(ps) ==> x in ps;
    }
    ReverseFirstIndex(ps, r[i]);
    ReverseFirstIndex(ps, r[j]);
  }

  /** The history (A,X), (B,Y), (A,X), (C,Z), oldest first, gives (C,Z) then (A,X) for n = 2. */
  lemma RecentExample()
    ensures var ts := [WorkedTime(0, 1, "A", "X"), WorkedTime(1, 2, "B", "Y"),
                       WorkedTime(2, 3, "A", "X"), WorkedTime(3, 4, "C", "Z")];
            MostRecent(Reverse(PairsOf(ts)), 2) == [("C", "Z"), ("A", "X")]
  {
    var ts := [WorkedTime(0, 1, "A", "X"), WorkedTime(1, 2, "B", "Y"),
               WorkedTime(2, 3, "A", "X"), WorkedTime(3, 4, "C", "Z")];
    var scan := Reverse(PairsOf(ts));
    assert scan == [("C", "Z"), ("A", "X"), ("B", "Y"), ("A", "X")];
    assert scan[..1] == [("C", "Z")];
    assert scan[..2][..1] == scan[..1];
    assert scan[..3][..2] == scan[..2];
    assert scan[..4][..3] == scan[..3];
    assert scan[..4] == scan;
    assert Dedup(scan[..1]) == [("C", "Z")];
    assert Dedup(scan[..2]) == [("C", "Z"), ("A", "X")];
    assert Dedup(scan[..3]) == [("C", "Z"), ("A", "X"), ("B", "Y")];
    assert Dedup(scan) == [("C", "Z"), ("A", "X"), ("B", "Y")];
  }
}
