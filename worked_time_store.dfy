/**
 * worked_time_store.py: the same records kept as rows of a list model that
 * the toolkit keeps sorted by start time, newest first.
 */
module SortedStore {
  import opened Options
  import opened Distinct
  import opened TrackedTimeStore

  /** A row of the list model: columns 0 to 3 hold task, client, start and end. */
  datatype Row = Row(task: string, client: string, startTime: int, endTime: int)

  function RowOf(w: WorkedTime): Row
  {
    Row(w.task, w.client, w.startTime, w.endTime)
  }

  /** The record `worked_times()` builds from a row. */
  function WorkedTimeOf(r: Row): WorkedTime
  {
    WorkedTime(r.startTime, r.endTime, r.task, r.client)
  }

  function RowsOf(ts: seq<WorkedTime>): (rs: seq<Row>)
    ensures |rs| == |ts| && forall i :: 0 <= i < |ts| ==> rs[i] == RowOf(ts[i])
  {
    seq(|ts|, i requires 0 <= i < |ts| => RowOf(ts[i]))
  }

  function WorkedTimesOf(rows: seq<Row>): (ts: seq<WorkedTime>)
    ensures |ts| == |rows| && forall i :: 0 <= i < |rows| ==> ts[i] == WorkedTimeOf(rows[i])
  {
    seq(|rows|, i requires 0 <= i < |rows| => WorkedTimeOf(rows[i]))
  }

  /** Storing a record as a row and reading it back gives the same record. */
  lemma RowRoundTrip(ts: seq<WorkedTime>)
    ensures WorkedTimesOf(RowsOf(ts)) == ts
  {
  }

  lemma RowsOfSnoc(ts: seq<WorkedTime>, i: int)
    requires 0 <= i < |ts|
    ensures multiset(RowsOf(ts[..i + 1])) == multiset(RowsOf(ts[..i])) + multiset{RowOf(ts[i])}
  {
    assert RowsOf(ts[..i + 1]) == RowsOf(ts[..i]) + [RowOf(ts[i])];
  }

  /** `sort_func`: positive when `a` starts later than `b`. */
  function SortFunc(a: Row, b: Row): int
  {
    a.startTime - b.startTime
  }

  /** Under DESCENDING order no row sorts before one that `sort_func` ranks above it. */
  predicate SortedNewestFirst(rows: seq<Row>)
  {
    forall i, j :: 0 <= i < j < |rows| ==> SortFunc(rows[i], rows[j]) >= 0
  }

  /** The (task, client) pair of each row, in row order. */
  function RowPairs(rows: seq<Row>): (ps: seq<(string, string)>)
    ensures |ps| == |rows| && forall i :: 0 <= i < |rows| ==> ps[i] == (rows[i].task, rows[i].client)
  {
    seq(|rows|, i requires 0 <= i < |rows| => (rows[i].task, rows[i].client))
  }

  /** In a model sorted newest first, rows after one that starts earlier than `r` do too. */
  lemma LaterRowsEarlier(rows: seq<Row>, k: int, r: Row)
    requires SortedNewestFirst(rows) && 0 <= k <= |rows|
    requires k == |rows| || rows[k].startTime < r.startTime
    ensures forall i :: k <= i < |rows| ==> rows[i].startTime < r.startTime
  {
    forall i | k < i < |rows|
      ensures rows[i].startTime < r.startTime
    {
      assert SortFunc(rows[k], rows[i]) >= 0;
    }
  }

  /**
   * Placing `r` after the rows that start no earlier and before the rows that
   * start earlier keeps the model sorted.
   */
  lemma InsertSorted(rows: seq<Row>, k: int, r: Row)
    requires SortedNewestFirst(rows) && 0 <= k <= |rows|
    requires forall i :: 0 <= i < k ==> rows[i].startTime >= r.startTime
    requires forall i :: k <= i < |rows| ==> rows[i].startTime < r.startTime
    ensures SortedNewestFirst(rows[..k] + [r] + rows[k..])
  {
    var s := rows[..k] + [r] + rows[k..];
    assert forall i :: 0 <= i < k ==> s[i] == rows[i];
    assert s[k] == r;
    assert forall i :: k < i < |s| ==> s[i] == rows[i - 1];
    forall i, j | 0 <= i < j < |s|
      ensures SortFunc(s[i], s[j]) >= 0
    {
      if j < k {
        assert SortFunc(rows[i], rows[j]) >= 0;
      } else if i > k {
        assert SortFunc(rows[i - 1], rows[j - 1]) >= 0;
      }
    }
  }

  /**
   * Where the sorted model places a row starting at `start`: after every row
   * that starts at the same time or later.
   */
  function InsertPosition(rows: seq<Row>, start: int): (k: nat)
    ensures k <= |rows|
    ensures forall i :: 0 <= i < k ==> rows[i].startTime >= start
    ensures k == |rows| || rows[k].startTime < start
  {
    if |rows| == 0 || rows[0].startTime < start then 0
    else 1 + InsertPosition(rows[1..], start)
  }

  /** Inserting at `InsertPosition` keeps the model sorted and adds exactly one row. */
  lemma InsertAt(rows: seq<Row>, k: int, r: Row)
    requires SortedNewestFirst(rows) && k == InsertPosition(rows, r.startTime)
    ensures SortedNewestFirst(rows[..k] + [r] + rows[k..])
    ensures multiset(rows[..k] + [r] + rows[k..]) == multiset(rows) + multiset{r}
  {
    LaterRowsEarlier(rows, k, r);
    InsertSorted(rows, k, r);
    InsertedMultiset(rows, k, r);
  }

  lemma InsertedMultiset<T>(s: seq<T>, k: int, x: T)
    requires 0 <= k <= |s|
    ensures multiset(s[..k] + [x] + s[k..]) == multiset(s) + multiset{x}
  {
    assert s == s[..k] + s[k..];
  }

  class WorkedTimeStore {
    var rows: seq<Row>
    /** Content of the JSON file; None while it has never been written. */
    var saved: Option<seq<WorkedTimeDict>>

    ghost predicate Valid()
      reads this
    {
      SortedNewestFirst(rows)
    }

    /**
     * `__init__`: an empty sorted model, then `add_worked_time` for every loaded
     * record. Each record is parsed, added and saved before the next entry is
     * read, so an entry that fails to parse leaves the model and the file with
     * the records before it.
     */
    constructor(file: Option<seq<WorkedTimeDict>>)
      ensures Valid()
      ensures multiset(rows) == multiset(RowsOf(LoadedPrefix(file)))
      ensures |LoadedPrefix(file)| > 0 ==> saved == Some(SaveTimes(WorkedTimesOf(rows)))
      ensures |LoadedPrefix(file)| == 0 ==> saved == file
    {
      rows := [];
      saved := file;
      new;
      AddAll(LoadedPrefix(file));
    }

    /** The constructor's loop: `add_worked_time` for each loaded record in turn. */
    method AddAll(loaded: seq<WorkedTime>)
      requires Valid()
      modifies this
      ensures Valid()
      ensures multiset(rows) == multiset(old(rows)) + multiset(RowsOf(loaded))
      ensures |loaded| > 0 ==> saved == Some(SaveTimes(WorkedTimesOf(rows)))
      ensures |loaded| == 0 ==> saved == old(saved)
    {
      ghost var start := multiset(rows);
      for i := 0 to |loaded|
        invariant Valid()
        invariant multiset(rows) == start + multiset(RowsOf(loaded[..i]))
        invariant i > 0 ==> saved == Some(SaveTimes(WorkedTimesOf(rows)))
        invariant i == 0 ==> saved == old(saved)
      {
        AddWorkedTime(loaded[i]);
        RowsOfSnoc(loaded, i);
      }
      assert loaded[..|loaded|] == loaded;
    }

    /**
     * Appends a row; the sorted model moves it after every row that starts at the
     * same time or later and before every row that starts earlier.
     */
    method AddWorkedTime(w: WorkedTime)
      requires Valid()
      modifies this
      ensures Valid()
      ensures var k := InsertPosition(old(rows), w.startTime);
              rows == old(rows)[..k] + [RowOf(w)] + old(rows)[k..]
      ensures multiset(rows) == multiset(old(rows)) + multiset{RowOf(w)}
      ensures saved == Some(SaveTimes(WorkedTimesOf(rows)))
    {
      var k := 0;
      while k < |rows| && rows[k].startTime >= w.startTime
        invariant 0 <= k <= InsertPosition(rows, w.startTime)
      {
        k := k + 1;
      }
      InsertAt(rows, k, RowOf(w));
      rows := rows[..k] + [RowOf(w)] + rows[k..];
      saved := Some(SaveTimes(WorkedTimesOf(rows)));
    }

    /** One record per row, in row order, so newest first. */
    method WorkedTimes() returns (ts: seq<WorkedTime>)
      requires Valid()
      ensures ts == WorkedTimesOf(rows)
      ensures forall i, j :: 0 <= i < j < |ts| ==> ts[i].startTime >= ts[j].startTime
    {
      ts := [];
      var i := 0;
      while i < |rows|
        invariant 0 <= i <= |rows|
        invariant ts == WorkedTimesOf(rows[..i])
      {
        ts := ts + [WorkedTimeOf(rows[i])];
        i := i + 1;
      }
      assert rows[..i] == rows;
    }

    /** Scans the rows in model order, so the latest-starting records come first. */
    method MostRecentWorkedTasksAndClients(n: int) returns (pairs: seq<(string, string)>)
      ensures pairs == MostRecent(RowPairs(rows), n)
    {
      pairs := FirstDistinct(RowPairs(rows), n);
    }
  }

  /** The start time of the first row holding a pair, which in a sorted model is its latest. */
  function LatestStart(rows: seq<Row>, p: (string, string)): int
    requires p in RowPairs(rows)
  {
    rows[FirstIndex(RowPairs(rows), p)].startTime
  }

  lemma LatestStartIsLatest(rows: seq<Row>, p: (string, string), k: int)
    requires SortedNewestFirst(rows) && p in RowPairs(rows)
    requires 0 <= k < |rows| && RowPairs(rows)[k] == p
    ensures rows[k].startTime <= LatestStart(rows, p)
  {
    var f := FirstIndex(RowPairs(rows), p);
    if f < k {
      assert SortFunc(rows[f], rows[k]) >= 0;
    }
  }

  /** Pairs are yielded by descending latest start time. */
  lemma RecentByLatestStart(rows: seq<Row>, n: int, i: int, j: int)
    requires SortedNewestFirst(rows)
    requires 0 <= i < j < |MostRecent(RowPairs(rows), n)|
    ensures var r := MostRecent(RowPairs(rows), n);
            r[i] in RowPairs(rows) && r[j] in RowPairs(rows) &&
            LatestStart(rows, r[i]) >= LatestStart(rows, r[j])
  {
    MostRecentOrder(RowPairs(rows), n, i, j);
  }
}
