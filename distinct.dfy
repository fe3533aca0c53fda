/**
 * First occurrences in a sequence. Both worked-time stores answer
 * `most_recent_worked_tasks_and_clients(n)` with the same loop: scan the
 * (task, client) pairs from the most recent item on, yield each pair the first
 * time it is seen, and stop once `n` distinct pairs were seen. The summary view
 * orders its per-task table by first occurrence too.
 */
module Distinct {

  predicate NoDuplicates<T(==)>(s: seq<T>)
  {
    forall i, j :: 0 <= i < j < |s| ==> s[i] != s[j]
  }

  /** The distinct elements of `s`, each at the place it first occurs. */
  function Dedup<T(==,!new)>(s: seq<T>): (r: seq<T>)
    ensures forall x :: x in r <==> x in s
    ensures NoDuplicates(r)
    ensures |r| <= |s|
  {
    if s == [] then []
    else
      var d := Dedup(s[..|s| - 1]);
      if s[|s| - 1] in d then d else d + [s[|s| - 1]]
  }

  function FirstIndex<T(==)>(s: seq<T>, x: T): (i: nat)
    requires x in s
    ensures i < |s| && s[i] == x && x !in s[..i]
  {
    if s[0] == x then 0 else 1 + FirstIndex(s[1..], x)
  }

  function LastIndex<T(==)>(s: seq<T>, x: T): (i: nat)
    requires x in s
    ensures i < |s| && s[i] == x && x !in s[i + 1..]
  {
    if s[|s| - 1] == x then |s| - 1 else LastIndex(s[..|s| - 1], x)
  }

  function Reverse<T>(s: seq<T>): (r: seq<T>)
    ensures |r| == |s|
    ensures forall i :: 0 <= i < |s| ==> r[i] == s[|s| - 1 - i]
  {
    if s == [] then [] else Reverse(s[1..]) + [s[0]]
  }

  function Max(a: int, b: int): int { if a < b then b else a }

  function Min(a: int, b: int): int { if a < b then a else b }

  /**
   * What the scan yields: the first max(n, 1) distinct elements in scan order,
   * or all of them when there are fewer. The bound is at least one because the
   * size test follows the first yield.
   */
  function MostRecent<T(==,!new)>(scan: seq<T>, n: int): seq<T>
  {
    var d := Dedup(scan);
    d[..Min(Max(n, 1), |d|)]
  }

  /** Dedup of a prefix is a prefix of Dedup. */
  lemma {:induction false} DedupPrefix<T(!new)>(s: seq<T>, i: nat)
    requires i <= |s|
    ensures Dedup(s[..i]) <= Dedup(s)
    decreases |s|
  {
    if i < |s| {
      var t := s[..|s| - 1];
      assert t[..i] == s[..i];
      DedupPrefix(t, i);
    } else {
      assert s[..i] == s;
    }
  }

  /** The scan's first element is always the first thing yielded. */
  lemma MostRecentHead<T(!new)>(scan: seq<T>, n: int)
    requires |scan| > 0
    ensures |MostRecent(scan, n)| >= 1 && MostRecent(scan, n)[0] == scan[0]
  {
    DedupPrefix(scan, 1);
    assert scan[..1][..0] == [];
    assert Dedup(scan[..1]) == [scan[0]];
  }

  /** A prefix one longer is the prefix plus the next element. */
  lemma TakeSnoc<T>(s: seq<T>, i: int)
    requires 0 <= i < |s|
    ensures s[..i + 1] == s[..i] + [s[i]]
  {
  }

  /** The prefix of full length is the sequence itself. */
  lemma TakeAll<T>(s: seq<T>)
    ensures s[..|s|] == s
  {
  }

  /** Dedup after one more element: unchanged if it was seen, extended by it otherwise. */
  lemma DedupSnoc<T(!new)>(s: seq<T>, i: nat)
    requires i < |s|
    ensures Dedup(s[..i + 1]) == if s[i] in Dedup(s[..i]) then Dedup(s[..i]) else Dedup(s[..i]) + [s[i]]
  {
    assert s[..i + 1][..i] == s[..i];
  }

  /** Dedup lists elements in the order of their first occurrence. */
  lemma {:induction false} DedupOrder<T(!new)>(s: seq<T>, i: int, j: int)
    requires 0 <= i < j < |Dedup(s)|
    ensures FirstIndex(s, Dedup(s)[i]) < FirstIndex(s, Dedup(s)[j])
    decreases |s|
  {
    var t := s[..|s| - 1];
    var x := s[|s| - 1];
    var d, dt := Dedup(s), Dedup(t);
    FirstIndexPrefix(s, d[i]);
    if j < |dt| {
      FirstIndexPrefix(s, d[j]);
      DedupOrder(t, i, j);
    } else {
      assert d[j] == x && x !in t;
      assert FirstIndex(s, x) == |s| - 1;
    }
  }

  /** An element already in the prefix keeps its first index. */
  lemma FirstIndexPrefix<T(!new)>(s: seq<T>, x: T)
    requires |s| > 0 && x in s[..|s| - 1]
    ensures FirstIndex(s, x) == FirstIndex(s[..|s| - 1], x)
  {
    var t := s[..|s| - 1];
    var k := FirstIndex(t, x);
    assert s[k] == x;
    assert s[..k] == t[..k];
    FirstIndexUnique(s, x, k);
  }

  lemma FirstIndexUnique<T(!new)>(s: seq<T>, x: T, k: nat)
    requires k < |s| && s[k] == x && x !in s[..k]
    ensures FirstIndex(s, x) == k
  {
  }

  /** The first index in the reversed sequence is the last index in the original. */
  lemma ReverseFirstIndex<T(!new)>(s: seq<T>, x: T)
    requires x in s
    ensures x in Reverse(s) && FirstIndex(Reverse(s), x) == |s| - 1 - LastIndex(s, x)
  {
    var r := Reverse(s);
    var l := LastIndex(s, x);
    assert r[|s| - 1 - l] == x;
    forall k | 0 <= k < |s| - 1 - l
      ensures r[k] != x
    {
      assert r[k] == s[|s| - 1 - k];
      assert s[l + 1..][|s| - 1 - k - (l + 1)] == s[|s| - 1 - k];
    }
    assert x !in r[..|s| - 1 - l];
    FirstIndexUnique(r, x, |s| - 1 - l);
  }

  /**
   * The loop of `most_recent_worked_tasks_and_clients`: `seen` is the set of
   * pairs yielded so far, and the size test runs after every item, yielded or not.
   */
  method FirstDistinct<T(==,!new)>(scan: seq<T>, n: int) returns (yielded: seq<T>)
    ensures yielded == MostRecent(scan, n)
  {
    var seen: set<T> := {};
    yielded := [];
    var i := 0;
    while i < |scan|
      invariant 0 <= i <= |scan|
      invariant yielded == Dedup(scan[..i])
      invariant seen == Elements(yielded)
      invariant |seen| == |yielded| < Max(n, 1)
    {
      var item := scan[i];
      if item !in seen {
        ScanNew(scan, i, seen, yielded);
        seen := seen + {item};
        yielded := yielded + [item];
      } else {
        ScanSeen(scan, i, seen, yielded);
      }
      i := i + 1;
      if |seen| >= n {
        StoppedScan(scan, i, n);
        return;
      }
    }
    FinishedScan(scan, n);
  }

  /** The elements of a sequence, as a set. */
  ghost function Elements<T>(s: seq<T>): set<T>
  {
    set x | x in s
  }

  /** An item not seen before is yielded, and `seen` grows by it. */
  lemma ScanNew<T(!new)>(scan: seq<T>, i: int, seen: set<T>, yielded: seq<T>)
    requires 0 <= i < |scan| && yielded == Dedup(scan[..i])
    requires seen == Elements(yielded) && |seen| == |yielded| && scan[i] !in seen
    ensures yielded + [scan[i]] == Dedup(scan[..i + 1])
    ensures seen + {scan[i]} == Elements(yielded + [scan[i]]) && |seen + {scan[i]}| == |yielded + [scan[i]]|
  {
    DedupSnoc(scan, i);
  }

  /** An item seen before changes nothing. */
  lemma ScanSeen<T(!new)>(scan: seq<T>, i: int, seen: set<T>, yielded: seq<T>)
    requires 0 <= i < |scan| && yielded == Dedup(scan[..i])
    requires seen == Elements(yielded) && scan[i] in seen
    ensures yielded == Dedup(scan[..i + 1])
  {
    DedupSnoc(scan, i);
  }

  /** Where the scan runs to its end, it has yielded every distinct element. */
  lemma FinishedScan<T(!new)>(scan: seq<T>, n: int)
    requires |Dedup(scan[..|scan|])| < Max(n, 1)
    ensures Dedup(scan[..|scan|]) == MostRecent(scan, n)
  {
    assert scan[..|scan|] == scan;
  }

  /** Where the scan stops early, it has yielded exactly MostRecent. */
  lemma StoppedScan<T(!new)>(scan: seq<T>, i: nat, n: int)
    requires 1 <= i <= |scan|
    requires n <= |Dedup(scan[..i])| <= Max(n, 1)
    ensures Dedup(scan[..i]) == MostRecent(scan, n)
  {
    assert scan[..i][0] in Dedup(scan[..i]);
    DedupPrefix(scan, i);
  }

  lemma MostRecentDistinct<T(!new)>(scan: seq<T>, n: int)
    ensures NoDuplicates(MostRecent(scan, n))
  {
  }

  lemma MostRecentMembers<T(!new)>(scan: seq<T>, n: int)
    ensures forall x :: x in MostRecent(scan, n) ==> x in scan
  {
    var d := Dedup(scan);
    forall x | x in MostRecent(scan, n)
      ensures x in d
    {
    }
  }

  /** At most n for n >= 1; exactly one for n <= 0 on a non-empty scan; none on an empty one. */
  lemma MostRecentSize<T(!new)>(scan: seq<T>, n: int)
    ensures n >= 1 ==> |MostRecent(scan, n)| <= n
    ensures n <= 0 && scan != [] ==> |MostRecent(scan, n)| == 1
    ensures scan == [] ==> MostRecent(scan, n) == []
  {
    if scan != [] {
      assert scan[0] in Dedup(scan);
    }
  }

  /** Fewer than n yielded means every element of the scan was yielded. */
  lemma MostRecentComplete<T(!new)>(scan: seq<T>, n: int)
    requires |MostRecent(scan, n)| < n
    ensures forall x :: x in scan ==> x in MostRecent(scan, n)
  {
    var d := Dedup(scan);
    assert MostRecent(scan, n) == d;
  }

  /** Yielded elements come in the order of their first occurrence in the scan. */
  lemma MostRecentOrder<T(!new)>(scan: seq<T>, n: int, i: int, j: int)
    requires 0 <= i < j < |MostRecent(scan, n)|
    ensures MostRecent(scan, n)[i] in scan && MostRecent(scan, n)[j] in scan
    ensures FirstIndex(scan, MostRecent(scan, n)[i]) < FirstIndex(scan, MostRecent(scan, n)[j])
  {
    var d := Dedup(scan);
    assert d[i] in d && d[j] in d;
    DedupOrder(scan, i, j);
  }

  /** An element that was not yielded occurs in the scan only after every yielded one. */
  lemma MostRecentSkipsOnlyLater<T(!new)>(scan: seq<T>, n: int, j: int)
    requires 0 <= j < |scan| && scan[j] !in MostRecent(scan, n)
    ensures forall x :: x in MostRecent(scan, n) ==> x in scan[..j]
  {
    var d := Dedup(scan);
    var m := Min(Max(n, 1), |d|);
    var p := Dedup(scan[..j]);
    DedupPrefix(scan, j);
    DedupSnoc(scan, j);
    assert scan[..j + 1][..j] == scan[..j];
    assert scan[j] in scan[..j + 1];
    PrefixYielded(scan, n, j + 1);
    forall x | x in MostRecent(scan, n)
      ensures x in scan[..j]
    {
      var t :| 0 <= t < m && d[t] == x;
      assert p[t] == x;
    }
  }

  /** While a prefix has no more distinct elements than the bound, all of them are yielded. */
  lemma PrefixYielded<T(!new)>(scan: seq<T>, n: int, k: int)
    requires 0 <= k <= |scan|
    ensures |Dedup(scan[..k])| <= Min(Max(n, 1), |Dedup(scan)|) ==>
              forall x :: x in scan[..k] ==> x in MostRecent(scan, n)
  {
    var q, d := Dedup(scan[..k]), Dedup(scan);
    if |q| <= Min(Max(n, 1), |d|) {
      DedupPrefix(scan, k);
      forall x | x in scan[..k]
        ensures x in MostRecent(scan, n)
      {
        var t :| 0 <= t < |q| && q[t] == x;
        assert d[t] == x;
        assert MostRecent(scan, n)[t] == x;
      }
    }
  }
}
