/** The observation record that clients report and the server stores, the order
    the server reads it in, and the stable sort that puts a list into that order. */
module Observations {

  datatype State = Active | Idle | Locked

  /** A stored observation. Times are instants in nanoseconds. */
  datatype Event = Event(
    id: int,
    uuid: string,
    device: int,
    at: int,
    state: State,
    process: string,
    sequence: int
  )

  const NS_PER_SECOND: int := 1_000_000_000

  function Min(a: int, b: int): int { if a < b then a else b }

  function Max(a: int, b: int): int { if a < b then b else a }

  /** Time order, with the sequence number deciding between equal times. */
  predicate Before(a: Event, b: Event) {
    a.at < b.at || (a.at == b.at && a.sequence < b.sequence)
  }

  ghost predicate Ordered(s: seq<Event>) {
    forall i, j :: 0 <= i < j < |s| ==> !Before(s[j], s[i])
  }

  /** Puts e behind every element it is not strictly before. */
  function Insert(s: seq<Event>, e: Event): seq<Event> {
    if |s| > 0 && Before(e, s[|s| - 1])
    then Insert(s[..|s| - 1], e) + [s[|s| - 1]]
    else s + [e]
  }

  function StableSort(s: seq<Event>): seq<Event> {
    if |s| == 0 then [] else Insert(StableSort(s[..|s| - 1]), s[|s| - 1])
  }

  lemma {:induction false} InsertElements(s: seq<Event>, e: Event)
    ensures multiset(Insert(s, e)) == multiset(s) + multiset{e}
  {
    if |s| > 0 && Before(e, s[|s| - 1]) {
      InsertElements(s[..|s| - 1], e);
      assert s == s[..|s| - 1] + [s[|s| - 1]];
    }
  }

  lemma OrderedAppend(s: seq<Event>, last: Event)
    requires Ordered(s) && forall x :: x in s ==> !Before(last, x)
    ensures Ordered(s + [last])
  {
  }

  lemma {:induction false} InsertOrdered(s: seq<Event>, e: Event)
    requires Ordered(s)
    ensures Ordered(Insert(s, e))
  {
    if |s| > 0 && Before(e, s[|s| - 1]) {
      var front, last := s[..|s| - 1], s[|s| - 1];
      InsertOrdered(front, e);
      InsertElements(front, e);
      forall x | x in Insert(front, e) ensures !Before(last, x) {
        assert x in multiset(Insert(front, e));
        assert x in front || x == e;
      }
      OrderedAppend(Insert(front, e), last);
    } else {
      forall x | x in s ensures !Before(e, x) {
      }
      OrderedAppend(s, e);
    }
  }

  lemma {:induction false} StableSortOrdered(s: seq<Event>)
    ensures Ordered(StableSort(s)) && multiset(StableSort(s)) == multiset(s)
  {
    if |s| > 0 {
      StableSortOrdered(s[..|s| - 1]);
      InsertOrdered(StableSort(s[..|s| - 1]), s[|s| - 1]);
      InsertElements(StableSort(s[..|s| - 1]), s[|s| - 1]);
      assert s == s[..|s| - 1] + [s[|s| - 1]];
    }
  }

  /** A list already in order is left alone: equal keys keep their places. */
  lemma {:induction false} StableSortKeepsOrdered(s: seq<Event>)
    requires Ordered(s)
    ensures StableSort(s) == s
  {
    if |s| > 0 {
      StableSortKeepsOrdered(s[..|s| - 1]);
      assert s == s[..|s| - 1] + [s[|s| - 1]];
    }
  }

  /** Where the element e stands while it moves down past the larger ones. */
  ghost function Shifted(sorted: seq<Event>, e: Event, j: nat): (r: seq<Event>)
    requires j <= |sorted|
    ensures |r| == |sorted| + 1 && r[j] == e && (j > 0 ==> r[j - 1] == sorted[j - 1])
  {
    sorted[..j] + [e] + sorted[j..]
  }

  lemma ShiftDown(sorted: seq<Event>, e: Event, j: nat)
    requires 0 < j <= |sorted|
    ensures Shifted(sorted, e, j)[j - 1 := e][j := sorted[j - 1]] == Shifted(sorted, e, j - 1)
  {
  }

  /** Once e stops moving it is where the specification puts it. */
  lemma {:induction false} ShiftedIsInsert(sorted: seq<Event>, e: Event, j: nat)
    requires j <= |sorted| && (j > 0 ==> !Before(e, sorted[j - 1]))
    requires forall k :: j <= k < |sorted| ==> Before(e, sorted[k])
    ensures Insert(sorted, e) == Shifted(sorted, e, j)
  {
    if j < |sorted| {
      ShiftedIsInsert(sorted[..|sorted| - 1], e, j);
      assert sorted[..|sorted| - 1][j..] + [sorted[|sorted| - 1]] == sorted[j..];
      assert sorted[..|sorted| - 1][..j] == sorted[..j];
    }
  }

  /** Moves a[i] down by adjacent swaps to its place among the sorted a[..i]. */
  method Sink(a: array<Event>, i: nat)
    requires i < a.Length
    modifies a
    ensures a[..i + 1] == Insert(old(a[..i]), old(a[i])) && a[i + 1..] == old(a[i + 1..])
  {
    ghost var sorted, e := a[..i], a[i];
    assert a[..i + 1] == Shifted(sorted, e, i);
    var j := i;
    while j > 0 && Before(a[j], a[j - 1])
      invariant 0 <= j <= i
      invariant a[..i + 1] == Shifted(sorted, e, j) && a[i + 1..] == old(a[i + 1..])
      invariant forall k :: j <= k < i ==> Before(e, sorted[k])
    {
      assert a[..i + 1][j] == e && a[..i + 1][j - 1] == sorted[j - 1];
      ghost var before := a[..i + 1];
      ShiftDown(sorted, e, j);
      a[j], a[j - 1] := a[j - 1], a[j];
      assert a[..i + 1] == before[j - 1 := e][j := sorted[j - 1]];
      j := j - 1;
    }
    assert a[..i + 1][j] == e && (j > 0 ==> a[..i + 1][j - 1] == sorted[j - 1]);
    ShiftedIsInsert(sorted, e, j);
  }

  /** Insertion sort in place. */
  method SortStable(a: array<Event>)
    modifies a
    ensures a[..] == StableSort(old(a[..]))
  {
    ghost var was := a[..];
    var i := 0;
    while i < a.Length
      invariant 0 <= i <= a.Length == |was|
      invariant a[..i] == StableSort(was[..i]) && a[i..] == was[i..]
    {
      assert a[i] == a[i..][0] == was[i];
      assert a[i + 1..] == a[i..][1..];
      Sink(a, i);
      assert was[..i + 1][..i] == was[..i];
      assert was[i + 1..] == was[i..][1..];
      i := i + 1;
    }
    assert a[..] == a[..i] && was[..i] == was;
  }

  /** The newest of the observations no later than t; of equals, the last listed. */
  function LatestAt(s: seq<Event>, t: int): (r: Option<Event>)
    ensures r.Some? ==> r.value in s && r.value.at <= t
    ensures r.None? ==> forall e :: e in s ==> e.at > t
  {
    if |s| == 0 then None
    else
      var e, older := s[|s| - 1], LatestAt(s[..|s| - 1], t);
      assert s == s[..|s| - 1] + [e];
      if e.at > t || (older.Some? && Before(e, older.value)) then older else Some(e)
  }

  datatype Option<T> = None | Some(value: T)

  lemma {:induction false} LatestAtIsNewest(s: seq<Event>, t: int)
    ensures forall e :: e in s && e.at <= t ==> LatestAt(s, t).Some? && !Before(LatestAt(s, t).value, e)
  {
    if |s| > 0 {
      LatestAtIsNewest(s[..|s| - 1], t);
      assert s == s[..|s| - 1] + [s[|s| - 1]];
    }
  }

  lemma LatestAtAppend(s: seq<Event>, e: Event, t: int)
    ensures var older := LatestAt(s, t);
            LatestAt(s + [e], t) == if e.at > t || (older.Some? && Before(e, older.value)) then older else Some(e)
  {
    assert (s + [e])[..|s|] == s;
  }

  lemma {:induction false} LatestAtInsert(s: seq<Event>, e: Event, t: int)
    requires Ordered(s)
    ensures LatestAt(Insert(s, e), t) == LatestAt(s + [e], t)
  {
    if |s| > 0 && Before(e, s[|s| - 1]) {
      var front, last := s[..|s| - 1], s[|s| - 1];
      assert s == front + [last];
      LatestAtInsert(front, e, t);
      LatestAtAppend(Insert(front, e), last, t);
      LatestAtAppend(front, e, t);
      LatestAtAppend(front, last, t);
      LatestAtAppend(s, e, t);
      assert LatestAt(front, t).Some? ==> !Before(last, LatestAt(front, t).value);
    }
  }

  /** Sorting does not change which observation is newest at any instant. */
  lemma {:induction false} LatestAtStableSort(s: seq<Event>, t: int)
    ensures LatestAt(StableSort(s), t) == LatestAt(s, t)
  {
    if |s| > 0 {
      var front, e := s[..|s| - 1], s[|s| - 1];
      LatestAtStableSort(front, t);
      StableSortOrdered(front);
      LatestAtInsert(StableSort(front), e, t);
      assert (StableSort(front) + [e])[..|StableSort(front)|] == StableSort(front);
    }
  }

  /** In an ordered list whose second element is already due, the first is never newest. */
  lemma {:induction false} LatestAtTail(s: seq<Event>, t: int)
    requires Ordered(s) && |s| >= 2 && s[1].at <= t
    ensures LatestAt(s, t) == LatestAt(s[1..], t)
  {
    var front := s[..|s| - 1];
    assert s[1..][..|s| - 2] == front[1..];
    if |s| > 2 {
      LatestAtTail(front, t);
    } else {
      assert LatestAt(front, t) == (if s[0].at > t then None else Some(s[0])) by { assert front[..0] == []; }
      assert s[1..][..0] == [];
    }
  }

  /** In an ordered list whose second element is not yet due, only the first can be newest. */
  lemma {:induction false} LatestAtHead(s: seq<Event>, t: int)
    requires Ordered(s) && |s| >= 1 && (|s| >= 2 ==> s[1].at > t)
    ensures LatestAt(s, t) == if s[0].at <= t then Some(s[0]) else None
  {
    var front := s[..|s| - 1];
    if |s| >= 2 {
      LatestAtHead(front, t);
      assert s[|s| - 1].at >= s[1].at;
    } else {
      assert front == [];
    }
  }

  /** The full storage order: time, then sequence, then row id. */
  predicate RowBefore(a: Event, b: Event) {
    Before(a, b) || (a.at == b.at && a.sequence == b.sequence && a.id < b.id)
  }

  ghost predicate RowOrdered(s: seq<Event>) {
    forall i, j :: 0 <= i < j < |s| ==> RowBefore(s[i], s[j])
  }

  /** Rows as inserted: ids grow. */
  ghost predicate RowsById(rows: seq<Event>) {
    forall i, j :: 0 <= i < j < |rows| ==> rows[i].id < rows[j].id
  }

  lemma {:induction false} InsertRowOrdered(s: seq<Event>, e: Event)
    requires RowOrdered(s) && forall x :: x in s ==> x.id < e.id
    ensures RowOrdered(Insert(s, e)) && forall x :: x in Insert(s, e) <==> x in s || x == e
  {
    if |s| > 0 && Before(e, s[|s| - 1]) {
      var front, last := s[..|s| - 1], s[|s| - 1];
      assert s == front + [last];
      InsertRowOrdered(front, e);
    } else {
      assert forall i :: 0 <= i < |s| ==> s[i] in s;
    }
  }

  /** Stably sorting rows kept in id order gives the full storage order. */
  lemma {:induction false} StableSortRowOrdered(rows: seq<Event>)
    requires RowsById(rows)
    ensures RowOrdered(StableSort(rows)) && forall x :: x in StableSort(rows) <==> x in rows
  {
    if |rows| > 0 {
      var front, e := rows[..|rows| - 1], rows[|rows| - 1];
      assert rows == front + [e];
      StableSortRowOrdered(front);
      InsertRowOrdered(StableSort(front), e);
    }
  }

  /** A list in storage order is determined by its elements. */
  lemma {:induction false} RowOrderedUnique(s: seq<Event>, r: seq<Event>)
    requires RowOrdered(s) && RowOrdered(r) && forall x :: x in s <==> x in r
    ensures s == r
  {
    assert (|s| > 0 ==> s[0] in s) && (|r| > 0 ==> r[0] in r);
    if |s| > 0 && |r| > 0 {
      assert s[0] in r && r[0] in s;
      assert s[0] == r[0];
      forall x ensures x in s[1..] <==> x in r[1..] {
        assert x in s <==> x == s[0] || x in s[1..];
        assert x in r <==> x == r[0] || x in r[1..];
      }
      RowOrderedUnique(s[1..], r[1..]);
      assert s == [s[0]] + s[1..] && r == [r[0]] + r[1..];
    }
  }
}
