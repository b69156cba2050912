/** The lock history the server derives from the stored observations, device by device. */
module LockTransitions {
  import opened EventStore
  import opened Observations
  import opened Reports
  import opened UsageLaws

  predicate IsLocked(e: Event) { e.state == Locked }

  /** The rows of one device, in storage order, whose locked-ness differs from the row before; the
      first row counts when it is a lock. */
  function Transitions(s: seq<Event>): (r: seq<Event>)
    ensures forall x :: x in r ==> x in s
  {
    if |s| == 0 then []
    else
      var front, e := Transitions(s[..|s| - 1]), s[|s| - 1];
      if (if |s| == 1 then IsLocked(e) else IsLocked(e) != IsLocked(s[|s| - 2])) then front + [e] else front
  }

  /** The last row of the list that stands no later than x in storage order. */
  function LatestUpTo(s: seq<Event>, x: Event): Option<Event> {
    if |s| == 0 then None
    else if s[|s| - 1] == x || RowBefore(s[|s| - 1], x) then Some(s[|s| - 1])
    else LatestUpTo(s[..|s| - 1], x)
  }

  /** The history ends with what the last row says. */
  lemma {:induction false} LastTransition(s: seq<Event>)
    requires |s| > 0
    ensures var h := Transitions(s); IsLocked(s[|s| - 1]) == (|h| > 0 && IsLocked(h[|h| - 1]))
  {
    if |s| > 1 {
      LastTransition(s[..|s| - 1]);
    }
  }

  /** Transitions are in storage order and alternate, beginning with a lock. */
  lemma {:induction false} TransitionsAlternate(s: seq<Event>)
    requires RowOrdered(s)
    ensures var h := Transitions(s);
            RowOrdered(h) && forall i :: 0 <= i < |h| ==> (h[i].state == Locked <==> i % 2 == 0)
  {
    if |s| > 0 {
      TransitionsAlternate(s[..|s| - 1]);
      if |s| > 1 {
        LastTransition(s[..|s| - 1]);
      }
      var h := Transitions(s[..|s| - 1]);
      forall i | 0 <= i < |h| ensures RowBefore(h[i], s[|s| - 1]) {
        assert h[i] in s[..|s| - 1];
      }
    }
  }

  lemma {:induction false} LatestUpToPast(h: seq<Event>, x: Event)
    requires |h| > 0 && (h[|h| - 1] == x || RowBefore(h[|h| - 1], x))
    ensures LatestUpTo(h, x) == Some(h[|h| - 1])
  {
  }

  /** At every row the latest transition up to it says whether that row is locked; no transition means
      unlocked. */
  lemma {:induction false} HistoryFaithful(s: seq<Event>, i: nat)
    requires RowOrdered(s) && i < |s|
    ensures var newest := LatestUpTo(Transitions(s), s[i]);
            s[i].state == Locked <==> newest.Some? && newest.value.state == Locked
  {
    var front, e := s[..|s| - 1], s[|s| - 1];
    var h := Transitions(front);
    if i < |front| {
      HistoryFaithful(front, i);
      assert (h + [e])[..|h|] == h;
    } else {
      LastTransition(s);
      var all := Transitions(s);
      if |all| > 0 {
        assert all[|all| - 1] in s;
        LatestUpToPast(all, e);
      }
    }
  }

  /** The same at any instant: the newest observation is a lock exactly when the newest transition is. */
  lemma {:induction false} HistoryAtInstant(s: seq<Event>, t: int)
    requires RowOrdered(s)
    ensures var said, newest := LatestAt(Transitions(s), t), LatestAt(s, t);
            (said.Some? && said.value.state == Locked) == (newest.Some? && newest.value.state == Locked)
  {
    if |s| > 0 {
      var front, e := s[..|s| - 1], s[|s| - 1];
      var h := Transitions(front);
      if e.at <= t {
        TransitionsAlternate(s);
        AllDue(s, t);
        AllDue(Transitions(s), t);
        LastTransition(s);
      } else {
        HistoryAtInstant(front, t);
        assert (h + [e])[..|h|] == h;
      }
    }
  }

  lemma {:induction false} AllDue(s: seq<Event>, t: int)
    requires RowOrdered(s) && forall x :: x in s ==> x.at <= t
    ensures LatestAt(s, t) == if |s| == 0 then None else Some(s[|s| - 1])
  {
    if |s| > 1 {
      AllDue(s[..|s| - 1], t);
    }
  }

  /** While the history says locked, nothing counts as use. */
  lemma LockedCountsNothing(rows: seq<Event>, device: int, start: int, end: int, now: int, maxGap: int, who: Who)
    requires ValidRows(rows)
    requires forall t :: start <= t < end && (now == ZERO_TIME || t < now) ==>
               var newest := LatestAt(Transitions(StableSort(DeviceRows(rows, device))), t);
               newest.Some? && newest.value.state == Locked
    ensures Usage(DeviceRows(rows, device), start, end, now, maxGap, who, 1) == 0
  {
    var mine, limit := DeviceRows(rows, device), EffectiveNow(end, now);
    DeviceRowsById(rows, device);
    StableSortRowOrdered(mine);
    UsageIsPointwise(mine, start, end, now, maxGap, who);
    forall t | start <= t < limit ensures !InUse(mine, t, who, maxGap) {
      HistoryAtInstant(StableSort(mine), t);
      LatestAtStableSort(mine, t);
    }
    if start < limit {
      InstantsStretch(mine, start, start, limit, who, maxGap);
    }
  }

  // ---- the query --------------------------------------------------------------

  /** The row is a transition of its own device's history. */
  predicate IsTransition(rows: seq<Event>, e: Event) {
    e in Transitions(StableSort(DeviceRows(rows, e.device)))
  }

  function TransitionRows(rows: seq<Event>, n: nat): seq<Event>
    requires n <= |rows|
  {
    if n == 0 then []
    else TransitionRows(rows, n - 1) + (if IsTransition(rows, rows[n - 1]) then [rows[n - 1]] else [])
  }

  /** Newest first, and nothing left out is newer than anything listed. */
  ghost predicate NewestOf(listed: seq<Event>, all: seq<Event>, limit: nat) {
    && |listed| == (if |all| < limit then |all| else limit)
    && (forall i, j :: 0 <= i < j < |listed| ==> listed[i].at >= listed[j].at)
    && exists rest: seq<Event> ::
         multiset(all) == multiset(listed) + multiset(rest)
         && forall x, y :: x in listed && y in rest ==> x.at >= y.at
  }

  const DEFAULT_LIMIT: nat := 200

  method ListTransitions(rows: seq<Event>, limit: int) returns (listed: seq<Event>)
    ensures NewestOf(listed, TransitionRows(rows, |rows|), if limit <= 0 then 200 else limit)
  {
    hide IsTransition, NewestOf;
    var all := [];
    for i := 0 to |rows|
      invariant all == TransitionRows(rows, i)
    {
      if IsTransition(rows, rows[i]) {
        all := all + [rows[i]];
      }
    }
    listed := Newest(all, if limit <= 0 then DEFAULT_LIMIT else limit);
  }

  /** Reads a list from its newest end. */
  method Newest(all: seq<Event>, limit: nat) returns (listed: seq<Event>)
    ensures NewestOf(listed, all, limit)
  {
    hide StableSort;
    StableSortOrdered(all);
    var sorted := StableSort(all);
    assert |sorted| == |all| by { assert |multiset(sorted)| == |multiset(all)|; }
    var i := |sorted|;
    listed := [];
    while i > 0 && |listed| < limit
      invariant 0 <= i <= |sorted| && |listed| == |sorted| - i <= limit
      invariant forall k :: 0 <= k < |listed| ==> listed[k] == sorted[|sorted| - 1 - k]
    {
      i := i - 1;
      listed := listed + [sorted[i]];
    }
    NewestEnd(sorted, i, listed);
    assert forall x, y :: x in listed && y in sorted[..i] ==> x.at >= y.at;
  }

  lemma {:induction false} NewestEnd(sorted: seq<Event>, i: nat, listed: seq<Event>)
    requires Ordered(sorted) && i <= |sorted| && |listed| == |sorted| - i
    requires forall k :: 0 <= k < |listed| ==> listed[k] == sorted[|sorted| - 1 - k]
    ensures multiset(sorted) == multiset(listed) + multiset(sorted[..i])
    ensures forall x, y :: x in listed && y in sorted[..i] ==> x.at >= y.at
    decreases |listed|
  {
    if |listed| == 0 {
      assert sorted[..i] == sorted;
    } else {
      var front := listed[..|listed| - 1];
      NewestEnd(sorted, i + 1, front);
      assert sorted[..i + 1] == sorted[..i] + [sorted[i]];
      assert listed == front + [sorted[i]];
      forall y | y in sorted[..i] ensures sorted[i].at >= y.at {
      }
    }
  }

  /** What the list is drawn from: exactly the transitions of every device's history. */
  lemma {:induction false} TransitionRowsComplete(rows: seq<Event>, n: nat)
    requires n <= |rows|
    ensures forall e :: e in TransitionRows(rows, n) <==> e in rows[..n] && IsTransition(rows, e)
  {
    if n > 0 {
      TransitionRowsComplete(rows, n - 1);
      assert rows[..n] == rows[..n - 1] + [rows[n - 1]];
    }
  }
}
