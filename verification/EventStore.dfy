/** The server's event table: deduplicating inserts and the fetch a report is made from. */
module EventStore {
  import opened Observations
  import opened Reports

  /** A validated observation, before it becomes a row. */
  datatype EventInput = EventInput(uuid: string, at: int, state: State, process: string, sequence: int)

  /** Ids count up from 1 in insertion order and an event id occurs once. */
  ghost predicate ValidRows(rows: seq<Event>) {
    && (forall i :: 0 <= i < |rows| ==> rows[i].id == i + 1)
    && (forall i, j :: 0 <= i < j < |rows| ==> rows[i].uuid != rows[j].uuid)
  }

  predicate Known(rows: seq<Event>, uuid: string) {
    exists i :: 0 <= i < |rows| && rows[i].uuid == uuid
  }

  function RowOf(id: int, device: int, input: EventInput): Event {
    Event(id, input.uuid, device, input.at, input.state,
          if input.state == Active then input.process else "", input.sequence)
  }

  /** INSERT OR IGNORE on the unique event id. */
  function InsertOne(rows: seq<Event>, device: int, input: EventInput): seq<Event> {
    if Known(rows, input.uuid) then rows else rows + [RowOf(|rows| + 1, device, input)]
  }

  function InsertAll(rows: seq<Event>, device: int, inputs: seq<EventInput>): (r: seq<Event>)
    ensures rows <= r
  {
    if |inputs| == 0 then rows
    else
      var front := InsertAll(rows, device, inputs[..|inputs| - 1]);
      InsertOne(front, device, inputs[|inputs| - 1])
  }

  /** Insertion keeps the table valid, keeps every old row in place, and leaves every
      input's id known. */
  lemma {:induction false} InsertAllValid(rows: seq<Event>, device: int, inputs: seq<EventInput>)
    requires ValidRows(rows)
    ensures ValidRows(InsertAll(rows, device, inputs))
    ensures forall u :: Known(InsertAll(rows, device, inputs), u)
                   <==> Known(rows, u) || exists i :: 0 <= i < |inputs| && inputs[i].uuid == u
  {
    if |inputs| > 0 {
      var front, last := inputs[..|inputs| - 1], inputs[|inputs| - 1];
      InsertAllValid(rows, device, front);
      var r, q := InsertAll(rows, device, front), InsertAll(rows, device, inputs);
      forall u ensures Known(q, u) <==> Known(r, u) || u == last.uuid {
        if Known(r, last.uuid) {
        } else {
          assert q[|r|].uuid == last.uuid;
          assert forall i :: 0 <= i < |r| ==> q[i] == r[i];
        }
      }
      assert forall i :: 0 <= i < |front| ==> inputs[i] == front[i];
    }
  }

  lemma {:induction false} InsertAllConcat(rows: seq<Event>, device: int, a: seq<EventInput>, b: seq<EventInput>)
    ensures InsertAll(InsertAll(rows, device, a), device, b) == InsertAll(rows, device, a + b)
  {
    if |b| == 0 {
      assert a + b == a;
    } else {
      InsertAllConcat(rows, device, a, b[..|b| - 1]);
      assert (a + b)[..|a + b| - 1] == a + b[..|b| - 1];
    }
  }

  lemma {:induction false} InsertKnown(rows: seq<Event>, device: int, inputs: seq<EventInput>)
    requires forall i :: 0 <= i < |inputs| ==> Known(rows, inputs[i].uuid)
    ensures InsertAll(rows, device, inputs) == rows
  {
    if |inputs| > 0 {
      InsertKnown(rows, device, inputs[..|inputs| - 1]);
    }
  }

  /** Sending a prefix first and then everything changes nothing: same rows, same ids, same order. */
  lemma ResendPrefix(rows: seq<Event>, device: int, inputs: seq<EventInput>, sent: nat)
    requires ValidRows(rows) && sent <= |inputs|
    ensures InsertAll(InsertAll(rows, device, inputs[..sent]), device, inputs) == InsertAll(rows, device, inputs)
  {
    var part := InsertAll(rows, device, inputs[..sent]);
    InsertAllValid(rows, device, inputs[..sent]);
    assert inputs == inputs[..sent] + inputs[sent..];
    forall i | 0 <= i < sent ensures Known(part, inputs[..sent][i].uuid) {
    }
    InsertKnown(part, device, inputs[..sent]);
    InsertAllConcat(part, device, inputs[..sent], inputs[sent..]);
    InsertAllConcat(rows, device, inputs[..sent], inputs[sent..]);
  }

  function DeviceRows(rows: seq<Event>, device: int): seq<Event> {
    if |rows| == 0 then []
    else
      var front, e := DeviceRows(rows[..|rows| - 1], device), rows[|rows| - 1];
      if e.device == device then front + [e] else front
  }

  lemma {:induction false} DeviceRowsById(rows: seq<Event>, device: int)
    requires RowsById(rows)
    ensures RowsById(DeviceRows(rows, device))
    ensures forall x :: x in DeviceRows(rows, device) <==> x in rows && x.device == device
  {
    if |rows| > 0 {
      var front, e := rows[..|rows| - 1], rows[|rows| - 1];
      DeviceRowsById(front, device);
      assert rows == front + [e];
      assert forall x :: x in front ==> x.id < e.id;
    }
  }

  lemma DeviceRowsAppend(rows: seq<Event>, e: Event, device: int)
    ensures DeviceRows(rows + [e], device) == DeviceRows(rows, device) + if e.device == device then [e] else []
  {
    assert (rows + [e])[..|rows|] == rows;
  }

  lemma {:induction false} AllOfOneDevice(rows: seq<Event>, device: int)
    requires forall x :: x in rows ==> x.device == device
    ensures DeviceRows(rows, device) == rows
  {
    if |rows| > 0 {
      AllOfOneDevice(rows[..|rows| - 1], device);
    }
  }

  // ---- what a device's rows hold ----------------------------------------------

  /** The row says what was reported; only an active one names a process. */
  predicate Carries(row: Event, device: int, input: EventInput) {
    && row.uuid == input.uuid && row.device == device && row.at == input.at && row.state == input.state
    && row.process == (if input.state == Active then input.process else "") && row.sequence == input.sequence
  }

  /** The input's id is in no row, and it is the first of the inputs with this id. */
  ghost predicate FirstWithId(rows: seq<Event>, inputs: seq<EventInput>, i: nat) {
    i < |inputs| && !Known(rows, inputs[i].uuid) && forall j :: 0 <= j < i ==> inputs[j].uuid != inputs[i].uuid
  }

  ghost predicate ShownAs(rows: seq<Event>, device: int, input: EventInput) {
    exists x :: x in rows && Carries(x, device, input)
  }

  ghost predicate ComesFrom(row: Event, rows: seq<Event>, device: int, inputs: seq<EventInput>) {
    exists i: nat :: FirstWithId(rows, inputs, i) && Carries(row, device, inputs[i])
  }

  /** The device's rows grow by what was reported for it under a new id, and other devices' rows stay. */
  ghost predicate GrowsFor(rows: seq<Event>, rows': seq<Event>, device: int, inputs: seq<EventInput>) {
    && (forall d :: d != device ==> DeviceRows(rows', d) == DeviceRows(rows, d))
    && DeviceRows(rows, device) <= DeviceRows(rows', device)
    && (forall i: nat :: FirstWithId(rows, inputs, i) ==> ShownAs(DeviceRows(rows', device), device, inputs[i]))
    && (forall x :: x in DeviceRows(rows', device) && x !in DeviceRows(rows, device)
                    ==> ComesFrom(x, rows, device, inputs))
  }

  lemma {:induction false} InsertedForDevice(rows: seq<Event>, device: int, inputs: seq<EventInput>)
    requires ValidRows(rows)
    ensures GrowsFor(rows, InsertAll(rows, device, inputs), device, inputs)
  {
    hide GrowsFor, Known, InsertOne;
    if |inputs| == 0 {
      NothingForDevice(rows, device);
    } else {
      var front, last := inputs[..|inputs| - 1], inputs[|inputs| - 1];
      InsertedForDevice(rows, device, front);
      InsertAllValid(rows, device, front);
      OneMoreForDevice(rows, InsertAll(rows, device, front), device, front, last);
      assert front + [last] == inputs;
    }
  }

  lemma NothingForDevice(rows: seq<Event>, device: int)
    ensures GrowsFor(rows, rows, device, [])
  {
  }

  lemma OneMoreForDevice(rows: seq<Event>, r: seq<Event>, device: int, front: seq<EventInput>, last: EventInput)
    requires GrowsFor(rows, r, device, front)
    requires forall u :: Known(r, u) <==> Known(rows, u) || exists i :: 0 <= i < |front| && front[i].uuid == u
    ensures GrowsFor(rows, InsertOne(r, device, last), device, front + [last])
  {
    hide DeviceRows, Known;
    var inputs, r' := front + [last], InsertOne(r, device, last);
    assert forall j :: 0 <= j < |front| ==> inputs[j] == front[j];
    forall i: nat | i < |front| ensures FirstWithId(rows, front, i) <==> FirstWithId(rows, inputs, i) {
    }
    assert FirstWithId(rows, inputs, |front|) <==> !Known(r, last.uuid);
    var e := RowOf(|r| + 1, device, last);
    forall d ensures DeviceRows(r', d) == DeviceRows(r, d) + if d == device && !Known(r, last.uuid) then [e] else [] {
      DeviceRowsAppend(r, e, d);
    }
    forall i: nat | FirstWithId(rows, inputs, i) ensures ShownAs(DeviceRows(r', device), device, inputs[i]) {
      if i < |front| {
        var x :| x in DeviceRows(r, device) && Carries(x, device, front[i]);
        assert x in DeviceRows(r', device);
      } else {
        assert e in DeviceRows(r', device) && Carries(e, device, last);
      }
    }
    forall x | x in DeviceRows(r', device) && x !in DeviceRows(rows, device)
      ensures ComesFrom(x, rows, device, inputs) {
      if x in DeviceRows(r, device) {
        var i: nat :| FirstWithId(rows, front, i) && Carries(x, device, front[i]);
        assert FirstWithId(rows, inputs, i) && inputs[i] == front[i];
      } else {
        assert x == e && Carries(e, device, inputs[|front|]);
      }
    }
  }

  function Within(rows: seq<Event>, start: int, end: int): seq<Event> {
    if |rows| == 0 then []
    else
      var front, e := Within(rows[..|rows| - 1], start, end), rows[|rows| - 1];
      if start <= e.at < end then front + [e] else front
  }

  lemma {:induction false} WithinById(rows: seq<Event>, start: int, end: int)
    requires RowsById(rows)
    ensures RowsById(Within(rows, start, end))
    ensures forall x :: x in Within(rows, start, end) <==> x in rows && start <= x.at < end
  {
    if |rows| > 0 {
      var front, e := rows[..|rows| - 1], rows[|rows| - 1];
      WithinById(front, start, end);
      assert rows == front + [e];
      assert forall x :: x in front ==> x.id < e.id;
    }
  }

  /** The last row before t in storage order. */
  ghost predicate IsLastBefore(rows: seq<Event>, t: int, e: Event) {
    e in rows && e.at < t && forall x :: x in rows && x.at < t ==> x == e || RowBefore(x, e)
  }

  ghost predicate IsWindow(rows: seq<Event>, start: int, end: int, window: seq<Event>) {
    RowOrdered(window) && forall x :: x in window <==> x in rows && start <= x.at < end
  }

  /** What the two queries of a report return for one device's rows: the last row before
      the window in storage order, if there is one, then the window's rows in storage order. */
  ghost predicate IsFetch(rows: seq<Event>, start: int, end: int, fetched: seq<Event>) {
    if forall x :: x in rows ==> x.at >= start then IsWindow(rows, start, end, fetched)
    else |fetched| > 0 && IsLastBefore(rows, start, fetched[0]) && IsWindow(rows, start, end, fetched[1..])
  }

  lemma {:induction false} LatestAtIsLastRow(rows: seq<Event>, t: int)
    requires RowsById(rows)
    ensures forall x :: x in rows && x.at <= t ==>
              LatestAt(rows, t).Some? && (x == LatestAt(rows, t).value || RowBefore(x, LatestAt(rows, t).value))
  {
    if |rows| > 0 {
      var front, e := rows[..|rows| - 1], rows[|rows| - 1];
      LatestAtIsLastRow(front, t);
      assert rows == front + [e];
      assert forall x :: x in front ==> x.id < e.id;
    }
  }

  lemma {:induction false} DropFront(s: seq<Event>, n: nat, who: Who, w: Window, unit: int)
    requires unit > 0 && Ordered(s) && n < |s| && s[n].at <= w.start
    ensures Amount(s, who, w, unit) == Amount(s[n..], who, w, unit)
  {
    if n > 0 {
      assert s[1].at <= s[n].at;
      DropFront(s[1..], n - 1, who, w, unit);
      assert s[1..][n - 1..] == s[n..];
    } else {
      assert s[0..] == s;
    }
  }

  lemma {:induction false} DropBack(s: seq<Event>, n: nat, who: Who, w: Window, unit: int)
    requires unit > 0 && Ordered(s) && n <= |s| && forall i :: n <= i < |s| ==> s[i].at >= w.limit
    ensures Amount(s, who, w, unit) == Amount(s[..n], who, w, unit)
  {
    if |s| > 0 {
      if n > 0 {
        DropBack(s[1..], n - 1, who, w, unit);
        assert s[..n][1..] == s[1..][..n - 1];
      } else {
        DropBack(s[1..], 0, who, w, unit);
        assert s[1..][..0] == s[..0];
      }
    }
  }

  lemma RowOrderedOrdered(s: seq<Event>)
    requires RowOrdered(s)
    ensures Ordered(s)
  {
  }

  lemma {:induction false} SplitPoint(s: seq<Event>, t: int) returns (n: nat)
    requires Ordered(s)
    ensures n <= |s| && (forall i :: 0 <= i < n ==> s[i].at < t) && forall i :: n <= i < |s| ==> s[i].at >= t
  {
    n := 0;
    while n < |s| && s[n].at < t
      invariant 0 <= n <= |s| && forall i :: 0 <= i < n ==> s[i].at < t
    {
      n := n + 1;
    }
  }

  lemma WindowIsSlice(rows: seq<Event>, s: seq<Event>, start: int, end: int, window: seq<Event>, mid: nat, hi: nat)
    requires RowOrdered(s) && (forall x :: x in s <==> x in rows) && IsWindow(rows, start, end, window)
    requires mid <= hi <= |s|
    requires forall i :: 0 <= i < |s| ==> (s[i].at >= start <==> i >= mid) && (s[i].at < end <==> i < hi)
    ensures window == s[mid..hi]
  {
    forall x ensures x in s[mid..hi] <==> x in window {
      if x in s[mid..hi] {
        var i :| 0 <= i < hi - mid && s[mid..hi][i] == x;
        assert s[mid + i] == x;
      }
      if x in window {
        assert x in s;
        var i :| 0 <= i < |s| && s[i] == x;
        assert s[mid..hi][i - mid] == x;
      }
    }
    RowOrderedUnique(s[mid..hi], window);
  }

  lemma LastBeforeIsElement(rows: seq<Event>, s: seq<Event>, start: int, e: Event, mid: nat)
    requires RowOrdered(s) && (forall x :: x in s <==> x in rows) && IsLastBefore(rows, start, e)
    requires mid <= |s| && forall i :: 0 <= i < |s| ==> (s[i].at >= start <==> i >= mid)
    ensures mid > 0 && s[mid - 1] == e
  {
    assert e in s;
    var i :| 0 <= i < |s| && s[i] == e;
    assert s[mid - 1] in s;
    if i != mid - 1 {
      assert RowBefore(s[i], s[mid - 1]);
    }
  }

  lemma HeadInFront(s: seq<Event>, mid: nat, hi: nat, fetched: seq<Event>)
    requires 0 < mid <= hi <= |s| && |fetched| > 0 && fetched[0] == s[mid - 1] && fetched[1..] == s[mid..hi]
    ensures fetched == s[mid - 1..hi]
  {
    assert fetched == [fetched[0]] + fetched[1..];
    assert s[mid - 1..hi] == [s[mid - 1]] + s[mid..hi];
  }

  /** Where the rows of a window lie in storage order. */
  ghost predicate Splits(s: seq<Event>, start: int, end: int, mid: nat, hi: nat) {
    && mid <= hi <= |s|
    && forall i :: 0 <= i < |s| ==> (s[i].at >= start <==> i >= mid) && (s[i].at < end <==> i < hi)
  }

  lemma SplitsBounds(s: seq<Event>, start: int, end: int, mid: nat, hi: nat)
    requires Splits(s, start, end, mid, hi)
    ensures mid <= hi <= |s|
  {
  }

  lemma SplitPoints(s: seq<Event>, start: int, end: int) returns (mid: nat, hi: nat)
    requires Ordered(s) && start <= end
    ensures Splits(s, start, end, mid, hi)
  {
    mid := SplitPoint(s, start);
    hi := SplitPoint(s, end);
    assert hi < |s| ==> s[hi].at >= start;
  }

  lemma FetchFromStart(rows: seq<Event>, s: seq<Event>, start: int, end: int, fetched: seq<Event>, hi: nat)
    requires RowOrdered(s) && (forall x :: x in s <==> x in rows) && IsFetch(rows, start, end, fetched)
    requires Splits(s, start, end, 0, hi)
    ensures fetched == s[0..hi]
  {
    forall x | x in rows ensures x.at >= start {
      assert x in s;
    }
    WindowIsSlice(rows, s, start, end, fetched, 0, hi);
  }

  lemma FetchAfterOlder(rows: seq<Event>, s: seq<Event>, start: int, end: int, fetched: seq<Event>, mid: nat, hi: nat)
    requires RowOrdered(s) && (forall x :: x in s <==> x in rows) && IsFetch(rows, start, end, fetched)
    requires Splits(s, start, end, mid, hi) && mid > 0
    ensures fetched == s[mid - 1..hi]
  {
    assert s[0] in s && s[0].at < start;
    LastBeforeIsElement(rows, s, start, fetched[0], mid);
    WindowIsSlice(rows, s, start, end, fetched[1..], mid, hi);
    HeadInFront(s, mid, hi, fetched);
  }

  /** The fetch is a slice of all the rows in storage order. */
  lemma FetchIsSlice(rows: seq<Event>, s: seq<Event>, start: int, end: int, fetched: seq<Event>)
    returns (lo: nat, mid: nat, hi: nat)
    requires RowOrdered(s) && (forall x :: x in s <==> x in rows)
    requires IsFetch(rows, start, end, fetched) && start <= end
    ensures Splits(s, start, end, mid, hi)
    ensures mid <= hi <= |s| && lo == (if mid == 0 then 0 else mid - 1) && fetched == s[lo..hi]
  {
    hide IsFetch, Splits;
    RowOrderedOrdered(s);
    mid, hi := SplitPoints(s, start, end);
    SplitsBounds(s, start, end, mid, hi);
    if mid == 0 {
      FetchFromStart(rows, s, start, end, fetched, hi);
      lo := 0;
    } else {
      FetchAfterOlder(rows, s, start, end, fetched, mid, hi);
      lo := mid - 1;
    }
  }

  /** Rows before the last one older than the window, and rows after the window, add nothing. */
  lemma SliceSuffices(s: seq<Event>, start: int, end: int, mid: nat, hi: nat, who: Who, w: Window, unit: int)
    requires unit > 0 && Ordered(s) && Splits(s, start, end, mid, hi) && start <= w.start && w.limit <= end
    ensures Amount(s, who, w, unit) == Amount(s[if mid == 0 then 0 else mid - 1..hi], who, w, unit)
  {
    DropBack(s, hi, who, w, unit);
    if mid > 0 {
      assert s[..hi][mid - 1] == s[mid - 1];
      DropFront(s[..hi], mid - 1, who, w, unit);
      assert s[..hi][mid - 1..] == s[mid - 1..hi];
    } else {
      assert s[..hi] == s[0..hi];
    }
  }

  lemma SliceOrdered(s: seq<Event>, lo: nat, hi: nat)
    requires Ordered(s) && lo <= hi <= |s|
    ensures Ordered(s[lo..hi])
  {
  }

  lemma NoTimeNoUsage(events: seq<Event>, from: int, to: int, now: int, maxGap: int, who: Who, unit: int)
    requires unit > 0 && to <= from
    ensures Usage(events, from, to, now, maxGap, who, unit) == 0
  {
    EmptyWindow(StableSort(events), who, Window(from, EffectiveNow(to, now), maxGap), unit);
  }

  /** A report over any window inside the fetched one is the same as from all the device's rows. */
  lemma FetchSuffices(rows: seq<Event>, start: int, end: int, fetched: seq<Event>,
                      from: int, to: int, now: int, maxGap: int, who: Who, unit: int)
    requires unit > 0 && RowsById(rows) && IsFetch(rows, start, end, fetched)
    requires start <= from && to <= end
    ensures Usage(fetched, from, to, now, maxGap, who, unit) == Usage(rows, from, to, now, maxGap, who, unit)
  {
    hide IsFetch, Splits, Ordered, RowOrdered, RowsById, StableSort, Amount;
    if end < start {
      NoTimeNoUsage(rows, from, to, now, maxGap, who, unit);
      NoTimeNoUsage(fetched, from, to, now, maxGap, who, unit);
    } else {
      var s := StableSort(rows);
      StableSortOrdered(rows);
      StableSortRowOrdered(rows);
      var lo, mid, hi := FetchIsSlice(rows, s, start, end, fetched);
      SliceOrdered(s, lo, hi);
      StableSortKeepsOrdered(fetched);
      SliceSuffices(s, start, end, mid, hi, who, Window(from, EffectiveNow(to, now), maxGap), unit);
    }
  }

  /** So a whole report made from the fetch is the report on all the device's rows. */
  lemma FetchedReport(r: Report, rows: seq<Event>, start: int, end: int, fetched: seq<Event>,
                      from: int, to: int, now: int, maxGap: int)
    requires RowsById(rows) && IsFetch(rows, start, end, fetched)
    requires start <= from && to <= end
    requires IsReport(r, fetched, from, to, now, maxGap)
    ensures IsReport(r, rows, from, to, now, maxGap)
  {
    forall who ensures Usage(fetched, from, to, now, maxGap, who, NS_PER_SECOND)
                    == Usage(rows, from, to, now, maxGap, who, NS_PER_SECOND) {
      FetchSuffices(rows, start, end, fetched, from, to, now, maxGap, who, NS_PER_SECOND);
    }
  }

  class Store {
    var rows: seq<Event>

    ghost predicate Valid() reads this { ValidRows(rows) }

    constructor ()
      ensures Valid() && rows == []
    {
      rows := [];
    }

    method InsertEvents(device: int, events: seq<EventInput>) returns (accepted: nat, ignored: nat)
      requires Valid()
      modifies this
      ensures Valid() && rows == InsertAll(old(rows), device, events)
      ensures GrowsFor(old(rows), rows, device, events)
      ensures accepted == |rows| - |old(rows)| && accepted + ignored == |events|
    {
      accepted, ignored := 0, 0;
      ghost var was := rows;
      for i := 0 to |events|
        invariant rows == InsertAll(was, device, events[..i])
        invariant accepted == |rows| - |was| && accepted + ignored == i
      {
        assert events[..i + 1][..i] == events[..i];
        if Known(rows, events[i].uuid) {
          ignored := ignored + 1;
        } else {
          rows := rows + [RowOf(|rows| + 1, device, events[i])];
          accepted := accepted + 1;
        }
      }
      assert events[..|events|] == events;
      InsertAllValid(was, device, events);
      InsertedForDevice(was, device, events);
    }

    method ReportEvents(device: int, start: int, end: int) returns (events: seq<Event>)
      requires Valid()
      ensures IsFetch(DeviceRows(rows, device), start, end, events)
    {
      var mine := DeviceRows(rows, device);
      assert RowsById(rows);
      DeviceRowsById(rows, device);
      var before := LatestAt(mine, start - 1);
      LatestAtIsLastRow(mine, start - 1);
      var window := StableSort(Within(mine, start, end));
      WithinById(mine, start, end);
      StableSortRowOrdered(Within(mine, start, end));
      events := if before.Some? then [before.value] + window else window;
    }
  }
}
