/** Usage accounting: the server's loop over observations, what it computes at
    every instant, and how reports over different windows relate. */
module Reports {
  import opened Observations

  /** The zero value of the time type: midnight of 1 January of year 1, UTC. */
  const ZERO_TIME: int := -62_135_596_800 * NS_PER_SECOND

  /** Which part of a report is meant: the total or one process. */
  datatype Who = Everyone | Process(name: string)

  /** The instants a report covers, [start, limit), and the cap on one segment. */
  datatype Window = Window(start: int, limit: int, maxGap: int)

  datatype Report = Report(totalSeconds: int, byProcess: map<string, int>)

  function ProcessOf(e: Event): string {
    if e.process == "" then "unknown" else e.process
  }

  predicate Counts(e: Event, who: Who) {
    e.state == Active && (who == Everyone || who == Process(ProcessOf(e)))
  }

  /** A report never looks past now; an unset now means the end of the window. */
  function EffectiveNow(end: int, now: int): int {
    if now == ZERO_TIME || now > end then end else now
  }

  /** How long e stands before it is replaced at next, cut to the window and the gap. */
  function Segment(e: Event, next: int, w: Window): (r: nat) {
    var until := Min(next, w.limit);
    Max(0, (if w.maxGap > 0 then Min(until, e.at + w.maxGap) else until) - Max(e.at, w.start))
  }

  function NextAt(s: seq<Event>, w: Window): int {
    if |s| > 1 then s[1].at else w.limit
  }

  /** What the first element of an ordered list contributes, in whole units. */
  function Share(s: seq<Event>, who: Who, w: Window, unit: int): nat
    requires |s| > 0 && unit > 0
  {
    if Counts(s[0], who) then Segment(s[0], NextAt(s, w), w) / unit else 0
  }

  /** The sum over an ordered list, every segment floored to the unit on its own. */
  function Amount(s: seq<Event>, who: Who, w: Window, unit: int): nat
    requires unit > 0
  {
    if |s| == 0 then 0 else Share(s, who, w, unit) + Amount(s[1..], who, w, unit)
  }

  function Usage(events: seq<Event>, start: int, end: int, now: int, maxGap: int, who: Who, unit: int): nat
    requires unit > 0
  {
    Amount(StableSort(events), who, Window(start, EffectiveNow(end, now), maxGap), unit)
  }

  // ---- the loop of the server -------------------------------------------------

  ghost function Sum(m: map<string, int>): int {
    if m == map[] then 0 else var k :| k in m; m[k] + Sum(m - {k})
  }

  lemma {:induction false} SumRemove(m: map<string, int>, k: string)
    requires k in m
    ensures Sum(m) == m[k] + Sum(m - {k})
    decreases |m|
  {
    var j :| j in m && Sum(m) == m[j] + Sum(m - {j});
    if j != k {
      SumRemove(m - {j}, k);
      SumRemove(m - {k}, j);
      assert m - {j} - {k} == m - {k} - {j};
    }
  }

  lemma SumUpdate(m: map<string, int>, k: string, v: int)
    ensures Sum(m[k := v]) == Sum(m) - (if k in m then m[k] else 0) + v
  {
    SumRemove(m[k := v], k);
    if k in m {
      SumRemove(m, k);
      assert m[k := v] - {k} == m - {k};
    } else {
      assert m[k := v] - {k} == m;
    }
  }

  lemma {:induction false} EmptyWindow(s: seq<Event>, who: Who, w: Window, unit: int)
    requires unit > 0 && w.limit <= w.start
    ensures Amount(s, who, w, unit) == 0
  {
    if |s| > 0 {
      EmptyWindow(s[1..], who, w, unit);
    }
  }

  function Get(m: map<string, int>, k: string): int {
    if k in m then m[k] else 0
  }

  /** What a report must hold for the list it was made from. */
  ghost predicate IsReport(r: Report, events: seq<Event>, start: int, end: int, now: int, maxGap: int) {
    && r.totalSeconds == Usage(events, start, end, now, maxGap, Everyone, NS_PER_SECOND) == Sum(r.byProcess)
    && forall p :: Get(r.byProcess, p) == Usage(events, start, end, now, maxGap, Process(p), NS_PER_SECOND)
               && (p in r.byProcess <==> Usage(events, start, end, now, maxGap, Process(p), NS_PER_SECOND) > 0)
  }

  /** Part of the loop's state: what is still missing is the amount of the rest. */
  ghost predicate Partial(r: Report, s: seq<Event>, i: nat, w: Window)
    requires i <= |s|
  {
    && r.totalSeconds == Sum(r.byProcess)
    && r.totalSeconds + Amount(s[i..], Everyone, w, NS_PER_SECOND) == Amount(s, Everyone, w, NS_PER_SECOND)
    && (forall p :: Get(r.byProcess, p) + Amount(s[i..], Process(p), w, NS_PER_SECOND)
                 == Amount(s, Process(p), w, NS_PER_SECOND))
    && (forall p :: p in r.byProcess ==> r.byProcess[p] > 0)
  }

  function Add(r: Report, process: string, seconds: int): Report {
    Report(r.totalSeconds + seconds, r.byProcess[process := Get(r.byProcess, process) + seconds])
  }

  /** One turn of the loop adds exactly the share of the element it looked at. */
  lemma PartialStep(r: Report, s: seq<Event>, i: nat, w: Window, seconds: nat)
    requires i < |s| && Partial(r, s, i, w)
    requires seconds == Share(s[i..], Everyone, w, NS_PER_SECOND)
    ensures Partial(if seconds > 0 then Add(r, ProcessOf(s[i]), seconds) else r, s, i + 1, w)
  {
    var q := ProcessOf(s[i]);
    assert s[i..][1..] == s[i + 1..];
    forall p
      ensures Amount(s[i..], Process(p), w, NS_PER_SECOND)
           == (if p == q then seconds else 0) + Amount(s[i + 1..], Process(p), w, NS_PER_SECOND)
    {
      assert s[i..][0] == s[i];
    }
    SumUpdate(r.byProcess, q, Get(r.byProcess, q) + seconds);
  }

  lemma PartialStart(s: seq<Event>, w: Window)
    ensures Partial(Report(0, map[]), s, 0, w)
  {
    assert s[0..] == s;
  }

  lemma NothingCounted(events: seq<Event>, start: int, end: int, now: int, maxGap: int)
    requires events == [] || EffectiveNow(end, now) <= start
    ensures IsReport(Report(0, map[]), events, start, end, now, maxGap)
  {
    var w := Window(start, EffectiveNow(end, now), maxGap);
    forall who ensures Amount(StableSort(events), who, w, NS_PER_SECOND) == 0 {
      if |events| > 0 { EmptyWindow(StableSort(events), who, w, NS_PER_SECOND); }
    }
  }

  lemma AllCounted(r: Report, events: seq<Event>, start: int, end: int, now: int, maxGap: int)
    requires Partial(r, StableSort(events), |StableSort(events)|, Window(start, EffectiveNow(end, now), maxGap))
    ensures IsReport(r, events, start, end, now, maxGap)
  {
    var s := StableSort(events);
    assert s[|s|..] == [];
  }

  /** One turn of the loop: the seconds the i-th of the ordered observations counts for. */
  method SecondsOf(ordered: array<Event>, i: nat, start: int, end: int, now: int, maxGap: int) returns (seconds: int)
    requires i < ordered.Length && now <= end
    ensures seconds == Share(ordered[..][i..], Everyone, Window(start, now, maxGap), NS_PER_SECOND)
  {
    var event := ordered[i];
    assert ordered[..][i..][0] == event;
    assert i + 1 < ordered.Length ==> ordered[..][i..][1] == ordered[i + 1];
    if event.state != Active || event.at >= end {
      return 0;
    }
    var next := now;
    if i + 1 < ordered.Length {
      next := ordered[i + 1].at;
    }
    if next > now {
      next := now;
    }
    if next > end {
      next := end;
    }
    if maxGap > 0 {
      var capped := event.at + maxGap;
      if next > capped {
        next := capped;
      }
    }
    var segmentStart := event.at;
    if segmentStart < start {
      segmentStart := start;
    }
    return if next > segmentStart then (next - segmentStart) / NS_PER_SECOND else 0;
  }

  method CalculateUsage(events: seq<Event>, start: int, end: int, now: int, maxGap: int) returns (report: Report)
    ensures IsReport(report, events, start, end, now, maxGap)
  {
    hide Partial, IsReport, StableSort, Share;
    report := Report(0, map[]);
    var effective := now;
    if effective == ZERO_TIME || effective > end {
      effective := end;
    }
    if |events| == 0 || end <= start || effective < start {
      NothingCounted(events, start, end, now, maxGap);
      return;
    }

    var ordered := new Event[|events|](i requires 0 <= i < |events| => events[i]);
    assert ordered[..] == events;
    SortStable(ordered);
    ghost var s := ordered[..];
    ghost var w := Window(start, effective, maxGap);
    PartialStart(s, w);
    for i := 0 to ordered.Length
      invariant ordered[..] == s && Partial(report, s, i, w)
    {
      var seconds := SecondsOf(ordered, i, start, end, effective, maxGap);
      PartialStep(report, s, i, w, seconds);
      if seconds > 0 {
        report := Add(report, ProcessOf(ordered[i]), seconds);
      }
    }
    AllCounted(report, events, start, end, now, maxGap);
  }
}
