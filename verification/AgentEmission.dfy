/** The user-session agent reports an observation only when it changed or a heartbeat is
    due. What that leaves out does not change the server's usage report. */
module AgentEmission {
  import opened Observations
  import opened Reports
  import opened WindowLaws

  const HEARTBEAT: int := 60 * NS_PER_SECOND

  predicate SameActivity(a: Event, b: Event) {
    a.state == b.state && a.process == b.process
  }

  predicate ShouldEmit(last: Option<Event>, current: Event, lastSentAt: int, now: int, heartbeat: int) {
    if last.None? then true
    else if !SameActivity(last.value, current) then true
    else if heartbeat <= 0 then true
    else now >= lastSentAt + heartbeat
  }

  /** What is still sent of the observations `rest` after `last` was sent. */
  function EmittedAfter(last: Event, rest: seq<Event>): seq<Event>
    decreases rest
  {
    if |rest| == 0 then []
    else if ShouldEmit(Some(last), rest[0], last.at, rest[0].at, HEARTBEAT)
    then [rest[0]] + EmittedAfter(rest[0], rest[1..])
    else EmittedAfter(last, rest[1..])
  }

  function Emitted(observed: seq<Event>): seq<Event> {
    if |observed| == 0 then [] else [observed[0]] + EmittedAfter(observed[0], observed[1..])
  }

  /** What gets through of the observations when `ok` says which posts succeed: after a failed post the
      agent is where it was. */
  function Sent(last: Option<Event>, rest: seq<Event>, ok: seq<bool>): seq<Event>
    requires |ok| == |rest|
    decreases rest
  {
    if |rest| == 0 then []
    else if ShouldEmit(last, rest[0], if last.Some? then last.value.at else 0, rest[0].at, HEARTBEAT) then
      if ok[0] then [rest[0]] + Sent(Some(rest[0]), rest[1..], ok[1..]) else Sent(last, rest[1..], ok[1..])
    else Sent(last, rest[1..], ok[1..])
  }

  /** The observations without those whose post was tried and failed. */
  function Heard(last: Option<Event>, rest: seq<Event>, ok: seq<bool>): seq<Event>
    requires |ok| == |rest|
    decreases rest
  {
    if |rest| == 0 then []
    else if ShouldEmit(last, rest[0], if last.Some? then last.value.at else 0, rest[0].at, HEARTBEAT) then
      if ok[0] then [rest[0]] + Heard(Some(rest[0]), rest[1..], ok[1..]) else Heard(last, rest[1..], ok[1..])
    else [rest[0]] + Heard(last, rest[1..], ok[1..])
  }

  /** The reporting part of the agent's loop. */
  method Report(observed: seq<Event>, ok: seq<bool>) returns (sent: seq<Event>)
    requires |ok| == |observed|
    ensures sent == Sent(None, observed, ok)
  {
    sent := [];
    var last: Option<Event>, lastSentAt := None, 0;
    for i := 0 to |observed|
      invariant lastSentAt == if last.Some? then last.value.at else 0
      invariant sent + Sent(last, observed[i..], ok[i..]) == Sent(None, observed, ok)
    {
      var event := observed[i];
      assert observed[i..][1..] == observed[i + 1..] && ok[i..][1..] == ok[i + 1..];
      if ShouldEmit(last, event, lastSentAt, event.at, HEARTBEAT) {
        if ok[i] {
          sent := sent + [event];
          last, lastSentAt := Some(event), event.at;
        }
      }
    }
  }

  /** An observation whose post failed might as well not have been made: what gets through is what the
      filter lets through of the others. */
  lemma {:induction false} FailedIsUnheard(last: Option<Event>, rest: seq<Event>, ok: seq<bool>)
    requires |ok| == |rest|
    ensures Sent(last, rest, ok)
         == if last.Some? then EmittedAfter(last.value, Heard(last, rest, ok)) else Emitted(Heard(last, rest, ok))
    ensures (forall i :: 0 <= i < |ok| ==> ok[i]) ==> Heard(last, rest, ok) == rest
    decreases rest
  {
    if |rest| > 0 {
      var emit := ShouldEmit(last, rest[0], if last.Some? then last.value.at else 0, rest[0].at, HEARTBEAT);
      var next := if emit && ok[0] then Some(rest[0]) else last;
      FailedIsUnheard(next, rest[1..], ok[1..]);
      if !emit || ok[0] {
        var more := Heard(next, rest[1..], ok[1..]);
        assert ([rest[0]] + more)[1..] == more && ([rest[0]] + more)[0] == rest[0];
      }
    }
  }

  /** What was sent last, once the agent has seen `rest` after sending `last`. */
  function LastSent(last: Event, rest: seq<Event>): Event {
    var sent := EmittedAfter(last, rest);
    if |sent| == 0 then last else sent[|sent| - 1]
  }

  /** Nothing is left unsaid: what was sent last has the activity of the newest observation and is
      less than a heartbeat older. */
  lemma {:induction false} NewestIsRepresented(last: Event, rest: seq<Event>)
    requires |rest| > 0
    ensures var told, newest := LastSent(last, rest), rest[|rest| - 1];
            told.state == newest.state && told.process == newest.process
    ensures rest[|rest| - 1].at - LastSent(last, rest).at < 60 * NS_PER_SECOND
    decreases rest
  {
    var emit := ShouldEmit(Some(last), rest[0], last.at, rest[0].at, HEARTBEAT);
    if |rest| > 1 {
      NewestIsRepresented(if emit then rest[0] else last, rest[1..]);
    } else {
      assert EmittedAfter(rest[0], rest[1..]) == [] && EmittedAfter(last, rest[1..]) == [];
    }
  }

  /** And nothing is said twice: neighbours differ in activity or are a heartbeat apart. */
  lemma {:induction false} EmittedSparse(last: Event, rest: seq<Event>, i: nat)
    requires i < |EmittedAfter(last, rest)|
    ensures var sent := [last] + EmittedAfter(last, rest);
            sent[i].state != sent[i + 1].state || sent[i].process != sent[i + 1].process
            || sent[i + 1].at >= sent[i].at + 60 * NS_PER_SECOND
    decreases rest
  {
    if ShouldEmit(Some(last), rest[0], last.at, rest[0].at, HEARTBEAT) {
      if i > 0 {
        EmittedSparse(rest[0], rest[1..], i - 1);
      }
    } else {
      EmittedSparse(last, rest[1..], i);
    }
  }

  /** The server received exactly these observations, under its own numbering and with its own name
      for a process that has none. */
  ghost predicate SameRecord(a: seq<Event>, b: seq<Event>) {
    |a| == |b| && forall i :: 0 <= i < |a| ==> SameCounted(a[i], b[i])
  }

  predicate SameCounted(a: Event, b: Event) {
    a.at == b.at && a.state == b.state && (a.state == Active ==> ProcessOf(a) == ProcessOf(b))
  }

  lemma {:induction false} AmountOfRecord(a: seq<Event>, b: seq<Event>, who: Who, w: Window, unit: int)
    requires unit > 0 && SameRecord(a, b)
    ensures Amount(a, who, w, unit) == Amount(b, who, w, unit)
  {
    if |a| > 0 {
      AmountOfRecord(a[1..], b[1..], who, w, unit);
    }
  }

  /** The first observation counts, its time meets the window, and within the window it stands so long
      that a heartbeat more no longer fits under the gap cap. */
  predicate LongGap(s: seq<Event>, who: Who, w: Window)
    requires |s| > 0
  {
    && w.maxGap > 0 && Counts(s[0], who) && s[0].at < w.limit && w.start < NextAt(s, w)
    && Min(NextAt(s, w), w.limit) - s[0].at + HEARTBEAT > w.maxGap
  }

  function LongGaps(s: seq<Event>, who: Who, w: Window): nat {
    if |s| == 0 then 0 else (if LongGap(s, who, w) then 1 else 0) + LongGaps(s[1..], who, w)
  }

  /** Within the window every counted observation is followed, by another one or by the end of the
      report, so soon that a heartbeat more still fits under the gap cap. */
  ghost predicate CloseEnough(s: seq<Event>, who: Who, w: Window) {
    forall i :: 0 <= i < |s| ==> !LongGap(s[i..], who, w)
  }

  lemma {:induction false} CloseIsNoGap(s: seq<Event>, who: Who, w: Window)
    ensures CloseEnough(s, who, w) <==> LongGaps(s, who, w) == 0
  {
    assert s[0..] == s;
    if |s| > 0 {
      CloseIsNoGap(s[1..], who, w);
      assert forall i :: 0 <= i < |s[1..]| ==> s[1..][i..] == s[i + 1..];
      if CloseEnough(s[1..], who, w) && !LongGap(s, who, w) {
        forall i | 0 <= i < |s| ensures !LongGap(s[i..], who, w) {
          if i > 0 { assert s[1..][i - 1..] == s[i..]; }
        }
      }
      if CloseEnough(s, who, w) {
        assert !LongGap(s[0..], who, w);
        forall i | 0 <= i < |s[1..]| ensures !LongGap(s[1..][i..], who, w) {
          assert !LongGap(s[i + 1..], who, w);
        }
      }
    }
  }

  /** How many observations of `who` were not sent. */
  function Dropped(observed: seq<Event>, who: Who): int {
    ActiveCount(observed, who) - ActiveCount(Emitted(observed), who)
  }

  /** A heartbeat in whole units, rounded up: what one long gap can cost. */
  function HeartbeatUnits(unit: int): nat
    requires unit > 0
  {
    (HEARTBEAT + unit - 1) / unit
  }

  /** What so many long gaps can cost. */
  function GapCost(gaps: nat, unit: int): nat
    requires unit > 0
  {
    HeartbeatUnits(unit) * gaps
  }

  lemma GapCostAdds(gaps: nat, unit: int)
    requires unit > 0
    ensures GapCost(gaps + 1, unit) == HeartbeatUnits(unit) + GapCost(gaps, unit) && GapCost(0, unit) == 0
  {
  }

  /** Flooring the parts x and y, or what is left of them when less than h is lost. */
  lemma FloorJoined(x: nat, y: nat, joined: nat, h: nat, u: int)
    requires u > 0 && joined <= x + y <= joined + h
    ensures x / u + y / u - joined / u <= (h + u - 1) / u
    ensures joined / u - x / u - y / u <= if u == 1 then 0 else 1
  {
    FloorParts(x, y, u);
    FloorMonotone(joined, x + y, u);
    FloorMonotone(x + y, joined + h, u);
    FloorCeiling(joined, h, u);
  }

  lemma QuotientBelow(y: nat, u: int, k: nat)
    requires u > 0 && y < u * k + u
    ensures y / u <= k
  {
    FloorMonotone(y, u * k + (u - 1), u);
    DivUnique(u * k + (u - 1), u, k, u - 1);
  }

  lemma FloorCeiling(x: nat, h: nat, u: int)
    requires u > 0
    ensures (x + h) / u <= x / u + (h + u - 1) / u
  {
    var q, c := x / u, (h + u - 1) / u;
    assert x == u * q + x % u && h + u - 1 == u * c + (h + u - 1) % u;
    assert u * (q + c) == u * q + u * c;
    QuotientBelow(x + h, u, q + c);
  }

  /** A repeat that follows within a heartbeat, left out: its segment is joined to the one before, and
      the cap on the joined segment costs less than a heartbeat, and nothing without a long gap. */
  lemma JoinedSegment(s: seq<Event>, who: Who, w: Window)
    requires Ordered(s) && |s| >= 2 && Counts(s[1], who) && s[1].at < s[0].at + HEARTBEAT
    ensures var next := NextAt(s[1..], w);
            var parts, joined := Segment(s[0], s[1].at, w) + Segment(s[1], next, w), Segment(s[0], next, w);
            joined <= parts <= joined + if LongGap(s[1..], who, w) then HEARTBEAT else 0
  {
    assert |s| > 2 ==> s[1..][1] == s[2] && s[2].at >= s[1].at;
    assert s[1..][0] == s[1] && s[0].at <= s[1].at;
    SegmentsJoin(s[0], s[1], NextAt(s[1..], w), w);
  }

  lemma SegmentsJoin(a: Event, b: Event, next: int, w: Window)
    requires a.at <= b.at < a.at + HEARTBEAT && (b.at <= next || next == w.limit)
    ensures var parts, joined := Segment(a, b.at, w) + Segment(b, next, w), Segment(a, next, w);
            && joined <= parts <= joined + HEARTBEAT
            && (parts == joined || (w.maxGap > 0 && b.at < w.limit && w.start < next
                                    && Min(next, w.limit) - b.at + HEARTBEAT > w.maxGap))
  {
  }

  /** Leaving out a repeat joins two segments into one: at most one unit more, and less only over a
      long gap. */
  lemma DropRepeat(s: seq<Event>, who: Who, w: Window, unit: int)
    requires unit > 0 && Ordered(s) && |s| >= 2 && SameActivity(s[0], s[1]) && s[1].at < s[0].at + HEARTBEAT
    ensures var joined := [s[0]] + s[2..];
            && Amount(joined, who, w, unit) - Amount(s, who, w, unit)
               <= (if unit > 1 && Counts(s[1], who) then 1 else 0)
            && Amount(s, who, w, unit) - Amount(joined, who, w, unit)
               <= (if LongGap(s[1..], who, w) then HeartbeatUnits(unit) else 0)
  {
    var joined := [s[0]] + s[2..];
    assert joined[1..] == s[2..] && s[1..][1..] == s[2..];
    var next := NextAt(s[1..], w);
    assert NextAt(joined, w) == next;
    if Counts(s[1], who) {
      JoinedSegment(s, who, w);
      var long := LongGap(s[1..], who, w);
      FloorJoined(Segment(s[0], s[1].at, w), Segment(s[1], next, w), Segment(s[0], next, w),
                  if long then HEARTBEAT else 0, unit);
      assert !long ==> (unit - 1) / unit == 0;
    }
  }

  /** What an observation adds that stands until `next`. */
  function HeadShare(e: Event, next: int, who: Who, w: Window, unit: int): nat
    requires unit > 0
  {
    if Counts(e, who) then Segment(e, next, w) / unit else 0
  }

  lemma HeadAdds(e: Event, rest: seq<Event>, who: Who, w: Window, unit: int)
    requires unit > 0
    ensures Amount([e] + rest, who, w, unit)
         == HeadShare(e, if |rest| > 0 then rest[0].at else w.limit, who, w, unit) + Amount(rest, who, w, unit)
    ensures ActiveCount([e] + rest, who) == (if Counts(e, who) then 1 else 0) + ActiveCount(rest, who)
  {
    assert ([e] + rest)[1..] == rest;
  }

  lemma OrderedWithout(a: Event, b: Event, rest: seq<Event>)
    requires Ordered([a] + ([b] + rest))
    ensures Ordered([b] + rest) && Ordered([a] + rest)
  {
    var all, tail := [a] + ([b] + rest), [b] + rest;
    assert forall i :: 0 <= i < |tail| ==> tail[i] == all[i + 1];
    assert forall i :: 0 <= i < |rest| ==> rest[i] == tail[i + 1];
    forall i | 0 <= i < |rest| ensures !Before(rest[i], a) {
      assert all[0] == a && all[i + 2] == tail[i + 1] == rest[i];
    }
    OrderedCons(a, rest);
  }

  lemma OrderedCons(a: Event, rest: seq<Event>)
    requires Ordered(rest) && forall i :: 0 <= i < |rest| ==> !Before(rest[i], a)
    ensures Ordered([a] + rest)
  {
    var all := [a] + rest;
    assert forall i :: 0 < i < |all| ==> all[i] == rest[i - 1];
  }

  /** A dropped observation, in front of what is sent in its place. */
  lemma DropSecond(last: Event, o: Event, more: seq<Event>, who: Who, w: Window, unit: int)
    requires unit > 0 && Ordered([last] + ([o] + more)) && !ShouldEmit(Some(last), o, last.at, o.at, HEARTBEAT)
    ensures var all, without := [last] + ([o] + more), [last] + more;
            && Amount(without, who, w, unit) - Amount(all, who, w, unit)
               <= (if unit > 1 && Counts(o, who) then 1 else 0)
            && Amount(all, who, w, unit) - Amount(without, who, w, unit)
               <= (if LongGap([o] + more, who, w) then HeartbeatUnits(unit) else 0)
  {
    var all := [last] + ([o] + more);
    assert all[0] == last && all[1] == o && all[2..] == more && all[1..] == [o] + more;
    DropRepeat(all, who, w, unit);
  }

  lemma LongGapsCons(o: Event, more: seq<Event>, who: Who, w: Window)
    ensures LongGaps([o] + more, who, w) == (if LongGap([o] + more, who, w) then 1 else 0) + LongGaps(more, who, w)
  {
    assert ([o] + more)[1..] == more;
  }

  /** How far the amount of what was sent may be from the amount of everything. */
  ghost predicate Near(sent: seq<Event>, all: seq<Event>, gaps: nat, who: Who, w: Window, unit: int)
    requires unit > 0
  {
    && Amount(sent, who, w, unit) - Amount(all, who, w, unit)
       <= (if unit == 1 then 0 else ActiveCount(all, who) - ActiveCount(sent, who))
    && Amount(all, who, w, unit) - Amount(sent, who, w, unit) <= GapCost(gaps, unit)
  }

  lemma {:induction false} EmittedAfterNear(last: Event, rest: seq<Event>, who: Who, w: Window, unit: int)
    requires unit > 0 && Ordered([last] + rest)
    ensures Near([last] + EmittedAfter(last, rest), [last] + rest, LongGaps(rest, who, w), who, w, unit)
    decreases rest
  {
    hide GapCost, HeartbeatUnits, LongGap, LongGaps, Amount, ActiveCount, Counts, HeadShare, Ordered, ShouldEmit;
    GapCostAdds(0, unit);
    if |rest| > 0 {
      var o, more := rest[0], rest[1..];
      assert rest == [o] + more;
      OrderedWithout(last, o, more);
      HeadAdds(last, rest, who, w, unit);
      HeadAdds(o, more, who, w, unit);
      LongGapsCons(o, more, who, w);
      GapCostAdds(LongGaps(more, who, w), unit);
      if ShouldEmit(Some(last), o, last.at, o.at, HEARTBEAT) {
        EmittedAfterNear(o, more, who, w, unit);
        HeadAdds(last, [o] + EmittedAfter(o, more), who, w, unit);
      } else {
        EmittedAfterNear(last, more, who, w, unit);
        HeadAdds(last, more, who, w, unit);
        DropSecond(last, o, more, who, w, unit);
      }
    }
  }

  /** Whatever the gaps: the report on what the agent sent is below the report on everything it
      observed by at most one heartbeat for every long gap in the window, and never above it in exact
      time; in whole seconds it is above by at most one per observation left out. */
  lemma EmissionLosesLittle(observed: seq<Event>, received: seq<Event>, start: int, end: int, now: int,
                            maxGap: int, who: Who, unit: int)
    requires unit > 0 && Ordered(observed) && Ordered(received) && SameRecord(received, Emitted(observed))
    ensures var w := Window(start, if now == ZERO_TIME then end else Min(now, end), maxGap);
            var sent, all := Usage(received, start, end, now, maxGap, who, unit),
                             Usage(observed, start, end, now, maxGap, who, unit);
            && sent - all <= (if unit == 1 then 0 else Dropped(observed, who))
            && all - sent <= GapCost(LongGaps(observed, who, w), unit)
  {
    hide GapCost, HeartbeatUnits, LongGap, Amount, Ordered, StableSort;
    var w := Window(start, EffectiveNow(end, now), maxGap);
    GapCostAdds(0, unit);
    StableSortKeepsOrdered(observed);
    StableSortKeepsOrdered(received);
    AmountOfRecord(received, Emitted(observed), who, w, unit);
    if |observed| > 0 {
      var first, rest := observed[0], observed[1..];
      assert observed == [first] + rest;
      EmittedAfterNear(first, rest, who, w, unit);
      LongGapsCons(first, rest, who, w);
      GapCostAdds(LongGaps(rest, who, w), unit);
    }
  }

  /** Where no counted gap in the window is long, the report on what the agent sent is the report on
      everything it observed: the same in exact time, and in whole seconds above it by at most one per
      observation left out. */
  lemma EmissionPreservesUsage(observed: seq<Event>, received: seq<Event>, start: int, end: int, now: int,
                               maxGap: int, who: Who, unit: int)
    requires unit > 0 && Ordered(observed) && Ordered(received) && SameRecord(received, Emitted(observed))
    requires CloseEnough(observed, who, Window(start, if now == ZERO_TIME then end else Min(now, end), maxGap))
    ensures 0 <= Usage(received, start, end, now, maxGap, who, unit)
            - Usage(observed, start, end, now, maxGap, who, unit)
              <= if unit == 1 then 0 else Dropped(observed, who)
  {
    CloseIsNoGap(observed, who, Window(start, EffectiveNow(end, now), maxGap));
    EmissionLosesLittle(observed, received, start, end, now, maxGap, who, unit);
  }

  lemma {:induction false} EmittedMembers(last: Event, rest: seq<Event>)
    ensures forall x :: x in EmittedAfter(last, rest) ==> x in rest
    decreases rest
  {
    if |rest| > 0 {
      EmittedMembers(rest[0], rest[1..]);
      EmittedMembers(last, rest[1..]);
    }
  }

  /** What is sent stays in order. */
  lemma {:induction false} EmittedOrdered(last: Event, rest: seq<Event>)
    requires Ordered([last] + rest)
    ensures Ordered([last] + EmittedAfter(last, rest))
    decreases rest
  {
    if |rest| > 0 {
      var o, more := rest[0], rest[1..];
      assert rest == [o] + more;
      OrderedWithout(last, o, more);
      if ShouldEmit(Some(last), o, last.at, o.at, HEARTBEAT) {
        EmittedOrdered(o, more);
        EmittedMembers(last, rest);
        forall x | x in [o] + EmittedAfter(o, more) ensures !Before(x, last) {
          assert x in EmittedAfter(last, rest);
          var k :| 0 <= k < |rest| && rest[k] == x;
          assert ([last] + rest)[0] == last && ([last] + rest)[k + 1] == x;
        }
        OrderedCons(last, [o] + EmittedAfter(o, more));
      } else {
        EmittedOrdered(last, more);
      }
    }
  }

  lemma {:induction false} HeardOrdered(last: Option<Event>, rest: seq<Event>, ok: seq<bool>)
    requires |ok| == |rest| && Ordered(rest)
    ensures Ordered(Heard(last, rest, ok)) && forall x :: x in Heard(last, rest, ok) ==> x in rest
    decreases rest
  {
    if |rest| > 0 {
      var emit := ShouldEmit(last, rest[0], if last.Some? then last.value.at else 0, rest[0].at, HEARTBEAT);
      var next := if emit && ok[0] then Some(rest[0]) else last;
      var more := Heard(next, rest[1..], ok[1..]);
      HeardOrdered(next, rest[1..], ok[1..]);
      assert Heard(last, rest, ok) == if !emit || ok[0] then [rest[0]] + more else more;
      forall x | x in more ensures !Before(x, rest[0]) && x in rest {
        var k :| 0 <= k < |rest[1..]| && rest[1..][k] == x;
        assert rest[k + 1] == x;
      }
    }
  }
}
