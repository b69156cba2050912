/** How reports over different windows relate: cutting a window, growing it, bounding it,
    and computing it from a truncated fetch. */
module WindowLaws {
  import opened Observations
  import opened Reports
  import opened UsageLaws

  lemma MulGrows(u: int, d: int)
    requires u > 0
    ensures (d >= 1 ==> u * d >= u) && (d <= -1 ==> u * d <= -u)
  {
  }

  lemma DivUnique(x: nat, u: int, q: int, r: int)
    requires u > 0 && x == u * q + r && 0 <= r < u
    ensures x / u == q
  {
    assert u * (x / u) + x % u == x;
    assert u * (x / u - q) == r - x % u;
    MulGrows(u, x / u - q);
  }

  /** Flooring two parts on their own loses at most one whole unit. */
  lemma FloorParts(x: nat, y: nat, u: int)
    requires u > 0
    ensures 0 <= (x + y) / u - x / u - y / u <= 1
    ensures u == 1 ==> (x + y) / u == x / u + y / u
  {
    var r := x % u + y % u;
    assert x == u * (x / u) + x % u && y == u * (y / u) + y % u;
    if r < u {
      DivUnique(x + y, u, x / u + y / u, r);
    } else {
      assert u * (x / u + y / u + 1) == u * (x / u) + u * (y / u) + u;
      DivUnique(x + y, u, x / u + y / u + 1, r - u);
    }
  }

  lemma FloorMonotone(x: nat, y: nat, u: int)
    requires u > 0 && x <= y
    ensures x / u <= y / u
  {
    FloorParts(x, y - x, u);
  }

  // ---- cutting a window -------------------------------------------------------

  function Lost(s: seq<Event>, who: Who, w: Window, cut: int, unit: int): int
    requires unit > 0
  {
    Amount(s, who, w, unit) - Amount(s, who, w.(limit := Min(cut, w.limit)), unit)
      - Amount(s, who, w.(start := cut), unit)
  }

  lemma SegmentCut(e: Event, next: int, w: Window, cut: int)
    requires w.start <= cut <= w.limit && e.at <= next
    ensures Segment(e, next, w) == Segment(e, next, w.(limit := cut)) + Segment(e, next, w.(start := cut))
    ensures next <= cut ==> Segment(e, next, w.(start := cut)) == 0
    ensures e.at >= cut ==> Segment(e, next, w.(limit := cut)) == 0
  {
  }

  lemma ShareCut(s: seq<Event>, who: Who, w: Window, cut: int, unit: int)
    requires unit > 0 && Ordered(s) && |s| > 0 && w.start <= cut < w.limit
    ensures var lost := Share(s, who, w, unit) - Share(s, who, w.(limit := cut), unit)
                        - Share(s, who, w.(start := cut), unit);
            && 0 <= lost <= 1
            && (unit == 1 || s[0].at >= cut || NextAt(s, w) <= cut ==> lost == 0)
  {
    var left, right := w.(limit := cut), w.(start := cut);
    var e, next := s[0], NextAt(s, w);
    if |s| > 1 || e.at <= next {
      SegmentCut(e, next, w, cut);
      FloorParts(Segment(e, next, left), Segment(e, next, right), unit);
    }
    assert Segment(e, NextAt(s, left), left) == Segment(e, next, left);
    assert Segment(e, NextAt(s, right), right) == Segment(e, next, right);
  }

  /** Only the one segment that spans the cut can lose, and then less than two units. */
  lemma {:induction false} AmountCut(s: seq<Event>, who: Who, w: Window, cut: int, unit: int)
    requires unit > 0 && Ordered(s) && w.start <= cut
    ensures 0 <= Lost(s, who, w, cut, unit) <= 1
    ensures unit == 1 || (|s| > 0 && s[0].at >= cut) ==> Lost(s, who, w, cut, unit) == 0
  {
    if w.limit <= cut {
      EmptyWindow(s, who, w.(start := cut), unit);
    } else if |s| > 0 {
      AmountCut(s[1..], who, w, cut, unit);
      ShareCut(s, who, w, cut, unit);
    }
  }

  lemma LimitsOfParts(mid: int, end: int, now: int)
    requires mid <= end
    ensures EffectiveNow(mid, now) == Min(mid, EffectiveNow(end, now))
         || (now != ZERO_TIME && now < mid && EffectiveNow(mid, now) == EffectiveNow(end, now) == now)
  {
  }

  /** Two consecutive windows never report more than the whole, and at most one unit less. */
  lemma UsageCut(events: seq<Event>, start: int, mid: int, end: int, now: int, maxGap: int, who: Who, unit: int)
    requires unit > 0 && start <= mid <= end
    ensures var parts := Usage(events, start, mid, now, maxGap, who, unit)
                         + Usage(events, mid, end, now, maxGap, who, unit);
            parts <= Usage(events, start, end, now, maxGap, who, unit) <= parts + if unit == 1 then 0 else 1
  {
    StableSortOrdered(events);
    LimitsOfParts(mid, end, now);
    AmountCut(StableSort(events), who, Window(start, EffectiveNow(end, now), maxGap), mid, unit);
  }

  ghost predicate Contiguous(cuts: seq<int>) {
    |cuts| > 0 && forall i :: 0 <= i < |cuts| - 1 ==> cuts[i] <= cuts[i + 1]
  }

  /** The sum of the reports over the windows between neighbouring cuts. */
  function SumOfWindows(events: seq<Event>, cuts: seq<int>, now: int, maxGap: int, who: Who, unit: int): nat
    requires unit > 0 && |cuts| > 0
  {
    if |cuts| == 1 then 0
    else Usage(events, cuts[0], cuts[1], now, maxGap, who, unit)
         + SumOfWindows(events, cuts[1..], now, maxGap, who, unit)
  }

  lemma {:induction false} CutsGrow(cuts: seq<int>)
    requires Contiguous(cuts)
    ensures cuts[0] <= cuts[|cuts| - 1]
  {
    if |cuts| > 1 {
      assert Contiguous(cuts[1..]);
      CutsGrow(cuts[1..]);
    }
  }

  /** A partition into any number of windows loses at most one unit per inner cut. */
  lemma {:induction false} UsagePartition(events: seq<Event>, cuts: seq<int>, now: int, maxGap: int, who: Who,
                                          unit: int)
    requires unit > 0 && Contiguous(cuts) && |cuts| >= 2
    ensures var whole := Usage(events, cuts[0], cuts[|cuts| - 1], now, maxGap, who, unit);
            var parts := SumOfWindows(events, cuts, now, maxGap, who, unit);
            parts <= whole <= parts + if unit == 1 then 0 else |cuts| - 2
  {
    if |cuts| == 2 {
      assert SumOfWindows(events, cuts[1..], now, maxGap, who, unit) == 0;
    } else {
      assert Contiguous(cuts[1..]);
      UsagePartition(events, cuts[1..], now, maxGap, who, unit);
      CutsGrow(cuts[1..]);
      UsageCut(events, cuts[0], cuts[1], cuts[|cuts| - 1], now, maxGap, who, unit);
    }
  }

  lemma UsageWhole(events: seq<Event>, start: int, end: int, now: int, maxGap: int, who: Who)
    requires WholeStamps(events) && Whole(start) && Whole(end) && Whole(now) && Whole(maxGap)
    ensures Usage(events, start, end, now, maxGap, who, 1)
         == NS_PER_SECOND * Usage(events, start, end, now, maxGap, who, NS_PER_SECOND)
  {
    StableSortOrdered(events);
    forall e | e in StableSort(events) ensures Whole(e.at) {
      assert e in multiset(StableSort(events));
    }
    AmountWhole(StableSort(events), who, Window(start, EffectiveNow(end, now), maxGap));
  }

  lemma {:induction false} SumOfWindowsWhole(events: seq<Event>, cuts: seq<int>, now: int, maxGap: int, who: Who)
    requires WholeStamps(events) && |cuts| > 0 && (forall c :: c in cuts ==> Whole(c)) && Whole(now) && Whole(maxGap)
    ensures SumOfWindows(events, cuts, now, maxGap, who, 1)
         == NS_PER_SECOND * SumOfWindows(events, cuts, now, maxGap, who, NS_PER_SECOND)
  {
    if |cuts| > 1 {
      UsageWhole(events, cuts[0], cuts[1], now, maxGap, who);
      SumOfWindowsWhole(events, cuts[1..], now, maxGap, who);
    }
  }

  /** When everything falls on whole seconds the partition loses nothing. */
  lemma UsagePartitionWhole(events: seq<Event>, cuts: seq<int>, now: int, maxGap: int, who: Who)
    requires Contiguous(cuts) && |cuts| >= 2
    requires WholeStamps(events) && (forall c :: c in cuts ==> Whole(c)) && Whole(now) && Whole(maxGap)
    ensures Usage(events, cuts[0], cuts[|cuts| - 1], now, maxGap, who, NS_PER_SECOND)
         == SumOfWindows(events, cuts, now, maxGap, who, NS_PER_SECOND)
  {
    UsagePartition(events, cuts, now, maxGap, who, 1);
    UsageWhole(events, cuts[0], cuts[|cuts| - 1], now, maxGap, who);
    SumOfWindowsWhole(events, cuts, now, maxGap, who);
  }

  /** A later end never reports less. */
  lemma UsageGrows(events: seq<Event>, start: int, end: int, later: int, now: int, maxGap: int, who: Who, unit: int)
    requires unit > 0 && end <= later
    ensures Usage(events, start, end, now, maxGap, who, unit) <= Usage(events, start, later, now, maxGap, who, unit)
  {
    if start <= end {
      UsageCut(events, start, end, later, now, maxGap, who, unit);
    } else {
      EmptyWindow(StableSort(events), who, Window(start, EffectiveNow(end, now), maxGap), unit);
    }
  }

  // ---- bounds -----------------------------------------------------------------

  function ActiveCount(s: seq<Event>, who: Who): nat {
    if |s| == 0 then 0 else (if Counts(s[0], who) then 1 else 0) + ActiveCount(s[1..], who)
  }

  lemma FloorBound(x: nat, u: int)
    requires u > 0
    ensures u * (x / u) <= x < u * (x / u) + u
  {
    assert x == u * (x / u) + x % u;
  }

  lemma BoundsAdd(u: int, a: int, exactA: int, k: int, b: int, exactB: int, c: int)
    requires u * a <= exactA <= u * a + (u - 1) * k && u * b <= exactB <= u * b + (u - 1) * c
    ensures u * (a + b) <= exactA + exactB <= u * (a + b) + (u - 1) * (k + c)
  {
    assert u * (a + b) == u * a + u * b;
    assert (u - 1) * (k + c) == (u - 1) * k + (u - 1) * c;
  }

  lemma ShareFloorBound(s: seq<Event>, who: Who, w: Window, unit: int)
    requires unit > 0 && |s| > 0
    ensures unit * Share(s, who, w, unit) <= Share(s, who, w, 1)
         <= unit * Share(s, who, w, unit) + (unit - 1) * (if Counts(s[0], who) then 1 else 0)
  {
    FloorBound(Segment(s[0], NextAt(s, w), w), unit);
    FloorBound(Segment(s[0], NextAt(s, w), w), 1);
  }

  /** Flooring each segment hides less than one unit per counted observation. */
  lemma {:induction false} AmountFloorBound(s: seq<Event>, who: Who, w: Window, unit: int)
    requires unit > 0
    ensures unit * Amount(s, who, w, unit) <= Amount(s, who, w, 1)
         <= unit * Amount(s, who, w, unit) + (unit - 1) * ActiveCount(s, who)
  {
    if |s| > 0 {
      AmountFloorBound(s[1..], who, w, unit);
      ShareFloorBound(s, who, w, unit);
      BoundsAdd(unit, Share(s, who, w, unit), Share(s, who, w, 1), if Counts(s[0], who) then 1 else 0,
                Amount(s[1..], who, w, unit), Amount(s[1..], who, w, 1), ActiveCount(s[1..], who));
    }
  }

  /** The segments of one report do not overlap. */
  lemma {:induction false} AmountWithinWindow(s: seq<Event>, who: Who, w: Window)
    requires Ordered(s) && |s| > 0
    ensures Amount(s, who, w, 1) <= Max(0, w.limit - Max(w.start, s[0].at))
    ensures w.maxGap > 0 ==> Amount(s, who, w, 1) <= ActiveCount(s, who) * w.maxGap
  {
    if |s| > 1 {
      AmountWithinWindow(s[1..], who, w);
      var c := ActiveCount(s[1..], who);
      assert (1 + c) * w.maxGap == w.maxGap + c * w.maxGap;
    } else {
      assert s[1..] == [];
    }
  }

  lemma {:induction false} ActiveCountInsert(s: seq<Event>, e: Event, who: Who)
    ensures ActiveCount(Insert(s, e), who) == ActiveCount(s, who) + (if Counts(e, who) then 1 else 0)
  {
    if |s| > 0 && Before(e, s[|s| - 1]) {
      var front, last := s[..|s| - 1], s[|s| - 1];
      ActiveCountInsert(front, e, who);
      ActiveCountAppend(Insert(front, e), last, who);
      ActiveCountAppend(front, last, who);
      assert s == front + [last];
    } else {
      ActiveCountAppend(s, e, who);
    }
  }

  lemma {:induction false} ActiveCountAppend(s: seq<Event>, e: Event, who: Who)
    ensures ActiveCount(s + [e], who) == ActiveCount(s, who) + (if Counts(e, who) then 1 else 0)
  {
    if |s| == 0 {
      assert s + [e] == [e] && [e][1..] == [];
    } else {
      assert (s + [e])[1..] == s[1..] + [e];
      ActiveCountAppend(s[1..], e, who);
    }
  }

  lemma {:induction false} ActiveCountSort(s: seq<Event>, who: Who)
    ensures ActiveCount(StableSort(s), who) == ActiveCount(s, who)
  {
    if |s| > 0 {
      ActiveCountSort(s[..|s| - 1], who);
      ActiveCountInsert(StableSort(s[..|s| - 1]), s[|s| - 1], who);
      ActiveCountAppend(s[..|s| - 1], s[|s| - 1], who);
      assert s == s[..|s| - 1] + [s[|s| - 1]];
    }
  }

  /** A report is at most the window, at most one gap per active observation, and
      hides less than one second per active observation. */
  lemma UsageBounds(events: seq<Event>, start: int, end: int, now: int, maxGap: int, who: Who)
    ensures var seconds := Usage(events, start, end, now, maxGap, who, NS_PER_SECOND);
            var exact := Usage(events, start, end, now, maxGap, who, 1);
            && NS_PER_SECOND * seconds <= exact <= Max(0, (if now == ZERO_TIME then end else Min(now, end)) - start)
            && exact <= NS_PER_SECOND * seconds + (NS_PER_SECOND - 1) * ActiveCount(events, who)
            && (maxGap > 0 ==> NS_PER_SECOND * seconds <= ActiveCount(events, who) * maxGap)
  {
    var s, w := StableSort(events), Window(start, EffectiveNow(end, now), maxGap);
    StableSortOrdered(events);
    AmountFloorBound(s, who, w, NS_PER_SECOND);
    ActiveCountSort(events, who);
    if |s| > 0 {
      AmountWithinWindow(s, who, w);
    }
  }
}
