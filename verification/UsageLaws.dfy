/** What a usage report means, instant by instant, and how reports over different
    windows and different lists relate. */
module UsageLaws {
  import opened Observations
  import opened Reports

  /** At instant t the newest observation is an active one of `who`, not yet maxGap old. */
  predicate InUse(events: seq<Event>, t: int, who: Who, maxGap: int) {
    var newest := LatestAt(events, t);
    newest.Some? && Counts(newest.value, who) && (maxGap > 0 ==> t - newest.value.at < maxGap)
  }

  /** How many of the instants lo, lo + step, .. below hi are in use. */
  function Instants(events: seq<Event>, lo: int, hi: int, step: int, who: Who, maxGap: int): nat
    requires step > 0
    decreases hi - lo
  {
    if hi <= lo then 0
    else (if InUse(events, lo, who, maxGap) then 1 else 0) + Instants(events, lo + step, hi, step, who, maxGap)
  }

  lemma {:induction false} InstantsSplit(events: seq<Event>, lo: int, mid: int, hi: int, who: Who, maxGap: int)
    requires lo <= mid <= hi
    ensures Instants(events, lo, hi, 1, who, maxGap)
         == Instants(events, lo, mid, 1, who, maxGap) + Instants(events, mid, hi, 1, who, maxGap)
    decreases mid - lo
  {
    if lo < mid {
      InstantsSplit(events, lo + 1, mid, hi, who, maxGap);
    }
  }

  /** Lists that agree on what is in use over a stretch count it alike. */
  lemma {:induction false} InstantsAgree(a: seq<Event>, b: seq<Event>, lo: int, hi: int, step: int, who: Who,
                                         maxGap: int)
    requires step > 0
    requires forall t :: lo <= t < hi ==> InUse(a, t, who, maxGap) == InUse(b, t, who, maxGap)
    ensures Instants(a, lo, hi, step, who, maxGap) == Instants(b, lo, hi, step, who, maxGap)
    decreases hi - lo
  {
    if lo < hi {
      InstantsAgree(a, b, lo + step, hi, step, who, maxGap);
    }
  }

  /** A stretch in use from lo to mid and idle from mid to hi. */
  lemma {:induction false} InstantsStretch(events: seq<Event>, lo: int, mid: int, hi: int, who: Who, maxGap: int)
    requires lo <= mid <= hi
    requires forall t :: lo <= t < hi ==> (InUse(events, t, who, maxGap) <==> t < mid)
    ensures Instants(events, lo, hi, 1, who, maxGap) == mid - lo
    decreases hi - lo
  {
    if lo < hi {
      InstantsStretch(events, lo + 1, Max(lo + 1, mid), hi, who, maxGap);
    }
  }

  lemma InUseSorted(events: seq<Event>, t: int, who: Who, maxGap: int)
    ensures InUse(StableSort(events), t, who, maxGap) == InUse(events, t, who, maxGap)
  {
    LatestAtStableSort(events, t);
  }

  /** The first observation rules until the second one is due. */
  lemma HeadStretch(s: seq<Event>, who: Who, w: Window)
    requires Ordered(s) && |s| > 0 && w.start <= w.limit
    ensures var m := Max(w.start, Min(NextAt(s, w), w.limit));
            Instants(s, w.start, m, 1, who, w.maxGap) == Share(s, who, w, 1)
  {
    var m := Max(w.start, Min(NextAt(s, w), w.limit));
    var from := Min(m, Max(s[0].at, w.start));
    forall t | w.start <= t < m
      ensures InUse(s, t, who, w.maxGap)
          <==> (from <= t && Counts(s[0], who) && (w.maxGap > 0 ==> t - s[0].at < w.maxGap))
    {
      LatestAtHead(s, t);
    }
    InstantsSplit(s, w.start, from, m, who, w.maxGap);
    InstantsStretch(s, w.start, w.start, from, who, w.maxGap);
    if Counts(s[0], who) {
      var until := if w.maxGap > 0 then Max(from, Min(m, s[0].at + w.maxGap)) else m;
      InstantsStretch(s, from, until, m, who, w.maxGap);
    } else {
      InstantsStretch(s, from, from, m, who, w.maxGap);
    }
  }

  lemma {:induction false} AmountPointwise(s: seq<Event>, who: Who, w: Window)
    requires Ordered(s) && w.start <= w.limit
    ensures Amount(s, who, w, 1) == Instants(s, w.start, w.limit, 1, who, w.maxGap)
  {
    if |s| == 0 {
      InstantsStretch(s, w.start, w.start, w.limit, who, w.maxGap);
    } else {
      var m := Max(w.start, Min(NextAt(s, w), w.limit));
      HeadStretch(s, who, w);
      InstantsSplit(s, w.start, m, w.limit, who, w.maxGap);
      AmountPointwise(s[1..], who, w);
      InstantsSplit(s[1..], w.start, m, w.limit, who, w.maxGap);
      forall t | m <= t < w.limit ensures InUse(s, t, who, w.maxGap) == InUse(s[1..], t, who, w.maxGap) {
        if |s| > 1 { LatestAtTail(s, t); }
      }
      InstantsAgree(s, s[1..], m, w.limit, 1, who, w.maxGap);
      forall t | w.start <= t < m ensures !InUse(s[1..], t, who, w.maxGap) {
        if |s| > 1 { LatestAtHead(s[1..], t); }
      }
      InstantsStretch(s[1..], w.start, w.start, m, who, w.maxGap);
    }
  }

  /** Measured in nanoseconds, a report counts exactly the instants in use from the start of its window up
      to its end or to now, whichever comes first; an unset now does not come first. */
  lemma UsageIsPointwise(events: seq<Event>, start: int, end: int, now: int, maxGap: int, who: Who)
    ensures Usage(events, start, end, now, maxGap, who, 1)
         == Instants(events, start, if now == ZERO_TIME then end else Min(now, end), 1, who, maxGap)
  {
    var limit := EffectiveNow(end, now);
    var s, w := StableSort(events), Window(start, limit, maxGap);
    StableSortOrdered(events);
    if start <= limit {
      AmountPointwise(s, who, w);
      forall t | start <= t < limit ensures InUse(s, t, who, maxGap) == InUse(events, t, who, maxGap) {
        InUseSorted(events, t, who, maxGap);
      }
      InstantsAgree(s, events, start, limit, 1, who, maxGap);
    } else {
      EmptyWindow(s, who, w, 1);
    }
  }

  // ---- whole seconds ----------------------------------------------------------

  predicate Whole(x: int) { x % NS_PER_SECOND == 0 }

  ghost predicate WholeStamps(s: seq<Event>) {
    forall e :: e in s ==> Whole(e.at)
  }

  lemma WholeSums(x: int, y: int)
    requires Whole(x) && Whole(y)
    ensures Whole(x + y) && Whole(x - y)
  {
  }

  lemma SegmentWhole(e: Event, next: int, w: Window)
    requires Whole(e.at) && Whole(next) && Whole(w.start) && Whole(w.limit) && Whole(w.maxGap)
    ensures Whole(Segment(e, next, w))
  {
    WholeSums(e.at, w.maxGap);
    var until := Min(next, w.limit);
    WholeSums(if w.maxGap > 0 then Min(until, e.at + w.maxGap) else until, Max(e.at, w.start));
  }

  /** With whole-second stamps, bounds and gap no segment loses anything to flooring. */
  lemma {:induction false} AmountWhole(s: seq<Event>, who: Who, w: Window)
    requires WholeStamps(s) && Whole(w.start) && Whole(w.limit) && Whole(w.maxGap)
    ensures Amount(s, who, w, 1) == NS_PER_SECOND * Amount(s, who, w, NS_PER_SECOND)
  {
    if |s| > 0 {
      AmountWhole(s[1..], who, w);
      assert |s| > 1 ==> s[1] in s;
      SegmentWhole(s[0], NextAt(s, w), w);
    }
  }

  /** Between whole-second stamps nothing changes within a second. */
  lemma InUseWithinSecond(events: seq<Event>, t: int, d: nat, who: Who, maxGap: int)
    requires WholeStamps(events) && Whole(t) && Whole(maxGap) && d < NS_PER_SECOND
    ensures InUse(events, t + d, who, maxGap) == InUse(events, t, who, maxGap)
  {
    LatestAtWithinSecond(events, t, d);
  }

  lemma {:induction false} LatestAtWithinSecond(events: seq<Event>, t: int, d: nat)
    requires WholeStamps(events) && Whole(t) && d < NS_PER_SECOND
    ensures LatestAt(events, t + d) == LatestAt(events, t)
  {
    if |events| > 0 {
      LatestAtWithinSecond(events[..|events| - 1], t, d);
      assert Whole(events[|events| - 1].at);
    }
  }

  lemma {:induction false} InstantsOfSeconds(events: seq<Event>, lo: int, hi: int, who: Who, maxGap: int)
    requires WholeStamps(events) && Whole(lo) && Whole(hi) && Whole(maxGap)
    ensures Instants(events, lo, hi, 1, who, maxGap)
         == NS_PER_SECOND * Instants(events, lo, hi, NS_PER_SECOND, who, maxGap)
    decreases hi - lo
  {
    if lo < hi {
      var next := lo + NS_PER_SECOND;
      InstantsSplit(events, lo, next, hi, who, maxGap);
      InstantsOfSeconds(events, next, hi, who, maxGap);
      forall t | lo <= t < next ensures InUse(events, t, who, maxGap) == InUse(events, lo, who, maxGap) {
        InUseWithinSecond(events, lo, t - lo, who, maxGap);
      }
      InstantsStretch(events, lo, if InUse(events, lo, who, maxGap) then next else lo, next, who, maxGap);
    }
  }

  /** With whole-second stamps a report counts the seconds whose newest observation is
      an active one of `who` less than maxGap old. */
  lemma UsageCountsSeconds(events: seq<Event>, start: int, end: int, now: int, maxGap: int, who: Who)
    requires WholeStamps(events) && Whole(start) && Whole(end) && Whole(now) && Whole(maxGap)
    ensures Usage(events, start, end, now, maxGap, who, NS_PER_SECOND)
         == Instants(events, start, if now == ZERO_TIME then end else Min(now, end), NS_PER_SECOND, who, maxGap)
  {
    var limit := EffectiveNow(end, now);
    UsageIsPointwise(events, start, end, now, maxGap, who);
    InstantsOfSeconds(events, start, limit, who, maxGap);
    StableSortOrdered(events);
    forall e | e in StableSort(events) ensures Whole(e.at) {
      assert e in multiset(StableSort(events));
    }
    AmountWhole(StableSort(events), who, Window(start, limit, maxGap));
  }
}
