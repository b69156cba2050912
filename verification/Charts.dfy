/** The charts: the spans of their axes and the series computed for them from a single fetch. */
module Charts {
  import opened EventStore
  import opened Observations
  import opened Reports
  import opened UsageLaws
  import opened WindowLaws

  /** One point of the axis stands for the usage in [start, end). */
  datatype Span = Span(start: int, end: int)

  const MINUTE: int := 60 * NS_PER_SECOND
  const BIN: int := 15 * MINUTE
  const AXIS_START: int := 7 * 60 * MINUTE

  /** Local midnight of every day, whatever the time zone does in between. */
  ghost predicate Increasing(midnight: int -> int) {
    forall i, j :: i < j ==> midnight(i) < midnight(j)
  }

  /** Windows that follow each other without gap or overlap. */
  ghost predicate Chained(spans: seq<Span>) {
    && |spans| > 0 && (forall i :: 0 <= i < |spans| ==> spans[i].start <= spans[i].end)
    && (forall i :: 0 <= i < |spans| - 1 ==> spans[i].end == spans[i + 1].start)
  }

  /** Windows that begin together and end later and later. */
  ghost predicate Cumulative(spans: seq<Span>) {
    && |spans| > 0 && (forall i :: 0 <= i < |spans| ==> spans[i].start == spans[0].start)
    && (forall i, j :: 0 <= i < j < |spans| ==> spans[i].end < spans[j].end)
  }

  function DaySpan(midnight: int -> int, day: int): Span {
    Span(midnight(day), midnight(day + 1))
  }

  ghost predicate DaysFrom(days: seq<Span>, midnight: int -> int, first: int) {
    forall i :: 0 <= i < |days| ==> days[i] == Span(midnight(first + i), midnight(first + i + 1))
  }

  lemma DaysChained(days: seq<Span>, midnight: int -> int, first: int)
    requires Increasing(midnight) && |days| > 0 && DaysFrom(days, midnight, first)
    ensures Chained(days) && forall i :: 0 <= i < |days| ==> days[i].start < days[i].end
  {
    forall i | 0 <= i < |days| ensures days[i].start < days[i].end {
      assert days[i] == Span(midnight(first + i), midnight(first + i + 1));
    }
    forall i | 0 <= i < |days| - 1 ensures days[i].end == days[i + 1].start {
      assert days[i].end == midnight(first + i + 1) == days[i + 1].start;
    }
  }

  /** The days up to and including today. */
  method DailySpans(midnight: int -> int, today: int, dayCount: int) returns (days: seq<Span>)
    requires Increasing(midnight)
    ensures |days| == Max(1, dayCount) && DaysFrom(days, midnight, today - |days| + 1)
    ensures Chained(days) && forall i :: 0 <= i < |days| ==> days[i].start < days[i].end
    ensures days[|days| - 1] == Span(midnight(today), midnight(today + 1))
  {
    hide Increasing, Chained;
    var count := dayCount;
    if count < 1 {
      count := 1;
    }
    days := [];
    var offset := count - 1;
    while offset >= 0
      invariant -1 <= offset < count && |days| == count - 1 - offset
      invariant DaysFrom(days, midnight, today - count + 1)
    {
      days := days + [DaySpan(midnight, today - offset)];
      offset := offset - 1;
    }
    DaysChained(days, midnight, today - count + 1);
  }

  /** The day so far, from seven o'clock in steps of a quarter of an hour, and now. */
  method IntradaySpans(dayStart: int, now: int) returns (spans: seq<Span>)
    ensures Cumulative(spans) && spans[0].start == dayStart && spans[|spans| - 1].end == now
    ensures forall i :: 0 <= i < |spans| - 1 ==> spans[i].end == dayStart + (25_200 + i * 900) * NS_PER_SECOND
    ensures now - dayStart <= (25_200 + 900 * (|spans| - 1)) * NS_PER_SECOND
    ensures |spans| > 1 ==> (25_200 + 900 * (|spans| - 2)) * NS_PER_SECOND < now - dayStart
  {
    var axisStart := dayStart + AXIS_START;
    if now <= axisStart {
      return [Span(dayStart, now)];
    }
    spans := [];
    var t := axisStart;
    while t < now
      invariant t == axisStart + |spans| * BIN
      invariant |spans| > 0 ==> t - BIN < now
      invariant forall i :: 0 <= i < |spans| ==> spans[i].start == dayStart && spans[i].end == axisStart + i * BIN < now
      decreases now - t
    {
      spans := spans + [Span(dayStart, t)];
      t := t + BIN;
    }
    spans := spans + [Span(dayStart, now)];
  }

  // ---- series -----------------------------------------------------------------

  /** No span reaches outside what the first start and the last end enclose. */
  ghost predicate Framed(spans: seq<Span>) {
    |spans| > 0 && forall i :: 0 <= i < |spans| ==>
      spans[0].start <= spans[i].start && spans[i].end <= spans[|spans| - 1].end
  }

  lemma {:induction false} ChainedFramed(spans: seq<Span>)
    requires Chained(spans)
    ensures Framed(spans)
  {
    if |spans| > 1 {
      ChainedFramed(spans[1..]);
      assert forall i :: 1 <= i < |spans| ==> spans[i] == spans[1..][i - 1];
    }
  }

  lemma CumulativeFramed(spans: seq<Span>)
    requires Cumulative(spans)
    ensures Framed(spans)
  {
  }

  function SpanUsage(rows: seq<Event>, span: Span, now: int, maxGap: int, who: Who): nat {
    Usage(rows, span.start, span.end, now, maxGap, who, NS_PER_SECOND)
  }

  /** A device's series, in seconds: fetched once, evaluated for every span, and the same as if each
      point had been computed from everything the device ever reported. */
  method UsageSeries(store: Store, device: int, spans: seq<Span>, now: int, maxGap: int) returns (points: seq<int>)
    requires store.Valid() && Framed(spans)
    ensures PointsOf(points, Everyone, DeviceRows(store.rows, device), spans, |spans|, now, maxGap)
  {
    ghost var mine := DeviceRows(store.rows, device);
    DeviceRowsById(store.rows, device);
    var first, last := spans[0].start, spans[|spans| - 1].end;
    var events := store.ReportEvents(device, first, last);
    points := [];
    for i := 0 to |spans|
      invariant PointsOf(points, Everyone, mine, spans, i, now, maxGap)
    {
      var report := CalculateUsage(events, spans[i].start, spans[i].end, now, maxGap);
      FetchedReport(report, mine, first, last, events, spans[i].start, spans[i].end, now, maxGap);
      points := points + [report.totalSeconds];
    }
  }

  /** The points of the first n spans. */
  ghost predicate PointsOf(points: seq<int>, who: Who, rows: seq<Event>, spans: seq<Span>, n: nat, now: int,
                           maxGap: int)
    requires n <= |spans|
  {
    |points| == n && forall k :: 0 <= k < n ==> points[k] == SpanUsage(rows, spans[k], now, maxGap, who)
  }

  /** A window inside another never reports more. */
  lemma InnerWindow(rows: seq<Event>, outer: Span, inner: Span, now: int, maxGap: int, who: Who)
    requires outer.start <= inner.start && inner.end <= outer.end
    ensures SpanUsage(rows, inner, now, maxGap, who) <= SpanUsage(rows, outer, now, maxGap, who)
  {
    if inner.start <= inner.end {
      UsageCut(rows, inner.start, inner.end, outer.end, now, maxGap, who, NS_PER_SECOND);
      UsageCut(rows, outer.start, inner.start, outer.end, now, maxGap, who, NS_PER_SECOND);
    } else {
      EmptyWindow(StableSort(rows), who, Window(inner.start, EffectiveNow(inner.end, now), maxGap), NS_PER_SECOND);
    }
  }

  /** The programs' series for the first n spans. */
  ghost predicate SeriesOf(series: map<string, seq<int>>, rows: seq<Event>, spans: seq<Span>, n: nat, now: int,
                           maxGap: int)
    requires n <= |spans|
  {
    forall p :: p in series ==> PointsOf(series[p], Process(p), rows, spans, n, now, maxGap)
  }

  function Extended(series: map<string, seq<int>>, byProcess: map<string, int>): map<string, seq<int>> {
    map p | p in series :: series[p] + [Get(byProcess, p)]
  }

  lemma ExtendedSeries(series: map<string, seq<int>>, report: Report, rows: seq<Event>, spans: seq<Span>, n: nat,
                       now: int, maxGap: int)
    requires n < |spans| && SeriesOf(series, rows, spans, n, now, maxGap)
    requires IsReport(report, rows, spans[n].start, spans[n].end, now, maxGap)
    ensures SeriesOf(Extended(series, report.byProcess), rows, spans, n + 1, now, maxGap)
  {
    forall p | p in series
      ensures PointsOf(series[p] + [Get(report.byProcess, p)], Process(p), rows, spans, n + 1, now, maxGap)
    {
      assert PointsOf(series[p], Process(p), rows, spans, n, now, maxGap);
    }
  }

  /** Every program's series in seconds, for the programs of the whole range; a program that shows up
      in any span is among them, so none is dropped. */
  method ProgramSeries(store: Store, device: int, spans: seq<Span>, now: int, maxGap: int)
    returns (totals: map<string, int>, series: map<string, seq<int>>)
    requires store.Valid() && Framed(spans)
    ensures series.Keys == totals.Keys && SeriesOf(series, DeviceRows(store.rows, device), spans, |spans|, now, maxGap)
    ensures forall p :: Get(totals, p)
                     == SpanUsage(DeviceRows(store.rows, device), Span(spans[0].start, spans[|spans| - 1].end), now,
                                  maxGap, Process(p))
    ensures forall p, i :: 0 <= i < |spans| && p !in series
                           ==> SpanUsage(DeviceRows(store.rows, device), spans[i], now, maxGap, Process(p)) == 0
  {
    ghost var mine := DeviceRows(store.rows, device);
    DeviceRowsById(store.rows, device);
    var first, last := spans[0].start, spans[|spans| - 1].end;
    var events := store.ReportEvents(device, first, last);
    var report := CalculateUsage(events, first, last, now, maxGap);
    FetchedReport(report, mine, first, last, events, first, last, now, maxGap);
    totals := report.byProcess;
    series := map p | p in totals :: [];
    for i := 0 to |spans|
      invariant series.Keys == totals.Keys && SeriesOf(series, mine, spans, i, now, maxGap)
    {
      report := CalculateUsage(events, spans[i].start, spans[i].end, now, maxGap);
      FetchedReport(report, mine, first, last, events, spans[i].start, spans[i].end, now, maxGap);
      ExtendedSeries(series, report, mine, spans, i, now, maxGap);
      series := Extended(series, report.byProcess);
    }
    forall p, i | 0 <= i < |spans| && p !in totals
      ensures SpanUsage(mine, spans[i], now, maxGap, Process(p)) == 0
    {
      InnerWindow(mine, Span(first, last), spans[i], now, maxGap, Process(p));
    }
  }

  // ---- what the charts show ---------------------------------------------------

  /** On the chart of today no series ever falls, in total or for any program. */
  lemma CumulativeSeriesGrows(rows: seq<Event>, spans: seq<Span>, now: int, maxGap: int, who: Who, i: nat, j: nat)
    requires Cumulative(spans) && i <= j < |spans|
    ensures SpanUsage(rows, spans[i], now, maxGap, who) <= SpanUsage(rows, spans[j], now, maxGap, who)
  {
    InnerWindow(rows, spans[j], spans[i], now, maxGap, who);
  }

  function Cuts(spans: seq<Span>): (cuts: seq<int>)
    requires |spans| > 0
    ensures |cuts| == |spans| + 1 && cuts[0] == spans[0].start && cuts[|cuts| - 1] == spans[|spans| - 1].end
  {
    if |spans| == 1 then [spans[0].start, spans[0].end] else [spans[0].start] + Cuts(spans[1..])
  }

  function SumOfSpans(rows: seq<Event>, spans: seq<Span>, now: int, maxGap: int, who: Who): nat {
    if |spans| == 0 then 0
    else SpanUsage(rows, spans[0], now, maxGap, who) + SumOfSpans(rows, spans[1..], now, maxGap, who)
  }

  lemma {:induction false} ChainedContiguous(spans: seq<Span>)
    requires Chained(spans)
    ensures Contiguous(Cuts(spans)) && Cuts(spans)[1] == spans[0].end
  {
    if |spans| > 1 {
      assert Chained(spans[1..]);
      ChainedContiguous(spans[1..]);
      var cuts := Cuts(spans);
      assert cuts[1..] == Cuts(spans[1..]);
      assert forall i :: 1 <= i < |cuts| - 1 ==> cuts[i] == cuts[1..][i - 1] && cuts[i + 1] == cuts[1..][i];
    }
  }

  lemma FirstWindow(rows: seq<Event>, cuts: seq<int>, now: int, maxGap: int, who: Who)
    requires |cuts| >= 2
    ensures SumOfWindows(rows, cuts, now, maxGap, who, NS_PER_SECOND)
         == SpanUsage(rows, Span(cuts[0], cuts[1]), now, maxGap, who)
            + SumOfWindows(rows, cuts[1..], now, maxGap, who, NS_PER_SECOND)
  {
  }

  lemma {:induction false} ChainedCuts(rows: seq<Event>, spans: seq<Span>, now: int, maxGap: int, who: Who)
    requires Chained(spans)
    ensures SumOfSpans(rows, spans, now, maxGap, who)
         == SumOfWindows(rows, Cuts(spans), now, maxGap, who, NS_PER_SECOND)
  {
    hide Usage;
    ChainedContiguous(spans);
    FirstWindow(rows, Cuts(spans), now, maxGap, who);
    if |spans| == 1 {
      assert spans[1..] == [];
    } else {
      assert Chained(spans[1..]);
      ChainedCuts(rows, spans[1..], now, maxGap, who);
      assert Cuts(spans)[1..] == Cuts(spans[1..]);
    }
  }

  /** The days of a week or month chart add up to the whole range: never more, and at most one second
      less per midnight between them. */
  lemma DaysAddUp(rows: seq<Event>, spans: seq<Span>, now: int, maxGap: int, who: Who)
    requires Chained(spans)
    ensures var whole := SpanUsage(rows, Span(spans[0].start, spans[|spans| - 1].end), now, maxGap, who);
            var parts := SumOfSpans(rows, spans, now, maxGap, who);
            parts <= whole <= parts + |spans| - 1
  {
    ChainedContiguous(spans);
    ChainedCuts(rows, spans, now, maxGap, who);
    UsagePartition(rows, Cuts(spans), now, maxGap, who, NS_PER_SECOND);
  }

  /** And exactly when every observation, every midnight, the gap and now are whole seconds. */
  lemma DaysAddUpExactly(rows: seq<Event>, spans: seq<Span>, now: int, maxGap: int, who: Who)
    requires Chained(spans) && WholeStamps(rows) && Whole(now) && Whole(maxGap)
    requires forall i :: 0 <= i < |spans| ==> Whole(spans[i].start) && Whole(spans[i].end)
    ensures SpanUsage(rows, Span(spans[0].start, spans[|spans| - 1].end), now, maxGap, who)
         == SumOfSpans(rows, spans, now, maxGap, who)
  {
    ChainedContiguous(spans);
    ChainedCuts(rows, spans, now, maxGap, who);
    CutsAreBounds(spans);
    UsagePartitionWhole(rows, Cuts(spans), now, maxGap, who);
  }

  lemma {:induction false} CutsAreBounds(spans: seq<Span>)
    requires |spans| > 0
    ensures forall c :: c in Cuts(spans) ==> exists i :: 0 <= i < |spans| && (c == spans[i].start || c == spans[i].end)
  {
    if |spans| > 1 {
      CutsAreBounds(spans[1..]);
      forall c | c in Cuts(spans) ensures exists i :: 0 <= i < |spans| && (c == spans[i].start || c == spans[i].end) {
        if c in Cuts(spans[1..]) {
          var i :| 0 <= i < |spans[1..]| && (c == spans[1..][i].start || c == spans[1..][i].end);
          assert spans[i + 1] == spans[1..][i];
        }
      }
    }
  }

  // ---- whole charts -----------------------------------------------------------

  /** The chart of today for one device: its points never fall and end with the day so far. */
  method TodayChart(store: Store, device: int, dayStart: int, now: int, maxGap: int)
    returns (spans: seq<Span>, points: seq<int>)
    requires store.Valid()
    ensures Cumulative(spans) && spans[0].start == dayStart && spans[|spans| - 1].end == now
    ensures PointsOf(points, Everyone, DeviceRows(store.rows, device), spans, |spans|, now, maxGap)
    ensures forall i, j :: 0 <= i <= j < |points| ==> points[i] <= points[j]
    ensures points[|points| - 1]
         == Usage(DeviceRows(store.rows, device), dayStart, now, now, maxGap, Everyone, NS_PER_SECOND)
  {
    hide Usage;
    spans := IntradaySpans(dayStart, now);
    CumulativeFramed(spans);
    points := UsageSeries(store, device, spans, now, maxGap);
    forall i, j | 0 <= i <= j < |points| ensures points[i] <= points[j] {
      CumulativeSeriesGrows(DeviceRows(store.rows, device), spans, now, maxGap, Everyone, i, j);
    }
  }

  function SumOf(points: seq<int>): int {
    if |points| == 0 then 0 else points[0] + SumOf(points[1..])
  }

  lemma {:induction false} PointsAddUp(points: seq<int>, rows: seq<Event>, spans: seq<Span>, now: int, maxGap: int,
                                       who: Who)
    requires PointsOf(points, who, rows, spans, |spans|, now, maxGap)
    ensures SumOf(points) == SumOfSpans(rows, spans, now, maxGap, who)
  {
    if |spans| > 0 {
      assert forall k :: 0 <= k < |spans[1..]| ==> points[1..][k] == points[k + 1] && spans[1..][k] == spans[k + 1];
      PointsAddUp(points[1..], rows, spans[1..], now, maxGap, who);
    }
  }

  /** The chart of a week or a month for one device: its points add up to the whole range, less at most
      one second for every midnight between them. */
  method DailyChart(store: Store, device: int, midnight: int -> int, today: int, dayCount: int, now: int, maxGap: int)
    returns (days: seq<Span>, points: seq<int>)
    requires store.Valid() && Increasing(midnight)
    ensures |days| == Max(1, dayCount) && DaysFrom(days, midnight, today - |days| + 1)
    ensures PointsOf(points, Everyone, DeviceRows(store.rows, device), days, |days|, now, maxGap)
    ensures var whole := Usage(DeviceRows(store.rows, device), midnight(today - |days| + 1), midnight(today + 1), now,
                               maxGap, Everyone, NS_PER_SECOND);
            SumOf(points) <= whole <= SumOf(points) + |days| - 1
  {
    hide Usage, Increasing;
    days := DailySpans(midnight, today, dayCount);
    ChainedFramed(days);
    points := UsageSeries(store, device, days, now, maxGap);
    PointsAddUp(points, DeviceRows(store.rows, device), days, now, maxGap, Everyone);
    DaysAddUp(DeviceRows(store.rows, device), days, now, maxGap, Everyone);
    assert days[0].start == midnight(today - |days| + 1) && days[|days| - 1].end == midnight(today + 1);
  }
}
