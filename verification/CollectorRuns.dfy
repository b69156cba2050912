/** Whole histories of collector runs: posting, saving, re-sending, and what the server's
    report says in the end. */
module CollectorRuns {
  import opened Observations
  import opened Reports
  import opened UsageLaws
  import opened EventStore
  import opened Intake
  import opened Names
  import opened Tape
  import opened Collector
  import opened TapeUsage

  /** Posting in batches; a refused batch changes nothing. */
  ghost function PostAll(rows: seq<Event>, device: int, clientId: string, events: seq<RequestEvent>): seq<Event>
    decreases |events|
  {
    if |events| == 0 then rows
    else
      var n := Min(|events|, BATCH_LIMIT);
      PostAll(Accept(rows, device, clientId, events[..n]), device, clientId, events[n..])
  }

  lemma GoodPart(events: seq<RequestEvent>, lo: nat, hi: nat)
    requires GoodEvents(events) && lo <= hi <= |events|
    ensures GoodEvents(events[lo..hi])
  {
    forall e | e in events[lo..hi] ensures WellFormed(e) {
      assert e in events;
    }
  }

  lemma NormalisedConcat(events: seq<RequestEvent>, n: nat)
    requires GoodEvents(events) && n <= |events|
    ensures GoodEvents(events[..n]) && GoodEvents(events[n..])
    ensures NormalisedAll(events) == NormalisedAll(events[..n]) + NormalisedAll(events[n..])
  {
    GoodPart(events, 0, n);
    GoodPart(events, n, |events|);
    assert events[0..n] == events[..n] && events[n..|events|] == events[n..];
  }

  /** Cutting good events into batches makes no difference. */
  lemma {:induction false} PostAllInserts(rows: seq<Event>, device: int, clientId: string, events: seq<RequestEvent>)
    requires GoodEvents(events) && Trim(clientId) != ""
    ensures PostAll(rows, device, clientId, events) == InsertAll(rows, device, NormalisedAll(events))
    decreases |events|
  {
    if |events| > 0 {
      var n := Min(|events|, BATCH_LIMIT);
      var batch, rest := events[..n], events[n..];
      GoodPart(events, 0, n);
      GoodPart(events, n, |events|);
      assert events[0..n] == batch && events[n..|events|] == rest;
      var next := Accept(rows, device, clientId, batch);
      assert next == InsertAll(rows, device, NormalisedAll(batch));
      PostAllInserts(next, device, clientId, rest);
      InsertAllConcat(rows, device, NormalisedAll(batch), NormalisedAll(rest));
      NormalisedConcat(events, n);
    }
  }

  /** A crash after any number of posted batches, then the same events again from the start:
      the table is the one a clean run leaves, rows, ids and order. */
  lemma ResendAfterCrash(rows: seq<Event>, device: int, clientId: string, events: seq<RequestEvent>, posted: nat)
    requires ValidRows(rows) && GoodEvents(events) && Trim(clientId) != "" && posted <= |events|
    ensures PostAll(PostAll(rows, device, clientId, events[..posted]), device, clientId, events)
         == PostAll(rows, device, clientId, events)
  {
    GoodPart(events, 0, posted);
    assert events[0..posted] == events[..posted];
    var partial := PostAll(rows, device, clientId, events[..posted]);
    PostAllInserts(rows, device, clientId, events[..posted]);
    PostAllInserts(rows, device, clientId, events);
    PostAllInserts(partial, device, clientId, events);
    assert NormalisedAll(events[..posted]) == NormalisedAll(events)[..posted];
    ResendPrefix(rows, device, NormalisedAll(events), posted);
  }

  // ---- the events of one run --------------------------------------------------

  lemma {:induction false} RunEventsOnTapes(member: string, c: Calendar, sent: map<int, map<string, nat>>,
                                            usage: seq<DayUsage>, horizon: int, e: RequestEvent)
    requires ValidUsage(c, usage, horizon) && e in RunEvents(member, c, sent, usage)
    ensures exists k :: 0 <= k < |usage| && OnTape(Reel(member, c, usage[k].day), e)
  {
    var front, u := usage[..|usage| - 1], usage[|usage| - 1];
    ValidUsageFront(c, usage, horizon);
    if e in RunEvents(member, c, sent, front) {
      RunEventsOnTapes(member, c, sent, front, horizon, e);
      var k :| 0 <= k < |front| && OnTape(Reel(member, c, front[k].day), e);
      assert OnTape(Reel(member, c, usage[k].day), e);
    } else {
      var daySent := SentOn(RunSent(sent, front), u.day);
      DeltasValid(daySent, u.apps);
      TapeMember(Reel(member, c, u.day), Deltas(daySent, u.apps), SumNat(daySent), e);
    }
  }

  lemma {:induction false} DeltasValid(daySent: map<string, nat>, apps: seq<Scraped>)
    requires ValidScrape(apps)
    ensures ValidAppends(Deltas(daySent, apps))
  {
    if |apps| > 0 {
      assert apps[|apps| - 1] in apps;
      DeltasValid(daySent, apps[..|apps| - 1]);
    }
  }

  /** No two elements of a tape share an id. */
  lemma TapeIdsDistinct(r: Reel, a: seq<Append>, off: nat)
    requires ValidCalendar(r.calendar) && r.calendar.Has(r.day) && AfterYearOne(r) && ValidAppends(a)
    ensures GoodEvents(TapeOf(r, a, off))
  {
    hide TapeOf, Trim, Normalised;
    var s := TapeOf(r, a, off);
    forall e | e in s ensures WellFormed(e) && Trim(e.eventId) == e.eventId && OnTape(r, e) {
      TapeMember(r, a, off, e);
      OnTapeWellFormed(r, e);
    }
    TapeClimbs(r, a, off);
    forall i, j | 0 <= i < j < |s| ensures Trim(s[i].eventId) != Trim(s[j].eventId) {
      assert s[i] in s && s[j] in s;
      if s[i].eventId == s[j].eventId {
        SameIdSameEvent(r, r, s[i], s[j]);
      }
    }
  }

  /** A run's events are all well-formed and no two share an id, so every batch is accepted. */
  lemma {:induction false} RunEventsGood(member: string, c: Calendar, sent: map<int, map<string, nat>>,
                                         usage: seq<DayUsage>, horizon: int)
    requires ValidUsage(c, usage, horizon) && ValidSetting(member, c)
    ensures GoodEvents(RunEvents(member, c, sent, usage))
  {
    if |usage| > 0 {
      var front, u := usage[..|usage| - 1], usage[|usage| - 1];
      ValidUsageFront(c, usage, horizon);
      RunEventsGood(member, c, sent, front, horizon);
      var daySent := SentOn(RunSent(sent, front), u.day);
      DeltasValid(daySent, u.apps);
      var r := Reel(member, c, u.day);
      var oldEvents, newEvents := RunEvents(member, c, sent, front),
                                  TapeOf(r, Deltas(daySent, u.apps), SumNat(daySent));
      assert AfterYearOne(r);
      TapeIdsDistinct(r, Deltas(daySent, u.apps), SumNat(daySent));
      forall i, j | 0 <= i < |oldEvents| && 0 <= j < |newEvents|
        ensures Trim(oldEvents[i].eventId) != Trim(newEvents[j].eventId)
      {
        RunEventsOnTapes(member, c, sent, front, horizon, oldEvents[i]);
        var k :| 0 <= k < |front| && OnTape(Reel(member, c, front[k].day), oldEvents[i]);
        var q := Reel(member, c, front[k].day);
        assert AfterYearOne(q) && usage[k] == front[k];
        TapeMember(r, Deltas(daySent, u.apps), SumNat(daySent), newEvents[j]);
        OnTapeWellFormed(q, oldEvents[i]);
        OnTapeWellFormed(r, newEvents[j]);
        if oldEvents[i].eventId == newEvents[j].eventId {
          SameIdSameEvent(q, r, oldEvents[i], newEvents[j]);
        }
      }
      GoodJoin(oldEvents, newEvents);
    }
  }

  lemma GoodJoin(a: seq<RequestEvent>, b: seq<RequestEvent>)
    requires GoodEvents(a) && GoodEvents(b)
    requires forall i, j :: 0 <= i < |a| && 0 <= j < |b| ==> Trim(a[i].eventId) != Trim(b[j].eventId)
    ensures GoodEvents(a + b)
  {
  }

  // ---- histories --------------------------------------------------------------

  datatype Run = Run(today: int, usage: seq<DayUsage>)

  /** What the state file holds after a run; a run with nothing to send does not write it. */
  ghost function SavedAfter(member: string, c: Calendar, saved: map<int, map<string, nat>>,
                            run: Run): map<int, map<string, nat>> {
    if RunEvents(member, c, saved, run.usage) == [] then saved
    else Prune(RunSent(saved, run.usage), run.today - KEEP_DAYS)
  }

  ghost function Saved(member: string, c: Calendar, runs: seq<Run>): map<int, map<string, nat>> {
    if |runs| == 0 then map[]
    else SavedAfter(member, c, Saved(member, c, runs[..|runs| - 1]), runs[|runs| - 1])
  }

  ghost function Rows(device: int, member: string, c: Calendar, runs: seq<Run>): seq<Event> {
    if |runs| == 0 then []
    else
      var front := runs[..|runs| - 1];
      PostAll(Rows(device, member, c, front), device, MemberName(member),
              RunEvents(member, c, Saved(member, c, front), runs[|runs| - 1].usage))
  }

  ghost function Tapes(member: string, c: Calendar, runs: seq<Run>): map<int, seq<Append>> {
    if |runs| == 0 then map[]
    else
      var front := runs[..|runs| - 1];
      RunTapes(Tapes(member, c, front), Saved(member, c, front), runs[|runs| - 1].usage)
  }

  /** Days do not go backwards and every scraped day is recent enough to be in the state file. */
  ghost predicate ValidRuns(c: Calendar, runs: seq<Run>) {
    && (forall i :: 0 <= i < |runs| ==> ValidUsage(c, runs[i].usage, runs[i].today - KEEP_DAYS))
    && (forall i, j :: 0 <= i < j < |runs| ==> runs[i].today <= runs[j].today)
  }

  ghost predicate Scrapes(usage: seq<DayUsage>, day: int) {
    exists k :: 0 <= k < |usage| && usage[k].day == day
  }

  lemma {:induction false} RunSentDays(sent: map<int, map<string, nat>>, usage: seq<DayUsage>)
    ensures forall d :: d in RunSent(sent, usage) <==> d in sent || Scrapes(usage, d)
  {
    if |usage| > 0 {
      var front := usage[..|usage| - 1];
      RunSentDays(sent, front);
      assert forall k :: 0 <= k < |front| ==> front[k] == usage[k];
      forall d ensures Scrapes(usage, d) <==> Scrapes(front, d) || usage[|usage| - 1].day == d {
      }
    }
  }

  /** A run that has posted something leaves a record of the days known before and of those it scraped, as
      far back as 35 days; one that had nothing to post leaves the record alone. */
  lemma SavedDays(member: string, c: Calendar, saved: map<int, map<string, nat>>, run: Run)
    ensures RunEvents(member, c, saved, run.usage) == [] ==> SavedAfter(member, c, saved, run) == saved
    ensures RunEvents(member, c, saved, run.usage) != [] ==>
            forall d :: d in SavedAfter(member, c, saved, run)
                        <==> d >= run.today - 35 && (d in saved || Scrapes(run.usage, d))
  {
    RunSentDays(saved, run.usage);
  }

  lemma {:induction false} QuietRun(member: string, c: Calendar, sent: map<int, map<string, nat>>, usage: seq<DayUsage>)
    requires RunEvents(member, c, sent, usage) == []
    ensures forall d :: SentOn(RunSent(sent, usage), d) == SentOn(sent, d)
  {
    if |usage| > 0 {
      var front, u := usage[..|usage| - 1], usage[|usage| - 1];
      QuietRun(member, c, sent, front);
      QuietDay(SentOn(RunSent(sent, front), u.day), u.apps);
    }
  }

  lemma {:induction false} QuietDay(daySent: map<string, nat>, apps: seq<Scraped>)
    requires Deltas(daySent, apps) == []
    ensures Grow(daySent, apps) == daySent
  {
    if |apps| > 0 {
      QuietDay(daySent, apps[..|apps| - 1]);
    }
  }

  lemma MemberNameTrimmed(member: string)
    ensures Trim(MemberName(member)) != ""
  {
    var s := MemberName(member);
    assert s[0] == 'r' && s[7] == 'a';
    TrimRightKeeps(s, 0);
  }

  lemma {:induction false} TrimRightKeeps(s: string, i: nat)
    requires i < |s| && !IsSpace(s[i])
    ensures |TrimRight(s)| > i
  {
    if IsSpace(s[|s| - 1]) {
      TrimRightKeeps(s[..|s| - 1], i);
    }
  }

  /** After any history the state file matches the tapes from the horizon on. */
  lemma {:induction false} RunsTrack(member: string, c: Calendar, runs: seq<Run>, horizon: int)
    requires ValidRuns(c, runs) && ValidSetting(member, c)
    requires |runs| > 0 ==> runs[|runs| - 1].today - KEEP_DAYS <= horizon
    ensures Tracks(Saved(member, c, runs), Tapes(member, c, runs), horizon)
    ensures SoundTapes(member, c, Tapes(member, c, runs))
  {
    if |runs| > 0 {
      var front, run := runs[..|runs| - 1], runs[|runs| - 1];
      var h := run.today - KEEP_DAYS;
      assert ValidRuns(c, front) by { assert forall i :: 0 <= i < |front| ==> front[i] == runs[i]; }
      RunsTrack(member, c, front, h);
      var saved := Saved(member, c, front);
      RunTracks(member, c, saved, Tapes(member, c, front), run.usage, h);
      RunOnDays(c, saved, Tapes(member, c, front), run.usage, h);
      if RunEvents(member, c, saved, run.usage) == [] {
        QuietRun(member, c, saved, run.usage);
      }
      var tapes := Tapes(member, c, runs);
      forall d | d >= horizon ensures Matches(SentOn(Saved(member, c, runs), d), TapeOn(tapes, d)) {
        assert Matches(SentOn(RunSent(saved, run.usage), d), TapeOn(tapes, d));
      }
    } else {
      assert forall d :: Matches(SentOn(map[], d), TapeOn(map[], d));
    }
  }

  lemma NothingInEmpty(e: RequestEvent, member: string, c: Calendar)
    ensures !InTapes(e, member, c, map[])
  {
    forall d ensures !OnDay(e, member, c, map[], d) {
    }
  }

  /** After any history the table holds exactly the tapes. */
  lemma {:induction false} RunsFaithful(device: int, member: string, c: Calendar, runs: seq<Run>)
    requires ValidRuns(c, runs) && ValidSetting(member, c)
    ensures Faithful(Rows(device, member, c, runs), device, member, c, Tapes(member, c, runs))
  {
    hide SoundTapes, Tracks, ValidUsage, RunEvents, FreshIds, SavedAfter, ValidSetting, Normalised, RowFrom, TapeOf;
    if |runs| == 0 {
      forall e ensures !InTapes(e, member, c, map[]) {
        NothingInEmpty(e, member, c);
      }
    } else {
      var front, run := runs[..|runs| - 1], runs[|runs| - 1];
      var h := run.today - KEEP_DAYS;
      assert ValidRuns(c, front) by { assert forall i :: 0 <= i < |front| ==> front[i] == runs[i]; }
      RunsFaithful(device, member, c, front);
      RunsTrack(member, c, front, h);
      RunsTrack(member, c, runs, h);
      var saved, tapes := Saved(member, c, front), Tapes(member, c, front);
      RunTracks(member, c, saved, tapes, run.usage, h);
      var events := RunEvents(member, c, saved, run.usage);
      RunEventsGood(member, c, saved, run.usage, h);
      MemberNameTrimmed(member);
      PostAllInserts(Rows(device, member, c, front), device, MemberName(member), events);
      InsertFaithful(Rows(device, member, c, front), device, member, c, tapes, Tapes(member, c, runs), events);
    }
  }

  // ---- running maxima ---------------------------------------------------------

  function PeakIn(apps: seq<Scraped>, app: string, peak: nat): nat {
    if |apps| == 0 then peak
    else
      var p, x := PeakIn(apps[..|apps| - 1], app, peak), apps[|apps| - 1];
      if x.app == app then Max(p, x.total) else p
  }

  function PeakOn(usage: seq<DayUsage>, day: int, app: string, peak: nat): nat {
    if |usage| == 0 then peak
    else
      var p, u := PeakOn(usage[..|usage| - 1], day, app, peak), usage[|usage| - 1];
      if u.day == day then PeakIn(u.apps, app, p) else p
  }

  /** The running maximum of what the runs scraped for an app on a day. */
  function Peak(runs: seq<Run>, day: int, app: string): nat {
    if |runs| == 0 then 0 else PeakOn(runs[|runs| - 1].usage, day, app, Peak(runs[..|runs| - 1], day, app))
  }

  lemma {:induction false} GrowPeak(daySent: map<string, nat>, apps: seq<Scraped>, app: string)
    ensures GetTotal(Grow(daySent, apps), app) == PeakIn(apps, app, GetTotal(daySent, app))
  {
    if |apps| > 0 {
      GrowPeak(daySent, apps[..|apps| - 1], app);
    }
  }

  lemma {:induction false} RunPeak(member: string, c: Calendar, sent: map<int, map<string, nat>>,
      tapes: map<int, seq<Append>>, usage: seq<DayUsage>, horizon: int, day: int, app: string)
    requires Tracks(sent, tapes, horizon) && ValidUsage(c, usage, horizon)
    ensures Total(TapeOn(RunTapes(tapes, sent, usage), day), app)
            == PeakOn(usage, day, app, Total(TapeOn(tapes, day), app))
  {
    if |usage| > 0 {
      var front, u := usage[..|usage| - 1], usage[|usage| - 1];
      ValidUsageFront(c, usage, horizon);
      RunPeak(member, c, sent, tapes, front, horizon, day, app);
      RunTracks(member, c, sent, tapes, front, horizon);
      var daySent, tape := SentOn(RunSent(sent, front), u.day), TapeOn(RunTapes(tapes, sent, front), u.day);
      assert Matches(daySent, tape);
      GrowMatches(daySent, tape, u.apps);
      GrowPeak(daySent, u.apps, app);
    }
  }

  lemma {:induction false} TapeTotals(member: string, c: Calendar, runs: seq<Run>, day: int, app: string)
    requires ValidRuns(c, runs) && ValidSetting(member, c)
    ensures Total(TapeOn(Tapes(member, c, runs), day), app) == Peak(runs, day, app)
  {
    if |runs| > 0 {
      var front, run := runs[..|runs| - 1], runs[|runs| - 1];
      var h := run.today - KEEP_DAYS;
      assert ValidRuns(c, front) by { assert forall i :: 0 <= i < |front| ==> front[i] == runs[i]; }
      TapeTotals(member, c, front, day, app);
      RunsTrack(member, c, front, h);
      RunPeak(member, c, Saved(member, c, front), Tapes(member, c, front), run.usage, h, day, app);
    }
  }

  /** Server-side accounting over everything ever accepted gives back, for every day and app,
      exactly the running maximum of the scraped totals. */
  lemma ScrapedTotalsReported(report: Report, device: int, member: string, c: Calendar, runs: seq<Run>,
                              day: int, now: int, maxGap: int)
    requires ValidRuns(c, runs) && ValidSetting(member, c) && ShortTapes(c, Tapes(member, c, runs)) && c.Has(day)
    requires GapCovers(maxGap) && Whole(maxGap)
    requires now == ZERO_TIME || now >= (c.midnight(day) + Length(TapeOn(Tapes(member, c, runs), day))) * NS_PER_SECOND
    requires IsReport(report, Rows(device, member, c, runs),
                      c.midnight(day) * NS_PER_SECOND, c.midnight(day + 1) * NS_PER_SECOND, now, maxGap)
    ensures forall app :: Get(report.byProcess, app) == Peak(runs, day, app)
    ensures report.totalSeconds == Sum(report.byProcess) == Length(TapeOn(Tapes(member, c, runs), day))
  {
    RunsFaithful(device, member, c, runs);
    RunsTrack(member, c, runs, if |runs| > 0 then runs[|runs| - 1].today else 0);
    var rows, tapes := Rows(device, member, c, runs), Tapes(member, c, runs);
    forall app ensures Get(report.byProcess, app) == Peak(runs, day, app) {
      DayReport(rows, device, member, c, tapes, day, now, maxGap, Process(app));
      TapeTotals(member, c, runs, day, app);
    }
    DayReport(rows, device, member, c, tapes, day, now, maxGap, Everyone);
  }

  lemma PostStep(rows: seq<Event>, device: int, clientId: string, events: seq<RequestEvent>, i: nat, n: nat)
    requires i < |events| && n == Min(|events| - i, BATCH_LIMIT)
    ensures PostAll(rows, device, clientId, events[i..])
         == PostAll(Accept(rows, device, clientId, events[i..i + n]), device, clientId, events[i + n..])
    ensures GoodEvents(events) && Trim(clientId) != "" ==> Acceptable(clientId, events[i..i + n])
  {
    hide WellFormed, NormalisedAll, InsertAll, Trim;
    assert events[i..][..n] == events[i..i + n] && events[i..][n..] == events[i + n..];
    if GoodEvents(events) {
      GoodPart(events, i, i + n);
    }
  }

  // ---- the collector itself ---------------------------------------------------

  /** One member's collector with its state file. */
  class MemberCollector {
    var saved: map<int, map<string, nat>>

    constructor ()
      ensures saved == map[]
    {
      saved := map[];
    }

    /** Posts batch by batch and stops at the first refusal. */
    method PostEvents(server: Store, device: int, clientId: string, events: seq<RequestEvent>) returns (ok: bool)
      requires server.Valid()
      modifies server
      ensures server.Valid() && (ok ==> server.rows == PostAll(old(server.rows), device, clientId, events))
      ensures GoodEvents(events) && Trim(clientId) != "" ==> ok
    {
      var i := 0;
      while i < |events|
        invariant 0 <= i <= |events| && server.Valid()
        invariant PostAll(server.rows, device, clientId, events[i..])
                  == PostAll(old(server.rows), device, clientId, events)
      {
        var n := Min(|events| - i, BATCH_LIMIT);
        var chunk := events[i..i + n];
        PostStep(server.rows, device, clientId, events, i, n);
        var inputs := ValidateBatch(clientId, chunk);
        if inputs.Failure? {
          return false;
        }
        var accepted, ignored := server.InsertEvents(device, inputs.value);
        i := i + n;
      }
      return true;
    }

    /** The loop over the scraped days, on a copy of the state: every day's growth is laid out. */
    method LayOut(member: string, c: Calendar, usage: seq<DayUsage>)
      returns (sent: map<int, map<string, nat>>, events: seq<RequestEvent>)
      ensures sent == RunSent(saved, usage) && events == RunEvents(member, c, saved, usage)
    {
      hide Grow, Deltas, TapeOf, SumNat, SentOn;
      sent := saved;
      events := [];
      for i := 0 to |usage|
        invariant sent == RunSent(saved, usage[..i]) && events == RunEvents(member, c, saved, usage[..i])
      {
        var u := usage[i];
        assert usage[..i + 1][..i] == usage[..i] && usage[..i + 1][i] == u;
        var daySent := SentOn(sent, u.day);
        var tapeStart := SumValues(daySent);
        var appends, grown := GrowDay(daySent, u.apps);
        sent := sent[u.day := grown];
        var laid := Synthesize(Reel(member, c, u.day), appends, tapeStart);
        events := events + laid;
      }
      assert usage[..|usage|] == usage;
    }

    /** One run: the day's growth is posted, and only then written to the state file. */
    method RunMember(server: Store, device: int, member: string, c: Calendar, run: Run) returns (ok: bool)
      requires server.Valid()
      modifies this, server
      ensures server.Valid()
      ensures ok ==> saved == SavedAfter(member, c, old(saved), run)
      ensures ok ==> server.rows == PostAll(old(server.rows), device, MemberName(member),
                                            RunEvents(member, c, old(saved), run.usage))
      ensures !ok ==> saved == old(saved)
      ensures GoodEvents(RunEvents(member, c, old(saved), run.usage)) ==> ok
    {
      hide RunEvents, RunSent, MemberName, Trim;
      var sent, events := LayOut(member, c, run.usage);
      if events == [] {
        return true;
      }
      MemberNameTrimmed(member);
      ok := PostEvents(server, device, MemberName(member), events);
      if ok {
        saved := Prune(sent, run.today - KEEP_DAYS);
      }
    }
  }
}
