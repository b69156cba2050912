/** What a run over stored tapes comes to: after the state file was lost, and after a run that died
    before it was saved. */
module LostRuns {
  import opened Observations
  import opened Reports
  import opened UsageLaws
  import opened EventStore
  import opened Intake
  import opened Names
  import opened Tape
  import opened Collector
  import opened TapeUsage
  import opened CollectorRuns
  import opened LostState
  import opened Layers
  import opened LaidTables
  import opened ResentRuns

  // ---- the tapes a run without state lays -------------------------------------

  predicate ScrapedOn(usage: seq<DayUsage>, day: int) {
    exists i :: 0 <= i < |usage| && usage[i].day == day
  }

  /** The tapes a run without state lays, and elsewhere the stored ones. */
  function TapesAgain(tapes: map<int, seq<Append>>, usage: seq<DayUsage>): map<int, seq<Append>> {
    tapes + RunTapes(map[], map[], usage)
  }

  lemma {:induction false} LaidDays(usage: seq<DayUsage>, day: int)
    ensures day in RunTapes(map[], map[], usage) <==> ScrapedOn(usage, day)
  {
    if |usage| > 0 {
      var front := usage[..|usage| - 1];
      LaidDays(front, day);
      assert ScrapedOn(usage, day) <==> ScrapedOn(front, day) || usage[|usage| - 1].day == day by {
        if ScrapedOn(front, day) {
          var i :| 0 <= i < |front| && front[i].day == day;
          assert usage[i].day == day;
        }
        if ScrapedOn(usage, day) && usage[|usage| - 1].day != day {
          var i :| 0 <= i < |usage| && usage[i].day == day;
          assert front[i].day == day;
        }
      }
    }
  }

  lemma AgainEvents(e: RequestEvent, member: string, c: Calendar, tapes: map<int, seq<Append>>, usage: seq<DayUsage>,
                    horizon: int)
    requires ValidUsage(c, usage, horizon)
    ensures e in RunEvents(member, c, map[], usage) ==> InTapes(e, member, c, TapesAgain(tapes, usage))
    ensures InTapes(e, member, c, TapesAgain(tapes, usage))
            ==> e in RunEvents(member, c, map[], usage) || InTapes(e, member, c, tapes)
  {
    var laid := RunTapes(map[], map[], usage);
    NothingTracked(horizon);
    RunTracks(member, c, map[], map[], usage, horizon);
    NothingInEmpty(e, member, c);
    assert InTapes(e, member, c, laid) <==> e in RunEvents(member, c, map[], usage);
    if InTapes(e, member, c, laid) {
      var d :| OnDay(e, member, c, laid, d);
      assert OnDay(e, member, c, TapesAgain(tapes, usage), d);
    }
    if InTapes(e, member, c, TapesAgain(tapes, usage)) {
      var d :| OnDay(e, member, c, TapesAgain(tapes, usage), d);
      if d in laid {
        assert OnDay(e, member, c, laid, d);
      } else {
        assert OnDay(e, member, c, tapes, d);
      }
    }
  }

  lemma AgainSound(member: string, c: Calendar, tapes: map<int, seq<Append>>, usage: seq<DayUsage>, horizon: int)
    requires SoundTapes(member, c, tapes) && ValidUsage(c, usage, horizon)
    ensures SoundTapes(member, c, TapesAgain(tapes, usage))
  {
    NothingTracked(horizon);
    RunTracks(member, c, map[], map[], usage, horizon);
    RunOnDays(c, map[], map[], usage, horizon);
    var laid := RunTapes(map[], map[], usage);
    forall d | |TapeOn(TapesAgain(tapes, usage), d)| > 0 ensures c.Has(d) {
      assert |TapeOn(laid, d)| > 0 || |TapeOn(tapes, d)| > 0;
    }
    forall d ensures ValidAppends(TapeOn(TapesAgain(tapes, usage), d)) {
      assert ValidAppends(TapeOn(laid, d)) && ValidAppends(TapeOn(tapes, d));
    }
  }

  lemma RunsSound(member: string, c: Calendar, runs: seq<Run>)
    requires ValidRuns(c, runs) && ValidSetting(member, c)
    ensures SoundTapes(member, c, Tapes(member, c, runs))
  {
    RunsTrack(member, c, runs, if |runs| > 0 then runs[|runs| - 1].today else 0);
  }

  // ---- the table after successful runs ----------------------------------------

  lemma {:induction false} RunsValid(device: int, member: string, c: Calendar, runs: seq<Run>)
    requires ValidRuns(c, runs) && ValidSetting(member, c)
    ensures ValidRows(Rows(device, member, c, runs))
  {
    hide RunEvents, PostAll, ValidUsage, Saved, GoodEvents, InsertAll;
    if |runs| > 0 {
      var front, run := runs[..|runs| - 1], runs[|runs| - 1];
      assert ValidRuns(c, front) by { assert forall i :: 0 <= i < |front| ==> front[i] == runs[i]; }
      RunsValid(device, member, c, front);
      var events := RunEvents(member, c, Saved(member, c, front), run.usage);
      RunEventsGood(member, c, Saved(member, c, front), run.usage, run.today - KEEP_DAYS);
      MemberNameTrimmed(member);
      PostAllInserts(Rows(device, member, c, front), device, MemberName(member), events);
      InsertAllValid(Rows(device, member, c, front), device, NormalisedAll(events));
    }
  }

  lemma RunsLaid(device: int, member: string, c: Calendar, runs: seq<Run>)
    requires ValidRuns(c, runs) && ValidSetting(member, c)
    ensures LaidOver(Rows(device, member, c, runs), [Post(Tapes(member, c, runs), None)], device, member, c)
  {
    hide InTapes, Posted, Rows, Tapes, LaidOver, ValidRuns, ValidSetting, ValidRows;
    var rows, tapes := Rows(device, member, c, runs), Tapes(member, c, runs);
    var p := Post(tapes, None);
    RunsFaithful(device, member, c, runs);
    RunsSound(member, c, runs);
    RunsValid(device, member, c, runs);
    forall row | row in rows ensures RowOfPost(row, device, member, c, p) {
      assert Explained(row, device, member, c, tapes);
      var e :| InTapes(e, member, c, tapes) && RowFrom(row, device, e);
      PostedWhole(e, member, c, tapes);
    }
    forall e | Posted(e, member, c, p) ensures Held(rows, device, e) {
      PostedWhole(e, member, c, tapes);
    }
    OnePost(rows, p, device, member, c);
  }

  // ---- totals -----------------------------------------------------------------

  /** The total the run scraped for an app on a day. */
  function ScrapedTotal(usage: seq<DayUsage>, day: int, app: string): nat {
    PeakOn(usage, day, app, 0)
  }

  /** No total of the day is below what earlier runs had scraped. */
  ghost predicate Grows(runs: seq<Run>, usage: seq<DayUsage>, day: int) {
    forall app {:trigger ScrapedTotal(usage, day, app)} :: Peak(runs, day, app) <= ScrapedTotal(usage, day, app)
  }

  lemma {:induction false} PeakInFrom(apps: seq<Scraped>, app: string, peak: nat)
    ensures PeakIn(apps, app, peak) == Max(peak, PeakIn(apps, app, 0))
  {
    if |apps| > 0 {
      PeakInFrom(apps[..|apps| - 1], app, peak);
    }
  }

  lemma {:induction false} PeakOnFrom(usage: seq<DayUsage>, day: int, app: string, peak: nat)
    ensures PeakOn(usage, day, app, peak) == Max(peak, PeakOn(usage, day, app, 0))
  {
    if |usage| > 0 {
      var front, u := usage[..|usage| - 1], usage[|usage| - 1];
      PeakOnFrom(front, day, app, peak);
      PeakInFrom(u.apps, app, PeakOn(front, day, app, peak));
      PeakInFrom(u.apps, app, PeakOn(front, day, app, 0));
    }
  }

  /** With every name once, the total is the one scraped under that name. */
  lemma {:induction false} ScrapedOnce(apps: seq<Scraped>, k: nat)
    requires DistinctApps(apps) && k < |apps|
    ensures PeakIn(apps, apps[k].app, 0) == apps[k].total
  {
    var front := apps[..|apps| - 1];
    if k < |front| {
      ScrapedOnce(front, k);
    } else {
      NotScraped(front, apps[k].app);
    }
  }

  lemma {:induction false} NotScraped(apps: seq<Scraped>, app: string)
    requires forall i :: 0 <= i < |apps| ==> apps[i].app != app
    ensures PeakIn(apps, app, 0) == 0
  {
    if |apps| > 0 {
      NotScraped(apps[..|apps| - 1], app);
    }
  }

  /** The new tape of a scraped day holds the scraped totals. */
  lemma AgainTotals(member: string, c: Calendar, tapes: map<int, seq<Append>>, usage: seq<DayUsage>, horizon: int,
                    day: int, app: string)
    requires ValidUsage(c, usage, horizon) && ScrapedOn(usage, day)
    ensures Total(TapeOn(TapesAgain(tapes, usage), day), app) == ScrapedTotal(usage, day, app)
  {
    NothingTracked(horizon);
    RunPeak(member, c, map[], map[], usage, horizon, day, app);
    LaidDays(usage, day);
    assert Total(TapeOn(map[], day), app) == 0;
  }

  // ---- the state is lost ------------------------------------------------------

  /** What the server holds after a run without state. */
  ghost function LostRows(device: int, member: string, c: Calendar, runs: seq<Run>, usage: seq<DayUsage>): seq<Event> {
    PostAll(Rows(device, member, c, runs), device, MemberName(member), RunEvents(member, c, map[], usage))
  }

  ghost function LostPosts(member: string, c: Calendar, runs: seq<Run>, usage: seq<DayUsage>): seq<Post> {
    [Post(Tapes(member, c, runs), None), Post(TapesAgain(Tapes(member, c, runs), usage), None)]
  }

  lemma LostLaid(device: int, member: string, c: Calendar, runs: seq<Run>, usage: seq<DayUsage>, horizon: int)
    requires ValidRuns(c, runs) && ValidSetting(member, c) && ValidUsage(c, usage, horizon)
    ensures LaidOver(LostRows(device, member, c, runs, usage), LostPosts(member, c, runs, usage), device, member, c)
  {
    hide InTapes, Posted, Rows, Tapes, TapesAgain, LaidOver, RunEvents, PostAll, ValidRuns, ValidUsage;
    var rows, tapes := Rows(device, member, c, runs), Tapes(member, c, runs);
    var events, again := RunEvents(member, c, map[], usage), TapesAgain(tapes, usage);
    RunsLaid(device, member, c, runs);
    RunsFaithful(device, member, c, runs);
    RunsSound(member, c, runs);
    AgainSound(member, c, tapes, usage, horizon);
    RunEventsGood(member, c, map[], usage, horizon);
    forall e ensures e in events ==> Posted(e, member, c, Post(again, None))
             ensures Posted(e, member, c, Post(again, None)) ==> e in events || Held(rows, device, e)
    {
      PostedWhole(e, member, c, again);
      AgainEvents(e, member, c, tapes, usage, horizon);
    }
    Lay(rows, [Post(tapes, None)], Post(again, None), device, member, c, events);
    assert [Post(tapes, None)] + [Post(again, None)] == LostPosts(member, c, runs, usage);
  }

  lemma LostShort(member: string, c: Calendar, runs: seq<Run>, usage: seq<DayUsage>)
    requires ShortTapes(c, Tapes(member, c, runs)) && ShortTapes(c, TapesAgain(Tapes(member, c, runs), usage))
    ensures ShortPosts(c, LostPosts(member, c, runs, usage)) && Uncut(LostPosts(member, c, runs, usage))
  {
    hide ShortTapes;
  }

  /** After any history of runs the state is lost, and a run scrapes any totals at all. On any day every
      second is credited, and every stretch reported, as on the tape of that run if and only if the new
      tape is kept over the stored one; days the run did not scrape stay as they are. */
  lemma LostStateExact(device: int, member: string, c: Calendar, runs: seq<Run>, usage: seq<DayUsage>, horizon: int,
                       day: int, now: int, maxGap: int)
    requires ValidRuns(c, runs) && ValidSetting(member, c) && ValidUsage(c, usage, horizon) && c.Has(day)
    requires ShortTapes(c, Tapes(member, c, runs)) && ShortTapes(c, TapesAgain(Tapes(member, c, runs), usage))
    requires GapCovers(maxGap) && Whole(maxGap) && (now == ZERO_TIME || now >= c.midnight(day + 1) * NS_PER_SECOND)
    ensures var all := LostRows(device, member, c, runs, usage);
            var stored, laid := TapeOn(Tapes(member, c, runs), day),
                                TapeOn(TapesAgain(Tapes(member, c, runs), usage), day);
            && (Credited(all, c, day, laid, maxGap) <==> Keeps(Layer(stored, true), laid))
            && (Reported(all, c, day, laid, now, maxGap) <==> Keeps(Layer(stored, true), laid))
            && (!ScrapedOn(usage, day) ==> laid == stored)
  {
    hide ShortTapes, ShortPosts, Credited, Reported, Keeps, KeptOn, ValidRuns, ValidUsage, LaidOver, LitOn;
    var tapes := Tapes(member, c, runs);
    var again, p := TapesAgain(tapes, usage), Post(tapes, None);
    LostLaid(device, member, c, runs, usage, horizon);
    LostShort(member, c, runs, usage);
    assert [p] + [Post(again, None)] == LostPosts(member, c, runs, usage);
    CreditedIffKept(LostRows(device, member, c, runs, usage), [p], again, device, member, c, day, maxGap);
    ReportedIffKept(LostRows(device, member, c, runs, usage), [p], again, device, member, c, day, now, maxGap);
    KeptOnWhole(p, again, c, day, maxGap);
    LaidDays(usage, day);
  }

  /** The day's report after a run without state: every app gets its merged seconds. These are the totals
      the run scraped if and only if the merged totals agree, as they do where the new tape is kept; and
      where no total has shrunk, those are what the report would be had nothing been lost. */
  lemma LostStateReport(report: Report, device: int, member: string, c: Calendar, runs: seq<Run>, usage: seq<DayUsage>,
                        today: int, day: int, now: int, maxGap: int)
    requires ValidRuns(c, runs) && ValidSetting(member, c) && ValidUsage(c, usage, today - KEEP_DAYS)
    requires ShortTapes(c, Tapes(member, c, runs)) && ShortTapes(c, TapesAgain(Tapes(member, c, runs), usage))
    requires ScrapedOn(usage, day) && c.Has(day)
    requires GapCovers(maxGap) && Whole(maxGap) && (now == ZERO_TIME || now >= c.midnight(day + 1) * NS_PER_SECOND)
    requires IsReport(report, LostRows(device, member, c, runs, usage),
                      c.midnight(day) * NS_PER_SECOND, c.midnight(day + 1) * NS_PER_SECOND, now, maxGap)
    ensures var stored, laid := TapeOn(Tapes(member, c, runs), day),
                                TapeOn(TapesAgain(Tapes(member, c, runs), usage), day);
            var layers, length := [Layer(stored, true), Layer(laid, true)], c.midnight(day + 1) - c.midnight(day);
            && length >= 0
            && (forall app :: Get(report.byProcess, app) == LitIn(layers, 0, length, Process(app), maxGap))
            && ((forall app :: Get(report.byProcess, app) == ScrapedTotal(usage, day, app))
                <==> SameTotals(layers, laid, length, maxGap))
            && (Keeps(Layer(stored, true), laid) ==> SameTotals(layers, laid, length, maxGap))
    ensures Grows(runs, usage, day) ==>
              forall app :: ScrapedTotal(usage, day, app) == Peak(runs + [Run(today, usage)], day, app)
  {
    hide ShortTapes, Keeps, KeptOver, ValidRuns, ValidUsage, Usage, Peak, Grows, LaidOver, LitIn, TapesAgain, PeakOn;
    hide RunTapes, Total;
    var tapes := Tapes(member, c, runs);
    var again := TapesAgain(tapes, usage);
    var stored, laid, length := TapeOn(tapes, day), TapeOn(again, day), c.midnight(day + 1) - c.midnight(day);
    var layers := [Layer(stored, true), Layer(laid, true)];
    LostShort(member, c, runs, usage);
    AgainFits(c, again, day);
    forall app ensures Get(report.byProcess, app) == LitIn(layers, 0, length, Process(app), maxGap) {
      LostMerged(device, member, c, runs, usage, today - KEEP_DAYS, day, now, maxGap, Process(app));
    }
    forall app ensures Total(laid, app) == ScrapedTotal(usage, day, app) {
      AgainTotals(member, c, tapes, usage, today - KEEP_DAYS, day, app);
    }
    if Keeps(Layer(stored, true), laid) {
      KeptOverOne(Layer(stored, true), laid);
      KeptTotals([Layer(stored, true)], laid, length, maxGap);
      assert [Layer(stored, true)] + [Layer(laid, true)] == layers;
    }
    if Grows(runs, usage, day) {
      forall app ensures ScrapedTotal(usage, day, app) == Peak(runs + [Run(today, usage)], day, app) {
        GrownPeak(member, c, runs, usage, today, day, app);
      }
    }
  }

  lemma AgainFits(c: Calendar, tapes: map<int, seq<Append>>, day: int)
    requires ShortTapes(c, tapes) && c.Has(day)
    ensures 0 <= Length(TapeOn(tapes, day)) <= c.midnight(day + 1) - c.midnight(day)
  {
  }

  lemma LostMerged(device: int, member: string, c: Calendar, runs: seq<Run>, usage: seq<DayUsage>, horizon: int,
                   day: int, now: int, maxGap: int, who: Who)
    requires ValidRuns(c, runs) && ValidSetting(member, c) && ValidUsage(c, usage, horizon)
    requires ShortTapes(c, Tapes(member, c, runs)) && ShortTapes(c, TapesAgain(Tapes(member, c, runs), usage))
    requires GapCovers(maxGap) && Whole(maxGap) && (now == ZERO_TIME || now >= c.midnight(day + 1) * NS_PER_SECOND)
    requires c.Has(day) && c.midnight(day) <= c.midnight(day + 1)
    ensures var layers := [Layer(TapeOn(Tapes(member, c, runs), day), true),
                           Layer(TapeOn(TapesAgain(Tapes(member, c, runs), usage), day), true)];
            Usage(LostRows(device, member, c, runs, usage), c.midnight(day) * NS_PER_SECOND,
                  c.midnight(day + 1) * NS_PER_SECOND, now, maxGap, who, NS_PER_SECOND)
            == LitIn(layers, 0, c.midnight(day + 1) - c.midnight(day), who, maxGap)
  {
    hide ShortTapes, ShortPosts, ValidRuns, ValidUsage, Usage, LaidOver, LitIn, TapesAgain, Tapes, LostRows, Uncut;
    hide ValidSetting, SomethingOn;
    var posts := LostPosts(member, c, runs, usage);
    LostLaid(device, member, c, runs, usage, horizon);
    LostShort(member, c, runs, usage);
    var length := c.midnight(day + 1) - c.midnight(day);
    MergedReport(LostRows(device, member, c, runs, usage), posts, device, member, c, day, 0, length, now, maxGap, who);
    assert c.midnight(day) + length == c.midnight(day + 1) && c.midnight(day) + 0 == c.midnight(day);
    LaidCalendar(LostRows(device, member, c, runs, usage), posts, device, member, c);
    CountUncut(posts, c, day, 0, length, who, maxGap);
    assert LayersOn(posts, day) == [LayerOn(posts[0], day), LayerOn(posts[1], day)];
  }

  lemma GrownPeak(member: string, c: Calendar, runs: seq<Run>, usage: seq<DayUsage>, today: int, day: int, app: string)
    requires Grows(runs, usage, day)
    ensures Peak(runs + [Run(today, usage)], day, app) == ScrapedTotal(usage, day, app)
  {
    OneMoreRun(member, c, runs, Run(today, usage), day, app);
    PeakOnFrom(usage, day, app, Peak(runs, day, app));
    assert Peak(runs, day, app) <= ScrapedTotal(usage, day, app);
  }

  // ---- a run dies before it is saved ------------------------------------------

  /** What the server holds after a run that died when n of its events were posted. */
  ghost function DiedRows(device: int, member: string, c: Calendar, runs: seq<Run>, usage: seq<DayUsage>,
                          n: nat): seq<Event> {
    var events := RunEvents(member, c, Saved(member, c, runs), usage);
    PostAll(Rows(device, member, c, runs), device, MemberName(member), events[..Min(n, |events|)])
  }

  ghost function DiedPost(member: string, c: Calendar, runs: seq<Run>, usage: seq<DayUsage>, n: nat): Post {
    CutTapes(member, c, Tapes(member, c, runs), Saved(member, c, runs), usage, n)
  }

  lemma DiedLaid(device: int, member: string, c: Calendar, runs: seq<Run>, usage: seq<DayUsage>, n: nat, horizon: int)
    requires ValidRuns(c, runs) && ValidSetting(member, c) && ValidUsage(c, usage, horizon)
    requires |runs| > 0 ==> runs[|runs| - 1].today - KEEP_DAYS <= horizon
    ensures LaidOver(DiedRows(device, member, c, runs, usage, n), [DiedPost(member, c, runs, usage, n)],
                     device, member, c)
    ensures Rows(device, member, c, runs) <= DiedRows(device, member, c, runs, usage, n)
  {
    hide InTapes, Posted, Rows, Tapes, Saved, LaidOver, RunEvents, PostAll, ValidRuns, ValidUsage, CutTapes, Tracks;
    hide SoundPost;
    var rows, tapes, saved := Rows(device, member, c, runs), Tapes(member, c, runs), Saved(member, c, runs);
    var events, p := RunEvents(member, c, saved, usage), DiedPost(member, c, runs, usage, n);
    var m := Min(n, |events|);
    RunsLaid(device, member, c, runs);
    RunsFaithful(device, member, c, runs);
    RunsTrack(member, c, runs, horizon);
    RunEventsGood(member, c, saved, usage, horizon);
    EventsPart(events, m);
    CutEvents(member, c, tapes, saved, usage, n, horizon);
    Lay(rows, [Post(tapes, None)], p, device, member, c, events[..m]);
    var died := DiedRows(device, member, c, runs, usage, n);
    assert [Post(tapes, None)] + [p] == [Post(tapes, None), p];
    forall e | Posted(e, member, c, Post(tapes, None)) ensures Posted(e, member, c, p) {
      PostedWhole(e, member, c, tapes);
    }
    OnlyTheLast(died, Post(tapes, None), p, device, member, c);
  }

  /** A post that contains the one before it hides that one. */
  lemma OnlyTheLast(rows: seq<Event>, p: Post, q: Post, device: int, member: string, c: Calendar)
    requires LaidOver(rows, [p, q], device, member, c)
    requires forall e :: Posted(e, member, c, p) ==> Posted(e, member, c, q)
    ensures LaidOver(rows, [q], device, member, c)
  {
    hide Posted, Decided, SoundPost;
    forall row | row in rows ensures RowOfPost(row, device, member, c, q) {
      var i :| 0 <= i < |rows| && rows[i] == row;
      var k :| 0 <= k < 2 && RowOfPost(rows[i], device, member, c, [p, q][k]);
      var e :| Posted(e, member, c, [p, q][k]) && RowFrom(row, device, e);
      assert Posted(e, member, c, q);
    }
    assert [p, q][1] == q;
    OnePost(rows, q, device, member, c);
  }

  /** What the server holds when the next run, from the same state, has then posted everything. */
  ghost function RerunRows(device: int, member: string, c: Calendar, runs: seq<Run>, usage: seq<DayUsage>, n: nat,
                           next: seq<DayUsage>): seq<Event> {
    PostAll(DiedRows(device, member, c, runs, usage, n), device, MemberName(member),
            RunEvents(member, c, Saved(member, c, runs), next))
  }

  ghost function RerunTapes(member: string, c: Calendar, runs: seq<Run>, next: seq<DayUsage>): map<int, seq<Append>> {
    RunTapes(Tapes(member, c, runs), Saved(member, c, runs), next)
  }

  lemma RerunLaid(device: int, member: string, c: Calendar, runs: seq<Run>, usage: seq<DayUsage>, n: nat,
                  next: seq<DayUsage>, horizon: int)
    requires ValidRuns(c, runs) && ValidSetting(member, c) && ValidUsage(c, usage, horizon)
             && ValidUsage(c, next, horizon)
    requires |runs| > 0 ==> runs[|runs| - 1].today - KEEP_DAYS <= horizon
    ensures LaidOver(RerunRows(device, member, c, runs, usage, n, next),
                     [DiedPost(member, c, runs, usage, n), Post(RerunTapes(member, c, runs, next), None)],
                     device, member, c)
  {
    hide InTapes, Posted, Rows, Tapes, Saved, LaidOver, RunEvents, PostAll, ValidRuns, ValidUsage, Matches;
    hide DiedRows, DiedPost, RunTapes;
    var tapes, saved := Tapes(member, c, runs), Saved(member, c, runs);
    var died, p := DiedRows(device, member, c, runs, usage, n), DiedPost(member, c, runs, usage, n);
    var events, laid := RunEvents(member, c, saved, next), RerunTapes(member, c, runs, next);
    DiedLaid(device, member, c, runs, usage, n, horizon);
    RunsFaithful(device, member, c, runs);
    RunsTrack(member, c, runs, horizon);
    RunTracks(member, c, saved, tapes, next, horizon);
    RunOnDays(c, saved, tapes, next, horizon);
    RunEventsGood(member, c, saved, next, horizon);
    forall e ensures e in events ==> Posted(e, member, c, Post(laid, None))
             ensures Posted(e, member, c, Post(laid, None)) ==> e in events || Held(died, device, e)
    {
      PostedWhole(e, member, c, laid);
      if InTapes(e, member, c, tapes) {
        HeldGrows(Rows(device, member, c, runs), died, device, e);
      }
    }
    assert [p] + [Post(laid, None)] == [p, Post(laid, None)];
    Lay(died, [p], Post(laid, None), device, member, c, events);
  }

  /** A run dies after any number of posted events, in the middle of a tape or not, before it has written
      the state; the next run, from the same state, scrapes any totals and posts them all. Every second of
      a day is credited, and every stretch reported, as on the tapes of that run if and only if they are
      kept over what the dead run had posted or, on a day without a tape, nothing that the dead run cut off
      runs on into it. */
  lemma CrashExact(device: int, member: string, c: Calendar, runs: seq<Run>, usage: seq<DayUsage>, n: nat,
                   next: seq<DayUsage>, horizon: int, day: int, now: int, maxGap: int)
    requires ValidRuns(c, runs) && ValidSetting(member, c) && c.Has(day)
    requires ValidUsage(c, usage, horizon) && ValidUsage(c, next, horizon)
    requires |runs| > 0 ==> runs[|runs| - 1].today - KEEP_DAYS <= horizon
    requires ShortPosts(c, [DiedPost(member, c, runs, usage, n), Post(RerunTapes(member, c, runs, next), None)])
    requires GapCovers(maxGap) && Whole(maxGap) && (now == ZERO_TIME || now >= c.midnight(day + 1) * NS_PER_SECOND)
    ensures var all, died := RerunRows(device, member, c, runs, usage, n, next), DiedPost(member, c, runs, usage, n);
            var tapes := RerunTapes(member, c, runs, next);
            var stored, laid := LayerOn(died, day), TapeOn(tapes, day);
            var kept := if |stored.appends| > 0 || |laid| > 0 then Keeps(stored, laid)
                        else !LitOn([died, Post(tapes, None)], c, day, 0, Everyone, maxGap);
            && (Credited(all, c, day, laid, maxGap) <==> kept)
            && (Reported(all, c, day, laid, now, maxGap) <==> kept)
  {
    hide ShortPosts, Credited, Reported, Keeps, KeptOn, ValidRuns, ValidUsage, LaidOver, RerunTapes, DiedPost, LitOn;
    var all, died := RerunRows(device, member, c, runs, usage, n, next), DiedPost(member, c, runs, usage, n);
    var tapes := RerunTapes(member, c, runs, next);
    RerunLaid(device, member, c, runs, usage, n, next, horizon);
    assert [died] + [Post(tapes, None)] == [died, Post(tapes, None)];
    CreditedIffKept(all, [died], tapes, device, member, c, day, maxGap);
    ReportedIffKept(all, [died], tapes, device, member, c, day, now, maxGap);
    KeptOnOne(died, tapes, c, day, maxGap);
  }

  // ---- what the condition comes to --------------------------------------------

  /** Appends that only follow the stored ones are always harmless. */
  lemma PrefixKeeps(a: seq<Append>, b: seq<Append>)
    requires ValidAppends(b) && a <= b
    ensures Keeps(Layer(a, true), b)
  {
    assert b == a + b[|a|..];
    forall o: nat | o < Length(a) ensures AppAt(a, 0, o) == AppAt(b, 0, o) {
      AppAtConcat(a, b[|a|..], 0, o);
    }
    if |a| < |b| {
      assert b[|a|] in b;
      BeatAtConcat(a, b[|a|..], 0);
    } else {
      assert a == b;
    }
  }

  lemma {:induction false} AppAtConcat(a: seq<Append>, more: seq<Append>, off: nat, o: nat)
    requires off <= o < off + Length(a)
    ensures AppAt(a + more, off, o) == AppAt(a, off, o)
  {
    assert (a + more)[0] == a[0] && (a + more)[1..] == a[1..] + more;
    if o >= off + a[0].delta {
      AppAtConcat(a[1..], more, off + a[0].delta, o);
    }
  }

  lemma {:induction false} BeatAtConcat(a: seq<Append>, more: seq<Append>, off: nat)
    requires |more| > 0 && more[0].delta > 0
    ensures BeatAt(a + more, off, off + Length(a))
  {
    if |a| == 0 {
      assert a + more == more;
    } else {
      assert (a + more)[0] == a[0] && (a + more)[1..] == a[1..] + more;
      BeatAtConcat(a[1..], more, off + a[0].delta);
    }
  }

  ghost predicate OnlyApp(a: seq<Append>, app: string) {
    forall i :: 0 <= i < |a| ==> a[i].app == app
  }

  /** On a day with a single app, however often it grew, the new tape is kept exactly when the stored one
      was cut off, nothing was stored, nothing has been added since, or what was stored fills whole
      heartbeats. */
  lemma SingleApp(a: seq<Append>, ended: bool, app: string, n: nat)
    requires OnlyApp(a, app) && Length(a) <= n
    ensures Keeps(Layer(a, ended), [Append(app, n)])
       <==> !ended || Length(a) == 0 || Length(a) == n || Length(a) % HEARTBEAT_SECONDS == 0
  {
    var b := [Append(app, n)];
    assert b[1..] == [] && Length(b) == n;
    forall o: nat | o < Length(a) ensures AppAt(a, 0, o) == AppAt(b, 0, o) {
      OnlyAppAt(a, app, 0, o);
    }
    assert BeatAt(b, 0, Length(a)) <==> Length(a) < n && Length(a) % HEARTBEAT_SECONDS == 0;
  }

  lemma {:induction false} OnlyAppAt(a: seq<Append>, app: string, off: nat, o: nat)
    requires OnlyApp(a, app) && off <= o < off + Length(a)
    ensures AppAt(a, off, o) == Some(app)
  {
    if o >= off + a[0].delta {
      OnlyAppAt(a[1..], app, off + a[0].delta, o);
    }
  }

  /** With every name scraped once, the events stored for a day are all on the tape of a run without
      state if and only if the stored appends are its first appends. */
  lemma StoredOnRun(member: string, c: Calendar, runs: seq<Run>, apps: seq<Scraped>, day: int)
    requires ValidRuns(c, runs) && ValidSetting(member, c) && ValidScrape(apps) && DistinctApps(apps)
    requires forall app :: Peak(runs, day, app) <= PeakIn(apps, app, 0)
    ensures AllOn(Reel(member, c, day), TapeOn(Tapes(member, c, runs), day), Deltas(map[], apps), 0)
       <==> TapeOn(Tapes(member, c, runs), day) <= Deltas(map[], apps)
  {
    var stored, laid := TapeOn(Tapes(member, c, runs), day), Deltas(map[], apps);
    FreshDeltas(apps);
    DeltasValid(map[], apps);
    RunsSound(member, c, runs);
    forall app ensures Total(stored, app) <= Total(laid, app) {
      TapeTotals(member, c, runs, day, app);
      LaidTotal(apps, app);
      assert Peak(runs, day, app) <= PeakIn(apps, app, 0);
    }
    StoredOnFresh(Reel(member, c, day), stored, laid, 0);
  }

  lemma LaidTotal(apps: seq<Scraped>, app: string)
    requires ValidScrape(apps)
    ensures Total(Deltas(map[], apps), app) == PeakIn(apps, app, 0)
  {
    GrowMatches(map[], [], apps);
    GrowPeak(map[], apps, app);
    assert [] + Deltas(map[], apps) == Deltas(map[], apps);
  }

  /** The tapes on which attribution was seen to change fail the condition. */
  lemma GrownNotKept(p: string, q: string)
    requires p != q
    ensures !Keeps(Layer(Grown(p, q), true), Again(p, q))
  {
    var a, b := Grown(p, q), Again(p, q);
    assert a[0] == Append(p, 2) && a[1..] == [Append(q, 1)] + ([Append(p, 1)] + []) && a[1..][0] == Append(q, 1);
    assert b[0] == Append(p, 3) && b[1..] == [Append(q, 1)] + [] && b[1..][0] == Append(q, 1) && b[1..][1..] == [];
    assert BeatAt(a[1..], 2, 2) && BeatAt(a, 0, 2) && AppAt(a, 0, 2) == AppAt(a[1..], 2, 2) == Some(q);
    assert !BeatAt(b[1..][1..], 4, 2) && !BeatAt(b[1..], 3, 2) && !BeatAt(b, 0, 2) && AppAt(b, 0, 2) == Some(p);
    assert Length(a) > 2 by {
      assert Length(a) == 2 + Length(a[1..]) && Length(a[1..]) == 1 + Length(a[1..][1..]);
      assert a[1..][1..] == [Append(p, 1)] + [] && a[1..][1..][0] == Append(p, 1);
    }
  }

  // ---- two witnesses ----------------------------------------------------------

  lemma OneAppDeltas(p: string, x: nat)
    requires x > 0
    ensures Deltas(map[], [Scraped(p, x)]) == [Append(p, x)]
  {
    var apps := [Scraped(p, x)];
    assert apps[..|apps| - 1] == [] && Deltas(map[], []) == [] && Grow(map[], []) == map[];
  }

  lemma OneDayTape(member: string, c: Calendar, day: int, p: string, x: nat)
    requires x > 0
    ensures TapeOn(RerunTapes(member, c, [], [DayUsage(day, [Scraped(p, x)])]), day) == [Append(p, x)]
  {
    var usage := [DayUsage(day, [Scraped(p, x)])];
    OneAppDeltas(p, x);
    assert usage[..|usage| - 1] == [] && RunSent(map[], []) == map[] && RunTapes(map[], map[], []) == map[];
    assert [] + [Append(p, x)] == [Append(p, x)];
  }

  /** The first run posts everything about one app and dies before it is saved; the app grows, and the next
      run posts the grown total. The day comes out right if and only if the first total fills whole
      heartbeats. */
  lemma GrownAfterCrash(device: int, member: string, c: Calendar, p: string, x: nat, y: nat, n: nat, day: int,
                        now: int, maxGap: int)
    requires ValidSetting(member, c) && c.Has(day) && ValidApp(p) && 0 < x < y
    requires n >= |RunEvents(member, c, map[], [DayUsage(day, [Scraped(p, x)])])|
    requires var posts := [DiedPost(member, c, [], [DayUsage(day, [Scraped(p, x)])], n),
                           Post(RerunTapes(member, c, [], [DayUsage(day, [Scraped(p, y)])]), None)];
             ShortPosts(c, posts)
    requires GapCovers(maxGap) && Whole(maxGap) && (now == ZERO_TIME || now >= c.midnight(day + 1) * NS_PER_SECOND)
    ensures Reported(RerunRows(device, member, c, [], [DayUsage(day, [Scraped(p, x)])], n,
                               [DayUsage(day, [Scraped(p, y)])]),
                     c, day, [Append(p, y)], now, maxGap)
       <==> x % HEARTBEAT_SECONDS == 0
  {
    hide RerunTapes, RerunRows, ShortPosts, Reported, Credited, RunEvents, CutTapes;
    var usage, next := [DayUsage(day, [Scraped(p, x)])], [DayUsage(day, [Scraped(p, y)])];
    CutNothing(member, c, map[], map[], usage, n);
    assert DiedPost(member, c, [], usage, n) == Post(RerunTapes(member, c, [], usage), None) by {
      WholeRun(member, c, usage, n);
    }
    OneDayTape(member, c, day, p, x);
    OneDayTape(member, c, day, p, y);
    CrashExact(device, member, c, [], usage, n, next, day, day, now, maxGap);
    var a := [Append(p, x)];
    assert a[1..] == [] && Length(a) == x;
    SingleApp(a, true, p, y);
  }

  lemma WholeRun(member: string, c: Calendar, usage: seq<DayUsage>, n: nat)
    requires CutTapes(member, c, map[], map[], usage, n) == Post(RunTapes(map[], map[], usage), None)
    ensures DiedPost(member, c, [], usage, n) == Post(RerunTapes(member, c, [], usage), None)
  {
    hide CutTapes, RunTapes;
  }

  /** Past the end of all layers nothing is credited. */
  lemma {:induction false} MergedOver(layers: seq<Layer>, top: nat, x: nat)
    requires EndsAt(layers, top) && x >= top && forall k :: 0 <= k < |layers| ==> Length(layers[k].appends) <= top
    ensures Merged(layers, x).None?
  {
    hide BeatOf, EndsAt, BeatAt;
    BeatOfRules(layers, x);
    if k :| 0 <= k < |layers| && BeatAt(layers[k].appends, 0, x) {
      BeatShows(layers[k].appends, 0, x);
    }
    if x > top {
      MergedOver(layers, top, x - 1);
    }
  }

  lemma {:induction false} NothingOver(layers: seq<Layer>, top: nat, x: nat, y: nat, who: Who, maxGap: int)
    requires EndsAt(layers, top) && x >= top && forall k :: 0 <= k < |layers| ==> Length(layers[k].appends) <= top
    ensures LitIn(layers, x, y, who, maxGap) == 0
    decreases y - x
  {
    hide EndsAt, Merged;
    if x < y {
      MergedOver(layers, top, x);
      NothingOver(layers, top, x + 1, y, who, maxGap);
    }
  }

  function Alternating(p: string, q: string): seq<Append> { [Append(p, 2), Append(q, 2), Append(p, 1), Append(q, 1)] }

  function Summed(p: string, q: string): seq<Append> { [Append(p, 3), Append(q, 3)] }

  lemma AlternatingBeats(p: string, q: string, o: nat)
    ensures BeatAt(Alternating(p, q), 0, o) <==> o in {0, 2, 4, 5}
    ensures Length(Alternating(p, q)) == 6
    ensures AppAt(Alternating(p, q), 0, 0) == AppAt(Alternating(p, q), 0, 4) == Some(p)
    ensures AppAt(Alternating(p, q), 0, 2) == AppAt(Alternating(p, q), 0, 5) == Some(q)
  {
    var a := Alternating(p, q);
    assert a[1..] == [Append(q, 2), Append(p, 1), Append(q, 1)] && a[1..][1..] == [Append(p, 1), Append(q, 1)];
    assert a[1..][1..][1..] == [Append(q, 1)] && a[1..][1..][1..][1..] == [];
    assert BeatAt(a[1..][1..][1..], 5, o) <==> o == 5;
    assert BeatAt(a[1..][1..], 4, o) <==> o in {4, 5};
    assert BeatAt(a[1..], 2, o) <==> o in {2, 4, 5};
    assert AppAt(a[1..][1..][1..], 5, 5) == Some(q) && AppAt(a[1..][1..], 4, 5) == Some(q);
    assert AppAt(a[1..][1..], 4, 4) == Some(p);
    assert Length(a[1..][1..][1..]) == 1 && Length(a[1..][1..]) == 1 + Length(a[1..][1..][1..]);
    assert Length(a[1..]) == 2 + Length(a[1..][1..]);
  }

  lemma SummedBeats(p: string, q: string, o: nat)
    ensures BeatAt(Summed(p, q), 0, o) <==> o in {0, 3}
    ensures Length(Summed(p, q)) == 6
    ensures AppAt(Summed(p, q), 0, 0) == AppAt(Summed(p, q), 0, 2) == Some(p) && AppAt(Summed(p, q), 0, 3) == Some(q)
    ensures forall app :: Total(Summed(p, q), app) == (if app == p then 3 else 0) + (if app == q then 3 else 0)
  {
    var b := Summed(p, q);
    assert b[1..] == [Append(q, 3)] && b[1..][1..] == [];
    assert BeatAt(b[1..], 3, o) <==> o == 3;
    assert AppAt(b[1..], 3, 3) == Some(q) && Length(b[1..]) == 3;
    assert forall app :: Total(b[1..], app) == if app == q then 3 else 0;
  }

  lemma AlternatingMerged(p: string, q: string)
    ensures var layers := [Layer(Alternating(p, q), true), Layer(Summed(p, q), true)];
            && Merged(layers, 0) == Merged(layers, 1) == Some(Mark(p, 0)) && Merged(layers, 2) == Some(Mark(q, 2))
            && Merged(layers, 3) == Some(Mark(q, 3)) && Merged(layers, 4) == Some(Mark(p, 4))
            && Merged(layers, 5) == Some(Mark(q, 5)) && EndsAt(layers, 6)
  {
    hide BeatOf, BeatAt, AppAt, Length;
    var a, b := Alternating(p, q), Summed(p, q);
    var layers := [Layer(a, true), Layer(b, true)];
    forall o: nat | o < 6
      ensures BeatOf(layers, o) == if o in {0, 4} then Some(p) else if o in {2, 3, 5} then Some(q) else None
      ensures !EndsAt(layers, o)
    {
      OverOne(Layer(a, true), b, o);
      AlternatingBeats(p, q, o);
      SummedBeats(p, q, o);
    }
    AlternatingBeats(p, q, 6);
    assert layers[0].ended && 0 < Length(layers[0].appends) == 6;
    assert Merged(layers, 0) == Some(Mark(p, 0));
  }

  /** The day's totals can come out right where some seconds do not. */
  lemma TotalsWithoutSeconds(p: string, q: string, length: nat, maxGap: int)
    requires p != q && length >= 6 && GapCovers(maxGap)
    ensures !Keeps(Layer(Alternating(p, q), true), Summed(p, q))
    ensures SameTotals([Layer(Alternating(p, q), true), Layer(Summed(p, q), true)], Summed(p, q), length, maxGap)
  {
    hide BeatAt, AppAt, Length, Merged, EndsAt;
    var a, b := Alternating(p, q), Summed(p, q);
    var layers := [Layer(a, true), Layer(b, true)];
    AlternatingBeats(p, q, 2);
    SummedBeats(p, q, 2);
    AlternatingMerged(p, q);
    forall app ensures LitIn(layers, 0, length, Process(app), maxGap) == Total(b, app) {
      SixSeconds(layers, p, q, length, app, maxGap);
    }
  }

  lemma SixSeconds(layers: seq<Layer>, p: string, q: string, length: nat, app: string, maxGap: int)
    requires p != q && length >= 6 && GapCovers(maxGap)
    requires EndsAt(layers, 6) && forall k :: 0 <= k < |layers| ==> Length(layers[k].appends) <= 6
    requires Merged(layers, 0) == Merged(layers, 1) == Some(Mark(p, 0)) && Merged(layers, 2) == Some(Mark(q, 2))
    requires Merged(layers, 3) == Some(Mark(q, 3)) && Merged(layers, 4) == Some(Mark(p, 4))
    requires Merged(layers, 5) == Some(Mark(q, 5))
    ensures LitIn(layers, 0, length, Process(app), maxGap) == (if app == p then 3 else 0) + (if app == q then 3 else 0)
  {
    hide Merged, EndsAt, Length;
    var who := Process(app);
    NothingOver(layers, 6, 6, length, who, maxGap);
    assert LitIn(layers, 5, length, who, maxGap) == if app == q then 1 else 0;
    assert LitIn(layers, 4, length, who, maxGap) == (if app == p then 1 else 0) + if app == q then 1 else 0;
    assert LitIn(layers, 3, length, who, maxGap) == (if app == p then 1 else 0) + if app == q then 2 else 0;
    assert LitIn(layers, 2, length, who, maxGap) == (if app == p then 1 else 0) + if app == q then 3 else 0;
    assert LitIn(layers, 1, length, who, maxGap) == (if app == p then 2 else 0) + if app == q then 3 else 0;
  }
}
