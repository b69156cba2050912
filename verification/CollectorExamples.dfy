/** The collector's results at work: a whole collection by method, and concrete histories in a real
    calendar for which every hypothesis holds. */
module CollectorExamples {
  import opened Observations
  import opened Reports
  import opened UsageLaws
  import opened EventStore
  import opened Intake
  import opened Names
  import opened Tape
  import opened Collector
  import opened TapeUsage
  import opened CollectorRuns
  import opened LostState
  import opened Layers
  import opened LaidTables
  import opened ResentRuns
  import opened LostRuns
  import opened UtcCalendar

  // ---- from scraping to the report --------------------------------------------

  lemma RunsPrefix(c: Calendar, runs: seq<Run>, i: nat)
    requires ValidRuns(c, runs) && i < |runs|
    ensures ValidRuns(c, runs[..i]) && ValidUsage(c, runs[i].usage, runs[i].today - KEEP_DAYS)
  {
  }

  lemma OneRunFurther(device: int, member: string, c: Calendar, runs: seq<Run>, i: nat)
    requires i < |runs|
    ensures Rows(device, member, c, runs[..i + 1])
         == PostAll(Rows(device, member, c, runs[..i]), device, MemberName(member),
                    RunEvents(member, c, Saved(member, c, runs[..i]), runs[i].usage))
    ensures Saved(member, c, runs[..i + 1]) == SavedAfter(member, c, Saved(member, c, runs[..i]), runs[i])
  {
    assert runs[..i + 1][..i] == runs[..i] && runs[..i + 1][i] == runs[i];
  }

  /** Any runs of the collector against an empty server, and the report on a day: every app has the running
      maximum of its scraped totals. */
  method CollectAndReport(device: int, member: string, c: Calendar, runs: seq<Run>, day: int, maxGap: int)
    returns (report: Report)
    requires ValidRuns(c, runs) && ValidSetting(member, c) && ShortTapes(c, Tapes(member, c, runs)) && c.Has(day)
    requires GapCovers(maxGap) && Whole(maxGap)
    ensures forall app :: Get(report.byProcess, app) == Peak(runs, day, app)
    ensures report.totalSeconds == Length(TapeOn(Tapes(member, c, runs), day))
  {
    hide ValidSetting, ShortTapes, ValidUsage, RunEvents, PostAll, Rows, Saved, SavedAfter, Tapes, IsReport, Peak;
    var server := new Store();
    var collector := new MemberCollector();
    assert runs[..0] == [];
    NoRuns(device, member, c);
    for i := 0 to |runs|
      invariant server.Valid() && fresh(server) && fresh(collector)
      invariant server.rows == Rows(device, member, c, runs[..i]) && collector.saved == Saved(member, c, runs[..i])
    {
      RunsPrefix(c, runs, i);
      OneRunFurther(device, member, c, runs, i);
      RunEventsGood(member, c, collector.saved, runs[i].usage, runs[i].today - KEEP_DAYS);
      var ok := collector.RunMember(server, device, member, c, runs[i]);
    }
    assert runs[..|runs|] == runs;
    var start, end := c.midnight(day) * NS_PER_SECOND, c.midnight(day + 1) * NS_PER_SECOND;
    var events := server.ReportEvents(device, start, end);
    report := CalculateUsage(events, start, end, ZERO_TIME, maxGap);
    OwnDevice(device, member, c, runs);
    FetchedReport(report, server.rows, start, end, events, start, end, ZERO_TIME, maxGap);
    ScrapedTotalsReported(report, device, member, c, runs, day, ZERO_TIME, maxGap);
  }

  /** All rows are those of the member's device. */
  lemma OwnDevice(device: int, member: string, c: Calendar, runs: seq<Run>)
    requires ValidRuns(c, runs) && ValidSetting(member, c)
    ensures DeviceRows(Rows(device, member, c, runs), device) == Rows(device, member, c, runs)
  {
    hide ValidRuns, ValidSetting, Rows, Tapes, InTapes;
    var rows, tapes := Rows(device, member, c, runs), Tapes(member, c, runs);
    RunsFaithful(device, member, c, runs);
    forall x | x in rows ensures x.device == device {
      assert Explained(x, device, member, c, tapes);
      var e :| InTapes(e, member, c, tapes) && RowFrom(x, device, e);
    }
    AllOfOneDevice(rows, device);
  }

  lemma NoRuns(device: int, member: string, c: Calendar)
    ensures Rows(device, member, c, []) == [] && Saved(member, c, []) == map[]
  {
  }

  // ---- one day in Coordinated Universal Time ----------------------------------

  /** 9 July 2026. */
  const TODAY: int := 20_643
  const SAFARI: string := "Safari"
  const YOUTUBE: string := "YouTube"
  const GAP: int := 300 * NS_PER_SECOND

  function TwoRuns(): seq<Run> { [First(TODAY, SAFARI, YOUTUBE), Later(TODAY, SAFARI, YOUTUBE)] }

  function Start(): int { UTC.midnight(TODAY) * NS_PER_SECOND }

  function End(): int { UTC.midnight(TODAY + 1) * NS_PER_SECOND }

  lemma ShortDay(tapes: map<int, seq<Append>>)
    requires forall d :: d != TODAY ==> TapeOn(tapes, d) == []
    requires Length(TapeOn(tapes, TODAY)) < DAY_SECONDS
    ensures ShortTapes(UTC, tapes)
  {
  }

  lemma NamesFit()
    ensures ValidApp(SAFARI) && ValidApp(YOUTUBE) && SAFARI != YOUTUBE && UTC.Has(TODAY)
    ensures GapCovers(GAP) && Whole(GAP)
  {
    assert SAFARI[0] == 'S' && YOUTUBE[0] == 'Y';
  }

  /** Everything that is asked of runs holds of these. */
  lemma TwoRunsMeetAll(member: string)
    ensures ValidRuns(UTC, TwoRuns()) && ValidSetting(member, UTC) && UTC.Has(TODAY)
    ensures Tapes(member, UTC, TwoRuns()) == map[TODAY := Grown(SAFARI, YOUTUBE)]
    ensures ShortTapes(UTC, Tapes(member, UTC, TwoRuns()))
  {
    NamesFit();
    UtcValid(member);
    TwoValidRuns(UTC, TODAY, SAFARI, YOUTUBE);
    AfterLater(member, UTC, TODAY, SAFARI, YOUTUBE);
    assert TwoRuns() == [] + [First(TODAY, SAFARI, YOUTUBE)] + [Later(TODAY, SAFARI, YOUTUBE)];
    GrownTape(Reel(member, UTC, TODAY), SAFARI, YOUTUBE);
    ShortDay(map[TODAY := Grown(SAFARI, YOUTUBE)]);
  }

  /** Two runs, the second after one app has grown: the report gives the newest totals. */
  method ReportTwoRuns(device: int, member: string) returns (report: Report)
    ensures Get(report.byProcess, SAFARI) == 3 && Get(report.byProcess, YOUTUBE) == 1
  {
    TwoRunsMeetAll(member);
    NamesFit();
    TwoPeaks(member, UTC, TODAY, SAFARI, YOUTUBE, SAFARI);
    TwoPeaks(member, UTC, TODAY, SAFARI, YOUTUBE, YOUTUBE);
    assert TwoRuns() == [] + [First(TODAY, SAFARI, YOUTUBE)] + [Later(TODAY, SAFARI, YOUTUBE)];
    report := CollectAndReport(device, member, UTC, TwoRuns(), TODAY, GAP);
  }

  lemma LaterAlone(member: string)
    ensures var usage := Later(TODAY, SAFARI, YOUTUBE).usage;
            && ValidUsage(UTC, usage, TODAY - KEEP_DAYS)
            && RunTapes(map[], map[], usage) == map[TODAY := Again(SAFARI, YOUTUBE)]
            && ShortTapes(UTC, map[TODAY := Again(SAFARI, YOUTUBE)])
  {
    hide TapeOf, ShortTapes, Deltas, Grow;
    var u := DayUsage(TODAY, [Scraped(SAFARI, 3), Scraped(YOUTUBE, 1)]);
    NamesFit();
    TwoApps(map[], SAFARI, 3, YOUTUBE, 1);
    OneDay(member, UTC, map[], map[], u);
    assert [] + ([Append(SAFARI, 3)] + [Append(YOUTUBE, 1)]) == Again(SAFARI, YOUTUBE);
    AgainTape(Reel(member, UTC, TODAY), SAFARI, YOUTUBE);
    ShortDay(map[TODAY := Again(SAFARI, YOUTUBE)]);
  }

  /** The state is lost after them, and the same totals are scraped again: a second changes hands. */
  lemma LostAfterTwoRuns(device: int, member: string)
    ensures var usage := Later(TODAY, SAFARI, YOUTUBE).usage;
            var tapes := Tapes(member, UTC, TwoRuns());
            && ValidUsage(UTC, usage, TODAY - KEEP_DAYS) && ShortTapes(UTC, TapesAgain(tapes, usage))
            && TapeOn(TapesAgain(tapes, usage), TODAY) == Again(SAFARI, YOUTUBE)
            && !Reported(LostRows(device, member, UTC, TwoRuns(), usage), UTC, TODAY, Again(SAFARI, YOUTUBE),
                         ZERO_TIME, GAP)
  {
    hide Reported, Credited, Keeps, LostRows, ShortTapes, ValidRuns, ValidSetting, ValidUsage, Grown, Again, RunTapes;
    NamesFit();
    TwoRunsMeetAll(member);
    LaterAlone(member);
    var usage, tapes := Later(TODAY, SAFARI, YOUTUBE).usage, Tapes(member, UTC, TwoRuns());
    assert TapesAgain(tapes, usage) == map[TODAY := Again(SAFARI, YOUTUBE)];
    LostStateExact(device, member, UTC, TwoRuns(), usage, TODAY - KEEP_DAYS, TODAY, ZERO_TIME, GAP);
    GrownNotKept(SAFARI, YOUTUBE);
  }

  /** In the report of the server the second is gone from one app and with the other. */
  lemma CorruptedReport(device: int, member: string)
    ensures var rows := PostAll(Rows(device, member, UTC, TwoRuns()), device, MemberName(member),
                                RunEvents(member, UTC, map[], Later(TODAY, SAFARI, YOUTUBE).usage));
            && Peak(TwoRuns(), TODAY, SAFARI) == 3 && Peak(TwoRuns(), TODAY, YOUTUBE) == 1
            && Usage(rows, Start(), End(), ZERO_TIME, GAP, Process(SAFARI), NS_PER_SECOND) == 2
            && Usage(rows, Start(), End(), ZERO_TIME, GAP, Process(YOUTUBE), NS_PER_SECOND) == 2
  {
    hide Usage, PostAll, Peak;
    NamesFit();
    UtcValid(member);
    LostStateCorrupts(device, member, UTC, TODAY, SAFARI, YOUTUBE, GAP);
  }

  // ---- one app that grows -----------------------------------------------------

  function OneApp(x: nat): seq<DayUsage> { [DayUsage(TODAY, [Scraped(SAFARI, x)])] }

  lemma OneAppMeetsAll(member: string, x: nat, horizon: int)
    requires 0 < x < DAY_SECONDS && horizon <= TODAY
    ensures ValidUsage(UTC, OneApp(x), horizon) && ValidRuns(UTC, [Run(TODAY, OneApp(x))])
    ensures RunTapes(map[], map[], OneApp(x)) == map[TODAY := [Append(SAFARI, x)]]
    ensures Tapes(member, UTC, [Run(TODAY, OneApp(x))]) == RunTapes(map[], map[], OneApp(x))
    ensures ShortTapes(UTC, RunTapes(map[], map[], OneApp(x)))
  {
    hide TapeOf, ShortTapes, Deltas, Grow, ValidApp;
    NamesFit();
    OneAppDeltas(SAFARI, x);
    OneDay(member, UTC, map[], map[], OneApp(x)[0]);
    var runs := [Run(TODAY, OneApp(x))];
    assert OneApp(x) == [OneApp(x)[0]] && [] + [Append(SAFARI, x)] == [Append(SAFARI, x)] && runs[..0] == [];
    assert runs == [] + runs;
    OneMoreRun(member, UTC, [], runs[0], TODAY, SAFARI);
    var a := [Append(SAFARI, x)];
    assert a[1..] == [];
    ShortDay(RunTapes(map[], map[], OneApp(x)));
  }

  /** The state is lost between the two totals of a single app: the day comes out right exactly if the first
      fills whole heartbeats, as 240 s do and 100 s do not. */
  lemma LostAfterOneApp(device: int, member: string, x: nat, y: nat)
    requires 0 < x < y < DAY_SECONDS
    ensures Reported(LostRows(device, member, UTC, [Run(TODAY, OneApp(x))], OneApp(y)), UTC, TODAY, [Append(SAFARI, y)],
                     ZERO_TIME, GAP)
       <==> x % HEARTBEAT_SECONDS == 0
  {
    hide Reported, Credited, Keeps, LostRows, RunTapes, ShortTapes;
    NamesFit();
    UtcValid(member);
    OneAppMeetsAll(member, x, TODAY);
    OneAppMeetsAll(member, y, TODAY);
    var tapes := Tapes(member, UTC, [Run(TODAY, OneApp(x))]);
    assert TapesAgain(tapes, OneApp(y)) == RunTapes(map[], map[], OneApp(y));
    LostStateExact(device, member, UTC, [Run(TODAY, OneApp(x))], OneApp(y), TODAY, TODAY, ZERO_TIME, GAP);
    var a := [Append(SAFARI, x)];
    assert a[1..] == [] && Length(a) == x;
    SingleApp(a, true, SAFARI, y);
  }

  /** The same after a run that posted everything and died before it was saved. */
  lemma DiedAfterOneApp(device: int, member: string, x: nat, y: nat)
    requires 0 < x < y < DAY_SECONDS
    ensures var n := |RunEvents(member, UTC, map[], OneApp(x))|;
            Reported(RerunRows(device, member, UTC, [], OneApp(x), n, OneApp(y)), UTC, TODAY, [Append(SAFARI, y)],
                     ZERO_TIME, GAP)
            <==> x % HEARTBEAT_SECONDS == 0
  {
    hide Reported, RerunRows, RunTapes, ShortTapes, CutTapes;
    NamesFit();
    UtcValid(member);
    var n := |RunEvents(member, UTC, map[], OneApp(x))|;
    OneAppMeetsAll(member, x, TODAY);
    OneAppMeetsAll(member, y, TODAY);
    CutNothing(member, UTC, map[], map[], OneApp(x), n);
    WholeRun(member, UTC, OneApp(x), n);
    GrownAfterCrash(device, member, UTC, SAFARI, x, y, n, TODAY, ZERO_TIME, GAP);
  }

  // ---- a history with a run that is cut off -----------------------------------

  /** A run dies after its first event; the next one posts 200 s. */
  ghost function CutThenWhole(member: string): seq<Attempt> {
    [Attempt(TODAY, OneApp(100), false, 1, false),
     Attempt(TODAY, OneApp(200), false, |RunEvents(member, UTC, map[], OneApp(200))|, true)]
  }

  lemma CutPost(device: int, member: string)
    ensures var h := After(device, member, UTC, [CutThenWhole(member)[0]]);
            && h.state == map[] && h.base == map[]
            && h.posts == [Post(map[TODAY := [Append(SAFARI, 1)]], Some(TODAY))]
  {
    hide RunEvents, PostAll;
    var a := CutThenWhole(member)[0];
    assert [a][..0] == [] && OneApp(100)[..0] == [] && RunTapes(map[], map[], []) == map[]
           && RunSent(map[], []) == map[];
    OneAppDeltas(SAFARI, 100);
    assert CutTape([Append(SAFARI, 100)], 1) == Layer([Append(SAFARI, 1)], false);
    NoEvents(member);
    assert OneApp(100)[..|OneApp(100)| - 1] == [] && [] + [Append(SAFARI, 1)] == [Append(SAFARI, 1)];
    assert Deltas(SentOn(RunSent(map[], []), TODAY), OneApp(100)[0].apps) == [Append(SAFARI, 100)];
    assert CutTapes(member, UTC, map[], map[], OneApp(100), 1) == Post(map[TODAY := [Append(SAFARI, 1)]], Some(TODAY));
    assert |RunEvents(member, UTC, map[], OneApp(100))| > 1 by {
      MoreThanOne(member);
    }
  }

  lemma NoEvents(member: string)
    ensures RunEvents(member, UTC, map[], []) == []
  {
  }

  lemma MoreThanOne(member: string)
    ensures |RunEvents(member, UTC, map[], OneApp(100))| == 2
  {
    OneAppDeltas(SAFARI, 100);
    OneDay(member, UTC, map[], map[], OneApp(100)[0]);
    assert OneApp(100) == [OneApp(100)[0]];
    var r := Reel(member, UTC, TODAY);
    ShortPiece(r, Append(SAFARI, 100), [], SumNat(map[]));
    assert [Append(SAFARI, 100)] + [] == [Append(SAFARI, 100)];
  }

  lemma HistoryShort(device: int, member: string)
    ensures var h := After(device, member, UTC, CutThenWhole(member));
            && h.posts == [Post(map[TODAY := [Append(SAFARI, 1)]], Some(TODAY)),
                           Post(map[TODAY := [Append(SAFARI, 200)]], None)]
            && ShortPosts(UTC, h.posts)
  {
    hide RunEvents, PostAll, CutTapes, ShortTapes, SavedAfter;
    var attempts := CutThenWhole(member);
    assert attempts[..1] == [attempts[0]];
    CutPost(device, member);
    OneAppMeetsAll(member, 200, TODAY);
    CutNothing(member, UTC, map[], map[], OneApp(200), attempts[1].posted);
    var one := [Append(SAFARI, 1)];
    assert one[1..] == [];
    ShortDay(map[TODAY := one]);
  }

  lemma CutThenWholeValid(member: string)
    ensures ValidAttempts(UTC, CutThenWhole(member)) && ValidSetting(member, UTC)
  {
    hide RunEvents;
    UtcValid(member);
    OneAppMeetsAll(member, 100, TODAY - KEEP_DAYS);
    OneAppMeetsAll(member, 200, TODAY - KEEP_DAYS);
  }

  /** A cut tape of the same app is kept: the day comes out right. */
  lemma CutThenWholeReported(device: int, member: string)
    ensures Usage(After(device, member, UTC, CutThenWhole(member)).rows, Start(), End(), ZERO_TIME, GAP,
                  Process(SAFARI), NS_PER_SECOND) == 200
  {
    hide Reported, Credited, KeptOn, Usage, After, RunEvents, RunTapes, ShortPosts, ValidAttempts;
    var attempts := CutThenWhole(member);
    var front, a := [attempts[0]], attempts[1];
    assert attempts == front + [a];
    NamesFit();
    CutThenWholeValid(member);
    HistoryShort(device, member);
    CutPost(device, member);
    OneAppMeetsAll(member, 200, TODAY);
    HistoryExact(device, member, UTC, front, a, TODAY, ZERO_TIME, GAP);
    var cut, laid := Post(map[TODAY := [Append(SAFARI, 1)]], Some(TODAY)), map[TODAY := [Append(SAFARI, 200)]];
    KeptOnOne(cut, laid, UTC, TODAY, GAP);
    SingleApp([Append(SAFARI, 1)], false, SAFARI, 200);
    DayTotal(After(device, member, UTC, attempts).rows, [Append(SAFARI, 200)], SAFARI);
  }

  lemma DayTotal(rows: seq<Event>, b: seq<Append>, app: string)
    requires Reported(rows, UTC, TODAY, b, ZERO_TIME, GAP) && Length(b) < DAY_SECONDS
    ensures Usage(rows, Start(), End(), ZERO_TIME, GAP, Process(app), NS_PER_SECOND) == Total(b, app)
  {
    hide Usage;
    assert ReportedIn(rows, UTC, TODAY, b, ZERO_TIME, GAP, 0, DAY_SECONDS, Process(app));
    ShownInIsShownFrom(b, 0, DAY_SECONDS, Process(app));
    ShownIsTotal(b, 0, Process(app));
  }

  /** The number of merged seconds is the same. */
  lemma CutThenWholeCounted(device: int, member: string)
    ensures CountOn(After(device, member, UTC, CutThenWhole(member)).posts, UTC, TODAY, 0, DAY_SECONDS, Process(SAFARI),
                    GAP) == 200
  {
    hide Usage, After, RunEvents, ShortPosts, ValidAttempts, LitOn;
    NamesFit();
    CutThenWholeValid(member);
    HistoryShort(device, member);
    CutThenWholeReported(device, member);
    HistoryReport(device, member, UTC, CutThenWhole(member), TODAY, 0, DAY_SECONDS, ZERO_TIME, GAP, Process(SAFARI));
  }
}
