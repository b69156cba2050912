/** Histories of runs over all members, whose posts may fail: what the server reports for one of the
    members, and exactly when that is what the state file says. */
module MemberHistories {
  import opened Observations
  import opened Reports
  import opened UsageLaws
  import opened EventStore
  import opened Intake
  import opened Names
  import opened Tape
  import opened Collector
  import opened TapeUsage
  import opened CollectorRuns
  import opened CollectorMembers
  import opened GapTables

  /** One run over all members. */
  datatype Visit = Visit(today: int, runs: seq<MemberRun>)

  /** The state file, the member's table on the server, and, for the proof, the tapes that its record in
      the file stands for with the seconds of them that never got through. */
  datatype Ledger = Ledger(
    file: States,
    rows: seq<Event>,
    tapes: map<int, seq<Append>>,
    missing: iset<(int, int)>
  )

  function Cutoff(v: Visit): int { v.today - KEEP_DAYS }

  /** Turn i is the member's, and its totals could be scraped. */
  predicate TurnAt(v: Visit, member: string, i: nat) {
    i < |v.runs| && !Passes(v.runs[i], member)
  }

  ghost predicate HasTurn(v: Visit, member: string) {
    exists i: nat :: TurnAt(v, member, i)
  }

  ghost function TurnOf(v: Visit, member: string): (i: nat)
    requires HasTurn(v, member)
    ensures TurnAt(v, member, i)
  {
    var i: nat :| TurnAt(v, member, i);
    i
  }

  /** What the turn wants to post. */
  ghost function TurnEvents(c: Calendar, file: States, v: Visit, i: nat): seq<RequestEvent>
    requires i < |v.runs|
  {
    EventsOf(c, Turns(c, Record(file, file), v.runs[..i], Cutoff(v)).memory, v.runs[i])
  }

  ghost predicate Fails(c: Calendar, file: States, v: Visit, i: nat)
    requires i < |v.runs|
  {
    v.runs[i].posted < |TurnEvents(c, file, v, i)|
  }

  /** The turn's record reaches the file, by its own saving or by a later member's. */
  ghost predicate Recorded(c: Calendar, file: States, v: Visit, i: nat)
    requires i < |v.runs|
  {
    || SavesAt(c, Record(file, file), v.runs, Cutoff(v), i)
    || SavedLater(c, Record(file, file), v.runs, Cutoff(v), i)
  }

  ghost function FileAfter(c: Calendar, file: States, v: Visit): States {
    Turns(c, Record(file, file), v.runs, Cutoff(v)).file
  }

  ghost function Visited(l: Ledger, device: int, member: string, c: Calendar, v: Visit): Ledger {
    if !HasTurn(v, member) then l.(file := FileAfter(c, l.file, v))
    else
      var i := TurnOf(v, member);
      var events := TurnEvents(c, l.file, v, i);
      var tapes := if Recorded(c, l.file, v, i)
                   then RunTapes(l.tapes, SentOf(l.file, member), v.runs[i].scraped.value) else l.tapes;
      Ledger(FileAfter(c, l.file, v),
             PostAll(l.rows, device, MemberName(member), events[..Min(v.runs[i].posted, |events|)]), tapes,
             if Fails(c, l.file, v, i) then l.missing + NewSeconds(l.tapes, tapes) else l.missing)
  }

  ghost function After(device: int, member: string, c: Calendar, visits: seq<Visit>): Ledger {
    if |visits| == 0 then Ledger(map[], [], map[], iset{})
    else Visited(After(device, member, c, visits[..|visits| - 1]), device, member, c, visits[|visits| - 1])
  }

  /** The member's post fails and a later member of the same run saves. */
  ghost predicate LosesPost(c: Calendar, file: States, member: string, v: Visit) {
    HasTurn(v, member) && Fails(c, file, v, TurnOf(v, member))
    && SavedLater(c, Record(file, file), v.runs, Cutoff(v), TurnOf(v, member))
  }

  ghost predicate ValidVisit(c: Calendar, member: string, v: Visit) {
    && OtherMembers(v.runs)
    && forall i: nat :: TurnAt(v, member, i) ==> ValidUsage(c, v.runs[i].scraped.value, Cutoff(v))
  }

  /** The member's events get through together or not at all. */
  ghost predicate AtOnce(c: Calendar, file: States, member: string, v: Visit) {
    forall i: nat :: TurnAt(v, member, i) && Fails(c, file, v, i) ==> v.runs[i].posted == 0
  }

  ghost predicate ValidVisits(device: int, member: string, c: Calendar, visits: seq<Visit>) {
    && (forall k :: 0 <= k < |visits| ==> ValidVisit(c, member, visits[k]))
    && (forall k :: 0 <= k < |visits| ==> AtOnce(c, After(device, member, c, visits[..k]).file, member, visits[k]))
    && (forall j, k :: 0 <= j < k < |visits| ==> visits[j].today <= visits[k].today)
  }

  // ---- one run ----------------------------------------------------------------

  lemma OnlyTurn(v: Visit, member: string, i: nat)
    requires OtherMembers(v.runs) && TurnAt(v, member, i)
    ensures HasTurn(v, member) && TurnOf(v, member) == i
    ensures forall k :: 0 <= k < i ==> Passes(v.runs[k], member)
  {
  }

  /** What the member wants to post is what its record in the file makes it post. */
  lemma TurnEventsAre(c: Calendar, file: States, v: Visit, member: string, i: nat)
    requires ValidVisit(c, member, v) && TurnAt(v, member, i)
    ensures TurnEvents(c, file, v, i) == RunEvents(member, c, SentOf(file, member), v.runs[i].scraped.value)
  {
    hide RunEvents, RunSent, ValidUsage;
    OnlyTurn(v, member, i);
    TurnsBefore(c, Record(file, file), v.runs[..i], Cutoff(v), member);
    SameRecords(member, c, SentOf(Turns(c, Record(file, file), v.runs[..i], Cutoff(v)).memory, member),
                SentOf(file, member), v.runs[i].scraped.value, Cutoff(v));
  }

  lemma AlikeTracks(sent': map<int, map<string, nat>>, sent: map<int, map<string, nat>>,
                    tapes: map<int, seq<Append>>, cutoff: int, horizon: int)
    requires Tracks(sent, tapes, cutoff) && Alike(sent', sent, cutoff) && cutoff <= horizon
    ensures Tracks(sent', tapes, horizon)
  {
    hide Matches, ValidAppends;
    forall d | d >= horizon ensures Matches(SentOn(sent', d), TapeOn(tapes, d)) {
      assert Matches(SentOn(sent, d), TapeOn(tapes, d)) && SentOn(sent', d) == SentOn(sent, d);
    }
  }

  /** The member's record stands for the tapes, and the table holds all of them but what is missing. */
  ghost predicate GoodLedger(l: Ledger, device: int, member: string, c: Calendar, horizon: int) {
    && Tracks(SentOf(l.file, member), l.tapes, horizon) && SoundTapes(member, c, l.tapes)
    && ValidRows(l.rows) && GapTable(l.rows, device, member, c, l.tapes, l.missing) && OnTapes(l.missing, l.tapes)
  }

  lemma NoTurnGood(l: Ledger, device: int, member: string, c: Calendar, v: Visit, horizon: int)
    requires GoodLedger(l, device, member, c, Cutoff(v)) && !HasTurn(v, member) && Cutoff(v) <= horizon
    ensures GoodLedger(Visited(l, device, member, c, v), device, member, c, horizon)
  {
    hide Tracks, SoundTapes, GapTable, OnTapes, ValidRows, Turns, Alike;
    forall k | 0 <= k < |v.runs| ensures Passes(v.runs[k], member) {
      assert !TurnAt(v, member, k);
    }
    TurnsBefore(c, Record(l.file, l.file), v.runs, Cutoff(v), member);
    AlikeTracks(SentOf(FileAfter(c, l.file, v), member), SentOf(l.file, member), l.tapes, Cutoff(v), horizon);
  }

  /** The record and the tapes stay in step. */
  lemma TurnTracks(l: Ledger, device: int, member: string, c: Calendar, v: Visit, horizon: int)
    requires GoodLedger(l, device, member, c, Cutoff(v)) && ValidVisit(c, member, v) && HasTurn(v, member)
    requires Cutoff(v) <= horizon
    ensures var l' := Visited(l, device, member, c, v);
            Tracks(SentOf(l'.file, member), l'.tapes, horizon)
    ensures var usage := v.runs[TurnOf(v, member)].scraped.value;
            RunGrowth(member, c, l.tapes, RunTapes(l.tapes, SentOf(l.file, member), usage),
                      RunEvents(member, c, SentOf(l.file, member), usage))
  {
    hide Tracks, SoundTapes, GapTable, OnTapes, ValidRows, Turns, Alike, RunTapes, RunSent, RunEvents, ValidUsage,
         RunGrowth, SavesAt, SavedLater, PostAll;
    var i, sent := TurnOf(v, member), SentOf(l.file, member);
    var usage := v.runs[i].scraped.value;
    RunGrown(member, c, sent, l.tapes, usage, Cutoff(v));
    RecordAfter(c, l.file, v.runs, Cutoff(v), i);
    var recorded := Recorded(c, l.file, v, i);
    AlikeTracks(SentOf(FileAfter(c, l.file, v), member), if recorded then RunSent(sent, usage) else sent,
                if recorded then RunTapes(l.tapes, sent, usage) else l.tapes, Cutoff(v), horizon);
  }

  lemma PostNothing(rows: seq<Event>, device: int, clientId: string, events: seq<RequestEvent>)
    ensures PostAll(rows, device, clientId, events[..0]) == rows
  {
  }

  /** Nothing fails: the table grows with the tapes. */
  lemma PostedTurn(l: Ledger, device: int, member: string, c: Calendar, v: Visit)
    requires GoodLedger(l, device, member, c, Cutoff(v)) && ValidVisit(c, member, v) && HasTurn(v, member)
    requires !Fails(c, l.file, v, TurnOf(v, member))
    requires var usage := v.runs[TurnOf(v, member)].scraped.value;
             RunGrowth(member, c, l.tapes, RunTapes(l.tapes, SentOf(l.file, member), usage),
                       RunEvents(member, c, SentOf(l.file, member), usage))
    ensures var l' := Visited(l, device, member, c, v);
            && SoundTapes(member, c, l'.tapes) && ValidRows(l'.rows)
            && GapTable(l'.rows, device, member, c, l'.tapes, l'.missing) && OnTapes(l'.missing, l'.tapes)
  {
    hide Tracks, SoundTapes, GapTable, ValidRows, Turns, RunTapes, RunSent, RunEvents, ValidUsage, SavedLater, PostAll,
         Length, FreshIds;
    var i, sent := TurnOf(v, member), SentOf(l.file, member);
    var usage := v.runs[i].scraped.value;
    var events, tapes := TurnEvents(c, l.file, v, i), RunTapes(l.tapes, sent, usage);
    TurnEventsAre(c, l.file, v, member, i);
    assert ValidSetting(member, c) by { SettingOf(member, c, l.tapes); }
    RunEventsGood(member, c, sent, usage, Cutoff(v));
    MemberNameTrimmed(member);
    PostAllInserts(l.rows, device, MemberName(member), events);
    assert events[..Min(v.runs[i].posted, |events|)] == events;
    if Recorded(c, l.file, v, i) {
      PostedRun(l.rows, device, member, c, l.tapes, tapes, events, l.missing);
      OnTapesGrows(l.missing, member, c, l.tapes, tapes, events);
    } else {
      assert events == [];
    }
  }

  lemma SettingOf(member: string, c: Calendar, tapes: map<int, seq<Append>>)
    requires SoundTapes(member, c, tapes)
    ensures ValidSetting(member, c)
  {
  }

  lemma OnTapesGrows(missing: iset<(int, int)>, member: string, c: Calendar, tapes: map<int, seq<Append>>,
                    tapes': map<int, seq<Append>>, events: seq<RequestEvent>)
    requires OnTapes(missing, tapes) && RunGrowth(member, c, tapes, tapes', events)
    ensures OnTapes(missing, tapes') && SoundTapes(member, c, tapes')
  {
    hide Length, SoundTapes, InTapes, NewIn;
    forall p | p in missing ensures 0 <= p.1 < Length(TapeOn(tapes', p.0)) {
      GrownLength(TapeOn(tapes, p.0), TapeOn(tapes', p.0));
    }
  }

  /** All fails: the table stays, and what is recorded nevertheless is missing. */
  lemma FailedTurn(l: Ledger, device: int, member: string, c: Calendar, v: Visit)
    requires GoodLedger(l, device, member, c, Cutoff(v)) && ValidVisit(c, member, v) && HasTurn(v, member)
    requires Fails(c, l.file, v, TurnOf(v, member)) && v.runs[TurnOf(v, member)].posted == 0
    requires var usage := v.runs[TurnOf(v, member)].scraped.value;
             RunGrowth(member, c, l.tapes, RunTapes(l.tapes, SentOf(l.file, member), usage),
                       RunEvents(member, c, SentOf(l.file, member), usage))
    ensures var l' := Visited(l, device, member, c, v);
            && SoundTapes(member, c, l'.tapes) && ValidRows(l'.rows)
            && GapTable(l'.rows, device, member, c, l'.tapes, l'.missing) && OnTapes(l'.missing, l'.tapes)
  {
    hide Tracks, GapTable, ValidRows, Turns, RunTapes, RunSent, RunEvents, ValidUsage, SavedLater, PostAll,
         Length, ValidSetting, OnTapes, OnDays;
    var i, sent := TurnOf(v, member), SentOf(l.file, member);
    var usage := v.runs[i].scraped.value;
    PostNothing(l.rows, device, MemberName(member), TurnEvents(c, l.file, v, i));
    if Recorded(c, l.file, v, i) {
      MissedRun(l.rows, device, member, c, l.tapes, RunTapes(l.tapes, sent, usage), RunEvents(member, c, sent, usage),
                l.missing);
    } else {
      assert l.missing + NewSeconds(l.tapes, l.tapes) == l.missing;
    }
  }

  lemma VisitGood(l: Ledger, device: int, member: string, c: Calendar, v: Visit, horizon: int)
    requires GoodLedger(l, device, member, c, Cutoff(v)) && ValidVisit(c, member, v) && AtOnce(c, l.file, member, v)
    requires Cutoff(v) <= horizon
    ensures GoodLedger(Visited(l, device, member, c, v), device, member, c, horizon)
  {
    hide Tracks, SoundTapes, GapTable, OnTapes, ValidRows, Fails, Visited, RunGrowth;
    if HasTurn(v, member) {
      TurnTracks(l, device, member, c, v, horizon);
      if Fails(c, l.file, v, TurnOf(v, member)) {
        FailedTurn(l, device, member, c, v);
      } else {
        PostedTurn(l, device, member, c, v);
      }
    } else {
      NoTurnGood(l, device, member, c, v, horizon);
    }
  }

  // ---- histories --------------------------------------------------------------

  lemma FrontValid(device: int, member: string, c: Calendar, visits: seq<Visit>)
    requires ValidVisits(device, member, c, visits) && |visits| > 0
    ensures ValidVisits(device, member, c, visits[..|visits| - 1])
    ensures ValidVisit(c, member, visits[|visits| - 1])
    ensures AtOnce(c, After(device, member, c, visits[..|visits| - 1]).file, member, visits[|visits| - 1])
    ensures |visits| > 1 ==> visits[|visits| - 2].today <= visits[|visits| - 1].today
  {
    hide ValidVisit, AtOnce, After;
    var front := visits[..|visits| - 1];
    forall k | 0 <= k < |front|
      ensures ValidVisit(c, member, front[k]) && AtOnce(c, After(device, member, c, front[..k]).file, member, front[k])
    {
      assert front[k] == visits[k] && front[..k] == visits[..k];
    }
  }

  lemma {:induction false} LedgerGood(device: int, member: string, c: Calendar, visits: seq<Visit>, horizon: int)
    requires ValidVisits(device, member, c, visits) && ValidSetting(member, c)
    requires |visits| > 0 ==> Cutoff(visits[|visits| - 1]) <= horizon
    ensures GoodLedger(After(device, member, c, visits), device, member, c, horizon)
  {
    hide GoodLedger, Visited, ValidVisits, ValidVisit, AtOnce;
    if |visits| == 0 {
      EmptyGood(device, member, c, horizon);
    } else {
      var v := visits[|visits| - 1];
      FrontValid(device, member, c, visits);
      LedgerGood(device, member, c, visits[..|visits| - 1], Cutoff(v));
      VisitGood(After(device, member, c, visits[..|visits| - 1]), device, member, c, v, horizon);
    }
  }

  lemma EmptyGood(device: int, member: string, c: Calendar, horizon: int)
    requires ValidSetting(member, c)
    ensures GoodLedger(Ledger(map[], [], map[], iset{}), device, member, c, horizon)
  {
    assert forall d :: Matches(SentOn(map[], d), TapeOn(map[], d));
    forall e, d ensures !OnDay(e, member, c, map[], d) {
    }
  }

  /** Whatever fails on the way: the report on any stretch of any day gives the member, and every app, the
      seconds of the recorded tape that are not missing. */
  lemma MemberReport(device: int, member: string, c: Calendar, visits: seq<Visit>, d: int, x: nat, y: nat, now: int,
                     maxGap: int, who: Who)
    requires ValidVisits(device, member, c, visits) && ValidSetting(member, c)
    requires ShortTapes(c, After(device, member, c, visits).tapes)
    requires c.Has(d) && x <= y <= c.midnight(d + 1) - c.midnight(d) && GapCovers(maxGap) && Whole(maxGap)
    requires now == ZERO_TIME || now >= c.midnight(d + 1) * NS_PER_SECOND
    ensures var l := After(device, member, c, visits);
            Usage(l.rows, (c.midnight(d) + x) * NS_PER_SECOND, (c.midnight(d) + y) * NS_PER_SECOND, now, maxGap, who,
                  NS_PER_SECOND)
            == SentIn(TapeOn(l.tapes, d), l.missing, d, x, y, who)
  {
    hide Tracks, SoundTapes, ShortTapes, GapTable, After, Usage, SentIn, ValidVisits;
    var l := After(device, member, c, visits);
    LedgerGood(device, member, c, visits, if |visits| > 0 then Cutoff(visits[|visits| - 1]) else 0);
    GapReport(l.rows, device, member, c, l.tapes, l.missing, d, x, y, now, maxGap, who);
  }

  // ---- what is missing --------------------------------------------------------

  ghost predicate LosesAt(device: int, member: string, c: Calendar, visits: seq<Visit>, k: nat)
    requires k < |visits|
  {
    LosesPost(c, After(device, member, c, visits[..k]).file, member, visits[k])
  }

  ghost predicate NothingLost(device: int, member: string, c: Calendar, visits: seq<Visit>) {
    forall k: nat :: k < |visits| ==> !LosesAt(device, member, c, visits, k)
  }

  /** A recorded run with events to post adds seconds to the tapes. */
  lemma EventsAddSeconds(member: string, c: Calendar, tapes: map<int, seq<Append>>, tapes': map<int, seq<Append>>,
                         events: seq<RequestEvent>)
    requires RunGrowth(member, c, tapes, tapes', events)
    ensures events != [] ==> NewSeconds(tapes, tapes') != iset{}
  {
    hide TapeOf, Length, InTapes;
    if events != [] {
      var e := events[0];
      assert NewIn(e, member, c, tapes, tapes');
      var d :| OnDay(e, member, c, tapes', d) && SecondOf(e) >= Length(TapeOn(tapes, d));
      OldOrNew(e, d, member, c, tapes, tapes', events);
      assert (d, SecondOf(e)) in NewSeconds(tapes, tapes');
    }
  }

  /** A run adds to what is missing exactly if its post fails and somebody saves after it. */
  lemma VisitMisses(l: Ledger, device: int, member: string, c: Calendar, v: Visit)
    requires GoodLedger(l, device, member, c, Cutoff(v)) && ValidVisit(c, member, v)
    ensures l.missing <= Visited(l, device, member, c, v).missing
    ensures !LosesPost(c, l.file, member, v) ==> Visited(l, device, member, c, v).missing == l.missing
    ensures LosesPost(c, l.file, member, v) ==> Visited(l, device, member, c, v).missing != iset{}
  {
    hide Tracks, SoundTapes, GapTable, OnTapes, ValidRows, Turns, RunTapes, RunEvents, ValidUsage, RunGrowth, PostAll,
         Length, SavedLater;
    if HasTurn(v, member) && Fails(c, l.file, v, TurnOf(v, member)) {
      var i, sent := TurnOf(v, member), SentOf(l.file, member);
      var usage := v.runs[i].scraped.value;
      TurnTracks(l, device, member, c, v, Cutoff(v));
      TurnEventsAre(c, l.file, v, member, i);
      EventsAddSeconds(member, c, l.tapes, RunTapes(l.tapes, sent, usage), RunEvents(member, c, sent, usage));
      assert !SavesAt(c, Record(l.file, l.file), v.runs, Cutoff(v), i);
      if LosesPost(c, l.file, member, v) {
        var p :| p in NewSeconds(l.tapes, RunTapes(l.tapes, sent, usage));
        assert p in Visited(l, device, member, c, v).missing;
      } else {
        assert NewSeconds(l.tapes, l.tapes) == iset{};
      }
    }
  }

  lemma {:induction false} MissingIffLost(device: int, member: string, c: Calendar, visits: seq<Visit>)
    requires ValidVisits(device, member, c, visits) && ValidSetting(member, c)
    ensures After(device, member, c, visits).missing == iset{} <==> NothingLost(device, member, c, visits)
  {
    hide GoodLedger, Visited, ValidVisits, ValidVisit, AtOnce, LosesPost;
    if |visits| > 0 {
      var front, v := visits[..|visits| - 1], visits[|visits| - 1];
      FrontValid(device, member, c, visits);
      MissingIffLost(device, member, c, front);
      LedgerGood(device, member, c, front, Cutoff(v));
      VisitMisses(After(device, member, c, front), device, member, c, v);
      forall k: nat | k < |front| ensures LosesAt(device, member, c, front, k)
          <==> LosesAt(device, member, c, visits, k) {
        assert front[..k] == visits[..k];
      }
      assert LosesAt(device, member, c, visits, |front|)
             <==> LosesPost(c, After(device, member, c, front).file, member, v);
    }
  }

  /** Every total that the tapes stand for is reported. */
  ghost predicate AllReported(l: Ledger, c: Calendar, maxGap: int) {
    forall d :: c.Has(d) ==> DayReported(l.rows, c, d, TapeOn(l.tapes, d), maxGap)
  }

  lemma NothingMissing(l: Ledger, member: string, c: Calendar)
    requires SoundTapes(member, c, l.tapes) && OnTapes(l.missing, l.tapes)
    ensures l.missing == iset{} <==> forall d :: c.Has(d) ==> Complete(TapeOn(l.tapes, d), l.missing, d)
  {
    if p :| p in l.missing {
      var d, x: nat := p.0, p.1;
      assert p == (d, x) && c.Has(d);
      assert !Complete(TapeOn(l.tapes, d), l.missing, d);
    }
  }

  /** After any history of runs over all members, whatever failed: every recorded total of every day is
      reported if and only if no failed post of the member was followed by a save in the same run. And the
      recorded totals are those of the state file, for the days it keeps. */
  lemma RecordsReported(device: int, member: string, c: Calendar, visits: seq<Visit>, maxGap: int, horizon: int)
    requires ValidVisits(device, member, c, visits) && ValidSetting(member, c)
    requires ShortTapes(c, After(device, member, c, visits).tapes) && GapCovers(maxGap) && Whole(maxGap)
    requires |visits| > 0 ==> Cutoff(visits[|visits| - 1]) <= horizon
    ensures var l := After(device, member, c, visits);
            && (AllReported(l, c, maxGap) <==> NothingLost(device, member, c, visits))
            && (forall d, app :: d >= horizon ==>
                  Total(TapeOn(l.tapes, d), app) == GetTotal(SentOn(SentOf(l.file, member), d), app))
  {
    hide ShortTapes, GapTable, After, DayReported, ValidVisits, NothingLost, Complete, OnTapes, ValidSetting;
    var l := After(device, member, c, visits);
    LedgerGood(device, member, c, visits, horizon);
    MissingIffLost(device, member, c, visits);
    NothingMissing(l, member, c);
    forall d | c.Has(d)
      ensures DayReported(l.rows, c, d, TapeOn(l.tapes, d), maxGap) <==> Complete(TapeOn(l.tapes, d), l.missing, d)
    {
      DayReportedIff(l.rows, device, member, c, l.tapes, l.missing, d, maxGap);
    }
    forall d, app | d >= horizon
      ensures Total(TapeOn(l.tapes, d), app) == GetTotal(SentOn(SentOf(l.file, member), d), app)
    {
      assert Matches(SentOn(SentOf(l.file, member), d), TapeOn(l.tapes, d));
    }
  }
}
