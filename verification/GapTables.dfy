/** What the server reports when pieces of the tapes were recorded as posted but never were. */
module GapTables {
  import opened Observations
  import opened Reports
  import opened UsageLaws
  import opened EventStore
  import opened Intake
  import opened Names
  import opened Tape
  import opened Collector
  import opened TapeUsage
  import opened CollectorRuns
  import opened LaidTables

  /** The second of the tape an element stands for: a heartbeat begins it, a terminator ends it. */
  function SecondOf(e: RequestEvent): int { (e.sequence - 1) / 2 }

  /** The seconds that are missing from day d belong to whole pieces of its tape. */
  ghost predicate WholePieces(missing: iset<(int, int)>, d: int, a: seq<Append>, off: nat) {
    |a| > 0 ==>
      && (forall x :: off <= x < off + a[0].delta ==> ((d, x) in missing <==> (d, off) in missing))
      && WholePieces(missing, d, a[1..], off + a[0].delta)
  }

  /** The table holds the events of the tapes, except for those of the missing pieces. */
  ghost predicate GapTable(rows: seq<Event>, device: int, member: string, c: Calendar, tapes: map<int, seq<Append>>,
                           missing: iset<(int, int)>) {
    && AllExplained(rows, device, member, c, tapes)
    && (forall e, d :: OnDay(e, member, c, tapes, d) ==>
          if (d, SecondOf(e)) in missing then !Known(rows, e.eventId) else Held(rows, device, e))
    && (forall d :: WholePieces(missing, d, TapeOn(tapes, d), 0))
  }

  lemma ElementSecond(r: Reel, off: nat, app: string)
    ensures SecondOf(Beat(r, app, off)) == off && SecondOf(Terminator(r, off)) == off - 1
  {
  }

  /** A heartbeat and the end of its piece: in between its app shows, and all is missing or nothing. */
  lemma {:induction false} BeatPiece(r: Reel, a: seq<Append>, off: nat, e: RequestEvent, missing: iset<(int, int)>)
    returns (o: nat, end: nat)
    requires ValidAppends(a) && e in TapeOf(r, a, off) && e.state == "active" && WholePieces(missing, r.day, a, off)
    ensures off <= o < end <= off + Length(a) && e == Beat(r, e.process, o) && ValidApp(e.process)
    ensures Terminator(r, end) in TapeOf(r, a, off)
    ensures forall x :: o <= x < end ==> AppAt(a, off, x) == Some(e.process)
    ensures forall x :: o <= x < end ==> ((r.day, x) in missing <==> (r.day, o) in missing)
  {
    hide Stamp, EventName;
    assert a[0] in a;
    if e in BeatsFrom(r, a[0].app, off, a[0].delta, 0) {
      BeatsMember(r, a[0].app, off, a[0].delta, 0, e);
      var x: nat :| off <= x < off + a[0].delta && IsBeat(r, e, a[0].app, x);
      o, end := x, off + a[0].delta;
      assert Terminator(r, end) in Piece(r, a[0], off);
    } else {
      assert e in TapeOf(r, a[1..], off + a[0].delta);
      o, end := BeatPiece(r, a[1..], off + a[0].delta, e, missing);
    }
  }

  /** A second of the tape and the heartbeat that covers it are both missing or neither. */
  lemma {:induction false} CoveredAlike(r: Reel, a: seq<Append>, off: nat, x: nat, missing: iset<(int, int)>)
    returns (app: string, o: nat)
    requires ValidAppends(a) && off <= x < off + Length(a) && WholePieces(missing, r.day, a, off)
    ensures Beat(r, app, o) in TapeOf(r, a, off) && off <= o <= x < o + HEARTBEAT_SECONDS
    ensures (r.day, o) in missing <==> (r.day, x) in missing
    ensures forall e :: e in TapeOf(r, a, off) && e.state == "idle" && e.sequence <= 2 * x + 1 ==> e.sequence <= 2 * o
  {
    hide Beat, Terminator;
    var next := off + a[0].delta;
    if x < next {
      app := a[0].app;
      o := BeatCovers(r, app, off, a[0].delta, 0, x);
    } else {
      app, o := CoveredAlike(r, a[1..], next, x, missing);
    }
    forall e | e in TapeOf(r, a, off) && e.state == "idle" && e.sequence <= 2 * x + 1 ensures e.sequence <= 2 * o {
      IdleAfter(r, a, off, e);
    }
  }

  lemma GapRow(row: Event, rows: seq<Event>, device: int, member: string, c: Calendar, tapes: map<int, seq<Append>>,
               missing: iset<(int, int)>) returns (r: Reel, e: RequestEvent)
    requires SoundTapes(member, c, tapes) && GapTable(rows, device, member, c, tapes, missing) && row in rows
    ensures r == Reel(member, c, r.day) && c.Has(r.day) && (r.day, SecondOf(e)) !in missing
    ensures e in TapeOf(r, TapeOn(tapes, r.day), 0)
    ensures row.at == e.at == (c.midnight(r.day) + e.sequence / 2) * NS_PER_SECOND && row.sequence == e.sequence
    ensures (row.state == Active <==> e.state == "active") && (e.state == "active" || e.state == "idle")
    ensures row.state == Active ==> row.process == e.process
    ensures 0 <= e.sequence / 2 <= Length(TapeOn(tapes, r.day))
  {
    hide TapeOf, WholePieces, Normalised;
    assert Explained(row, device, member, c, tapes);
    r, e := ExplainedOrigin(row, device, member, c, tapes);
    TapeMember(r, TapeOn(tapes, r.day), 0, e);
    OnTapeWellFormed(r, e);
    assert OnDay(e, member, c, tapes, r.day);
    var i :| 0 <= i < |rows| && rows[i] == row;
    assert rows[i].uuid == e.eventId;
  }

  lemma SentRow(e: RequestEvent, d: int, rows: seq<Event>, device: int, member: string, c: Calendar,
                tapes: map<int, seq<Append>>, missing: iset<(int, int)>) returns (row: Event)
    requires GapTable(rows, device, member, c, tapes, missing)
    requires e in TapeOf(Reel(member, c, d), TapeOn(tapes, d), 0) && (d, SecondOf(e)) !in missing
    ensures row in rows && row.at == e.at && row.sequence == e.sequence
  {
    hide TapeOf, WholePieces;
    assert OnDay(e, member, c, tapes, d);
    row := HeldRow(e, rows, device);
  }

  /** A heartbeat that is newest at second x of day d shows there, and the second is not missing. */
  lemma NewestIsSent(n: Event, rows: seq<Event>, device: int, member: string, c: Calendar,
                     tapes: map<int, seq<Append>>, missing: iset<(int, int)>, d: int, x: nat)
    requires SoundTapes(member, c, tapes) && ShortTapes(c, tapes)
    requires GapTable(rows, device, member, c, tapes, missing)
    requires c.Has(d) && x < c.midnight(d + 1) - c.midnight(d)
    requires LatestAt(rows, (c.midnight(d) + x) * NS_PER_SECOND) == Some(n) && n.state == Active
    ensures AppAt(TapeOn(tapes, d), 0, x) == Some(n.process) && n.process != "" && (d, x) !in missing
  {
    hide TapeOf, WholePieces, GapTable;
    var t := (c.midnight(d) + x) * NS_PER_SECOND;
    LatestAtIsNewest(rows, t);
    var r, e := GapRow(n, rows, device, member, c, tapes, missing);
    var a := TapeOn(tapes, r.day);
    assert WholePieces(missing, r.day, a, 0) by { Pieces(rows, device, member, c, tapes, missing, r.day); }
    var o, end := BeatPiece(r, a, 0, e, missing);
    ElementSecond(r, o, e.process);
    ElementSecond(r, end, "");
    var terminator := SentRow(Terminator(r, end), r.day, rows, device, member, c, tapes, missing);
    assert c.midnight(r.day) + o <= c.midnight(d) + x < c.midnight(r.day) + end;
    if r.day < d {
      LaterDay(c, r.day, d);
    } else if d < r.day {
      LaterDay(c, d, r.day);
    }
  }

  lemma Pieces(rows: seq<Event>, device: int, member: string, c: Calendar, tapes: map<int, seq<Append>>,
               missing: iset<(int, int)>, d: int)
    requires GapTable(rows, device, member, c, tapes, missing)
    ensures WholePieces(missing, d, TapeOn(tapes, d), 0)
  {
  }

  /** At a second that is not missing the newest row is a heartbeat at most 240 s old. */
  lemma SentIsFresh(rows: seq<Event>, device: int, member: string, c: Calendar, tapes: map<int, seq<Append>>,
                    missing: iset<(int, int)>, d: int, x: nat) returns (n: Event)
    requires SoundTapes(member, c, tapes) && ShortTapes(c, tapes)
    requires GapTable(rows, device, member, c, tapes, missing)
    requires c.Has(d) && x < Length(TapeOn(tapes, d)) && (d, x) !in missing
    ensures LatestAt(rows, (c.midnight(d) + x) * NS_PER_SECOND) == Some(n) && n.state == Active
    ensures (c.midnight(d) + x) * NS_PER_SECOND - n.at < HEARTBEAT_SECONDS * NS_PER_SECOND
  {
    hide TapeOf, WholePieces, GapTable;
    var t, reel := (c.midnight(d) + x) * NS_PER_SECOND, Reel(member, c, d);
    Pieces(rows, device, member, c, tapes, missing, d);
    var app, o := CoveredAlike(reel, TapeOn(tapes, d), 0, x, missing);
    ElementSecond(reel, o, app);
    var beat := SentRow(Beat(reel, app, o), d, rows, device, member, c, tapes, missing);
    LatestAtIsNewest(rows, t);
    n := LatestAt(rows, t).value;
    var r, e := GapRow(n, rows, device, member, c, tapes, missing);
    SameDay(c, r.day, e.sequence / 2, d, o, x, Length(TapeOn(tapes, r.day)));
  }

  /** Every second of a day is credited to the app its tape shows, unless it is missing. */
  lemma GapSecond(rows: seq<Event>, device: int, member: string, c: Calendar, tapes: map<int, seq<Append>>,
                  missing: iset<(int, int)>, d: int, x: nat, who: Who, maxGap: int)
    requires SoundTapes(member, c, tapes) && ShortTapes(c, tapes)
    requires GapTable(rows, device, member, c, tapes, missing)
    requires c.Has(d) && x < c.midnight(d + 1) - c.midnight(d) && GapCovers(maxGap)
    ensures InUse(rows, (c.midnight(d) + x) * NS_PER_SECOND, who, maxGap)
       <==> Shows(TapeOn(tapes, d), 0, x, who) && (d, x) !in missing
  {
    hide GapTable, SoundTapes;
    ShowsWithin(TapeOn(tapes, d), 0, x);
    var newest := LatestAt(rows, (c.midnight(d) + x) * NS_PER_SECOND);
    if newest.Some? && newest.value.state == Active {
      NewestIsSent(newest.value, rows, device, member, c, tapes, missing, d, x);
    }
    if x < Length(TapeOn(tapes, d)) && (d, x) !in missing {
      var n := SentIsFresh(rows, device, member, c, tapes, missing, d, x);
    }
  }

  // ---- reports ----------------------------------------------------------------

  /** How many of the seconds from x to y the tape of day d shows to `who` without their being missing. */
  ghost function SentIn(a: seq<Append>, missing: iset<(int, int)>, d: int, x: nat, y: nat, who: Who): nat
    decreases y - x
  {
    if x >= y then 0
    else (if Shows(a, 0, x, who) && (d, x) !in missing then 1 else 0) + SentIn(a, missing, d, x + 1, y, who)
  }

  lemma {:induction false} SentInstants(rows: seq<Event>, device: int, member: string, c: Calendar,
      tapes: map<int, seq<Append>>, missing: iset<(int, int)>, d: int, x: nat, y: nat, who: Who, maxGap: int)
    requires SoundTapes(member, c, tapes) && ShortTapes(c, tapes)
    requires GapTable(rows, device, member, c, tapes, missing)
    requires c.Has(d) && x <= y <= c.midnight(d + 1) - c.midnight(d) && GapCovers(maxGap)
    ensures Instants(rows, (c.midnight(d) + x) * NS_PER_SECOND, (c.midnight(d) + y) * NS_PER_SECOND, NS_PER_SECOND,
                     who, maxGap)
         == SentIn(TapeOn(tapes, d), missing, d, x, y, who)
    decreases y - x
  {
    hide SoundTapes, ShortTapes, GapTable, InUse, Shows;
    if x < y {
      SentInstants(rows, device, member, c, tapes, missing, d, x + 1, y, who, maxGap);
      GapSecond(rows, device, member, c, tapes, missing, d, x, who, maxGap);
      assert (c.midnight(d) + (x + 1)) * NS_PER_SECOND == (c.midnight(d) + x) * NS_PER_SECOND + NS_PER_SECOND;
    }
  }

  /** The report on any stretch of a day is the number of its seconds that are not missing. */
  lemma GapReport(rows: seq<Event>, device: int, member: string, c: Calendar, tapes: map<int, seq<Append>>,
                  missing: iset<(int, int)>, d: int, x: nat, y: nat, now: int, maxGap: int, who: Who)
    requires SoundTapes(member, c, tapes) && ShortTapes(c, tapes)
    requires GapTable(rows, device, member, c, tapes, missing)
    requires c.Has(d) && x <= y <= c.midnight(d + 1) - c.midnight(d) && GapCovers(maxGap) && Whole(maxGap)
    requires now == ZERO_TIME || now >= c.midnight(d + 1) * NS_PER_SECOND
    ensures Usage(rows, (c.midnight(d) + x) * NS_PER_SECOND, (c.midnight(d) + y) * NS_PER_SECOND, now, maxGap, who,
                  NS_PER_SECOND)
         == SentIn(TapeOn(tapes, d), missing, d, x, y, who)
  {
    hide SoundTapes, ShortTapes, AllExplained, WholePieces, Usage;
    RowsWhole(rows, device, member, c, tapes);
    StretchCounts(rows, c, d, now, maxGap, x, y, who);
    SentInstants(rows, device, member, c, tapes, missing, d, x, y, who, maxGap);
  }

  /** None of the seconds from x to y that show `who` is missing. */
  ghost predicate SentTo(a: seq<Append>, missing: iset<(int, int)>, d: int, x: nat, y: nat, who: Who) {
    forall z: nat :: x <= z < y && Shows(a, 0, z, who) ==> (d, z) !in missing
  }

  /** Missing seconds are what the report falls short by. */
  lemma {:induction false} SentAtMost(a: seq<Append>, missing: iset<(int, int)>, d: int, x: nat, y: nat, who: Who)
    ensures SentIn(a, missing, d, x, y, who) <= ShownIn(a, x, y, who)
    ensures SentIn(a, missing, d, x, y, who) == ShownIn(a, x, y, who) <==> SentTo(a, missing, d, x, y, who)
    decreases y - x
  {
    hide Shows;
    if x < y {
      SentAtMost(a, missing, d, x + 1, y, who);
      assert SentTo(a, missing, d, x, y, who)
        <==> SentTo(a, missing, d, x + 1, y, who) && (Shows(a, 0, x, who) ==> (d, x) !in missing);
    }
  }

  /** The report on day d, read when the day is over, has the app's total of the tape. */
  ghost predicate AppReported(rows: seq<Event>, c: Calendar, d: int, a: seq<Append>, maxGap: int, app: string,
                              now: int) {
    Usage(rows, c.midnight(d) * NS_PER_SECOND, c.midnight(d + 1) * NS_PER_SECOND, now, maxGap, Process(app),
          NS_PER_SECOND)
    == Total(a, app)
  }

  ghost predicate DayReported(rows: seq<Event>, c: Calendar, d: int, a: seq<Append>, maxGap: int) {
    forall app, now :: now == ZERO_TIME || now >= c.midnight(d + 1) * NS_PER_SECOND ==>
                         AppReported(rows, c, d, a, maxGap, app, now)
  }

  lemma DayShown(a: seq<Append>, y: nat, app: string)
    requires Length(a) <= y
    ensures ShownIn(a, 0, y, Process(app)) == Total(a, app)
  {
    ShownInIsShownFrom(a, 0, y, Process(app));
    ShownIsTotal(a, 0, Process(app));
  }

  lemma AppReportedIff(rows: seq<Event>, device: int, member: string, c: Calendar, tapes: map<int, seq<Append>>,
                       missing: iset<(int, int)>, d: int, maxGap: int, app: string, now: int)
    requires SoundTapes(member, c, tapes) && ShortTapes(c, tapes)
    requires GapTable(rows, device, member, c, tapes, missing) && c.Has(d) && GapCovers(maxGap) && Whole(maxGap)
    requires now == ZERO_TIME || now >= c.midnight(d + 1) * NS_PER_SECOND
    ensures AppReported(rows, c, d, TapeOn(tapes, d), maxGap, app, now)
       <==> SentTo(TapeOn(tapes, d), missing, d, 0, c.midnight(d + 1) - c.midnight(d), Process(app))
  {
    hide SoundTapes, GapTable, Usage, Shows;
    var a, y := TapeOn(tapes, d), c.midnight(d + 1) - c.midnight(d);
    GapReport(rows, device, member, c, tapes, missing, d, 0, y, now, maxGap, Process(app));
    SentAtMost(a, missing, d, 0, y, Process(app));
    DayShown(a, y, app);
  }

  /** No second of the day's tape is missing. */
  ghost predicate Complete(a: seq<Append>, missing: iset<(int, int)>, d: int) {
    forall x: nat :: x < Length(a) ==> (d, x) !in missing
  }

  lemma CompleteIff(a: seq<Append>, missing: iset<(int, int)>, d: int, y: nat)
    requires Length(a) <= y
    ensures Complete(a, missing, d) <==> forall app :: SentTo(a, missing, d, 0, y, Process(app))
  {
    hide AppAt, Length;
    forall z: nat ensures AppAt(a, 0, z).Some? <==> z < Length(a) {
      ShowsWithin(a, 0, z);
    }
    if forall app :: SentTo(a, missing, d, 0, y, Process(app)) {
      forall x: nat | x < Length(a) ensures (d, x) !in missing {
        var app := AppAt(a, 0, x).value;
        assert SentTo(a, missing, d, 0, y, Process(app)) && Shows(a, 0, x, Process(app));
      }
    }
  }

  /** A day's totals are all reported exactly if no second of its tape is missing. */
  lemma DayReportedIff(rows: seq<Event>, device: int, member: string, c: Calendar, tapes: map<int, seq<Append>>,
                       missing: iset<(int, int)>, d: int, maxGap: int)
    requires SoundTapes(member, c, tapes) && ShortTapes(c, tapes)
    requires GapTable(rows, device, member, c, tapes, missing) && c.Has(d) && GapCovers(maxGap) && Whole(maxGap)
    ensures DayReported(rows, c, d, TapeOn(tapes, d), maxGap) <==> Complete(TapeOn(tapes, d), missing, d)
  {
    hide SoundTapes, GapTable, AppReported, SentTo, Complete;
    var a, y := TapeOn(tapes, d), c.midnight(d + 1) - c.midnight(d);
    CompleteIff(a, missing, d, y);
    forall app, now | now == ZERO_TIME || now >= c.midnight(d + 1) * NS_PER_SECOND
      ensures AppReported(rows, c, d, a, maxGap, app, now) <==> SentTo(a, missing, d, 0, y, Process(app))
    {
      AppReportedIff(rows, device, member, c, tapes, missing, d, maxGap, app, now);
    }
    if DayReported(rows, c, d, a, maxGap) {
      forall app ensures SentTo(a, missing, d, 0, y, Process(app)) {
        assert AppReported(rows, c, d, a, maxGap, app, ZERO_TIME);
      }
    }
  }

  // ---- what a run adds --------------------------------------------------------

  lemma {:induction false} TapesGrow(tapes: map<int, seq<Append>>, sent: map<int, map<string, nat>>,
                                     usage: seq<DayUsage>, d: int)
    ensures TapeOn(tapes, d) <= TapeOn(RunTapes(tapes, sent, usage), d)
  {
    hide Deltas, RunSent;
    if |usage| > 0 {
      TapesGrow(tapes, sent, usage[..|usage| - 1], d);
    }
  }

  lemma GrownLength(a: seq<Append>, b: seq<Append>)
    requires a <= b
    ensures b == a + b[|a|..] && Length(b) == Length(a) + Length(b[|a|..])
  {
    TotalConcat(a, b[|a|..], "");
  }

  /** An event of the run stands behind what its day's tape held before. */
  lemma {:induction false} RunEventIsNew(member: string, c: Calendar, sent: map<int, map<string, nat>>,
      tapes: map<int, seq<Append>>, usage: seq<DayUsage>, horizon: int, e: RequestEvent) returns (d: int)
    requires Tracks(sent, tapes, horizon) && ValidUsage(c, usage, horizon)
    requires e in RunEvents(member, c, sent, usage)
    ensures OnDay(e, member, c, RunTapes(tapes, sent, usage), d) && SecondOf(e) >= Length(TapeOn(tapes, d))
  {
    hide TapeOf, Deltas, Matches, Grow;
    var front, u := usage[..|usage| - 1], usage[|usage| - 1];
    ValidUsageFront(c, usage, horizon);
    RunTracks(member, c, sent, tapes, front, horizon);
    var s, t := RunSent(sent, front), RunTapes(tapes, sent, front);
    var daySent, tape := SentOn(s, u.day), TapeOn(t, u.day);
    var deltas, r := Deltas(daySent, u.apps), Reel(member, c, u.day);
    assert Matches(daySent, tape);
    RecordLength(daySent, tape);
    if e in TapeOf(r, deltas, SumNat(daySent)) {
      d := u.day;
      OnGrownDay(e, member, c, t, d, deltas);
      DeltasValid(daySent, u.apps);
      LaidBehind(r, deltas, SumNat(daySent), e);
      TapesGrow(tapes, sent, front, d);
      GrownLength(TapeOn(tapes, d), tape);
    } else {
      d := RunEventIsNew(member, c, sent, tapes, front, horizon, e);
      if d == u.day {
        OnGrownDay(e, member, c, t, d, deltas);
      } else {
        OnOtherDays(e, member, c, t, u.day, tape + deltas, d);
      }
    }
  }

  lemma RecordLength(daySent: map<string, nat>, tape: seq<Append>)
    requires Matches(daySent, tape)
    ensures SumNat(daySent) == Length(tape)
  {
  }

  /** The seconds of a tape laid from off on. */
  lemma LaidBehind(r: Reel, a: seq<Append>, off: nat, e: RequestEvent)
    requires ValidAppends(a) && e in TapeOf(r, a, off)
    ensures off <= SecondOf(e) < off + Length(a)
  {
    hide TapeOf;
    TapeClimbs(r, a, off);
    var i :| 0 <= i < |TapeOf(r, a, off)| && TapeOf(r, a, off)[i] == e;
  }

  /** Of a grown tape an element is on the old part exactly if its second is. */
  lemma OldPart(r: Reel, a: seq<Append>, b: seq<Append>, e: RequestEvent)
    requires ValidAppends(b) && a <= b && e in TapeOf(r, b, 0)
    ensures e in TapeOf(r, a, 0) <==> SecondOf(e) < Length(a)
    ensures 0 <= SecondOf(e) < Length(b)
  {
    hide TapeOf;
    var more := b[|a|..];
    GrownLength(a, b);
    TapeConcat(r, a, more, 0);
    assert ValidAppends(a) && ValidAppends(more);
    LaidBehind(r, b, 0, e);
    if e in TapeOf(r, a, 0) {
      LaidBehind(r, a, 0, e);
    } else {
      LaidBehind(r, more, Length(a), e);
    }
  }

  /** An event is on one day's tape only. */
  lemma OneTapeOnly(e: RequestEvent, e': RequestEvent, member: string, c: Calendar, tapes: map<int, seq<Append>>,
                    d: int, d': int)
    requires SoundTapes(member, c, tapes) && OnDay(e, member, c, tapes, d) && OnDay(e', member, c, tapes, d')
    requires e.eventId == e'.eventId
    ensures d == d' && e == e'
  {
    var r, r' := Reel(member, c, d), Reel(member, c, d');
    TapeMember(r, TapeOn(tapes, d), 0, e);
    TapeMember(r', TapeOn(tapes, d'), 0, e');
    SameIdSameEvent(r, r', e, e');
  }

  // ---- the table and one more run ---------------------------------------------

  /** The seconds by which the tapes have grown. */
  ghost function NewSeconds(a: map<int, seq<Append>>, b: map<int, seq<Append>>): iset<(int, int)> {
    iset p: (int, int) | Length(TapeOn(a, p.0)) <= p.1 < Length(TapeOn(b, p.0))
  }

  ghost predicate OnTapes(missing: iset<(int, int)>, tapes: map<int, seq<Append>>) {
    forall p :: p in missing ==> 0 <= p.1 < Length(TapeOn(tapes, p.0))
  }

  lemma {:induction false} WholeConstant(missing: iset<(int, int)>, d: int, a: seq<Append>, off: nat)
    requires forall x :: off <= x < off + Length(a) ==> ((d, x) in missing <==> (d, off) in missing)
    ensures WholePieces(missing, d, a, off)
  {
    if |a| > 0 {
      forall x | off + a[0].delta <= x < off + Length(a)
        ensures (d, x) in missing <==> (d, off + a[0].delta) in missing
      {
      }
      WholeConstant(missing, d, a[1..], off + a[0].delta);
    }
  }

  /** A tape with whole missing pieces grows by a part that is missing entirely or not at all. */
  lemma {:induction false} WholeGrows(missing: iset<(int, int)>, missing': iset<(int, int)>, d: int, a: seq<Append>,
                                      more: seq<Append>, off: nat)
    requires WholePieces(missing, d, a, off)
    requires forall x :: off <= x < off + Length(a) ==> ((d, x) in missing' <==> (d, x) in missing)
    requires var mid := off + Length(a);
             forall x :: mid <= x < mid + Length(more) ==> ((d, x) in missing' <==> (d, mid) in missing')
    ensures WholePieces(missing', d, a + more, off)
  {
    if |a| == 0 {
      assert a + more == more;
      WholeConstant(missing', d, more, off);
    } else {
      assert (a + more)[1..] == a[1..] + more;
      WholeGrows(missing, missing', d, a[1..], more, off + a[0].delta);
      if a[0].delta > 0 {
        assert (d, off) in missing' <==> (d, off) in missing;
      }
    }
  }

  lemma PiecesGrow(missing: iset<(int, int)>, missing': iset<(int, int)>, tapes: map<int, seq<Append>>,
                   tapes': map<int, seq<Append>>, d: int)
    requires WholePieces(missing, d, TapeOn(tapes, d), 0) && TapeOn(tapes, d) <= TapeOn(tapes', d)
    requires OnTapes(missing, tapes) && (missing' == missing || missing' == missing + NewSeconds(tapes, tapes'))
    ensures WholePieces(missing', d, TapeOn(tapes', d), 0)
  {
    hide WholePieces, Length;
    var a, b := TapeOn(tapes, d), TapeOn(tapes', d);
    GrownLength(a, b);
    forall x | Length(a) <= x < Length(b) ensures (d, x) in missing' <==> missing' != missing || (d, x) in missing {
      assert (d, x) !in missing;
      assert (d, x) in NewSeconds(tapes, tapes');
    }
    WholeGrows(missing, missing', d, a, b[|a|..], 0);
  }

  /** A tape that a run has grown, in terms of its events and its seconds. */
  ghost predicate RunGrowth(member: string, c: Calendar, tapes: map<int, seq<Append>>, tapes': map<int, seq<Append>>,
                            events: seq<RequestEvent>) {
    && SoundTapes(member, c, tapes) && SoundTapes(member, c, tapes')
    && (forall d :: TapeOn(tapes, d) <= TapeOn(tapes', d))
    && (forall e :: InTapes(e, member, c, tapes') <==> InTapes(e, member, c, tapes) || e in events)
    && (forall e :: e in events ==> NewIn(e, member, c, tapes, tapes'))
  }

  ghost predicate NewIn(e: RequestEvent, member: string, c: Calendar, tapes: map<int, seq<Append>>,
                        tapes': map<int, seq<Append>>) {
    exists d :: OnDay(e, member, c, tapes', d) && SecondOf(e) >= Length(TapeOn(tapes, d))
  }

  lemma RunGrown(member: string, c: Calendar, sent: map<int, map<string, nat>>, tapes: map<int, seq<Append>>,
                 usage: seq<DayUsage>, horizon: int)
    requires Tracks(sent, tapes, horizon) && SoundTapes(member, c, tapes) && ValidUsage(c, usage, horizon)
    ensures RunGrowth(member, c, tapes, RunTapes(tapes, sent, usage), RunEvents(member, c, sent, usage))
    ensures Tracks(RunSent(sent, usage), RunTapes(tapes, sent, usage), horizon)
  {
    hide RunEvents, RunTapes, RunSent, Matches, Length, InTapes, OnDay, ValidUsage;
    var tapes' := RunTapes(tapes, sent, usage);
    RunTracks(member, c, sent, tapes, usage, horizon);
    RunOnDays(c, sent, tapes, usage, horizon);
    forall d ensures TapeOn(tapes, d) <= TapeOn(tapes', d) {
      TapesGrow(tapes, sent, usage, d);
    }
    forall e | e in RunEvents(member, c, sent, usage) ensures NewIn(e, member, c, tapes, tapes') {
      var d := RunEventIsNew(member, c, sent, tapes, usage, horizon, e);
    }
  }

  /** On the grown tapes an event of a day is old or new as its second is. */
  lemma OldOrNew(e: RequestEvent, d: int, member: string, c: Calendar, tapes: map<int, seq<Append>>,
                 tapes': map<int, seq<Append>>, events: seq<RequestEvent>)
    requires RunGrowth(member, c, tapes, tapes', events) && OnDay(e, member, c, tapes', d)
    ensures SecondOf(e) < Length(TapeOn(tapes', d))
    ensures if SecondOf(e) < Length(TapeOn(tapes, d)) then OnDay(e, member, c, tapes, d)
            else !InTapes(e, member, c, tapes)
    ensures SecondOf(e) < Length(TapeOn(tapes, d)) ==> forall e' :: e' in events ==> e'.eventId != e.eventId
  {
    hide TapeOf, Length;
    var r := Reel(member, c, d);
    OldPart(r, TapeOn(tapes, d), TapeOn(tapes', d), e);
    if InTapes(e, member, c, tapes) {
      var k :| OnDay(e, member, c, tapes, k);
      StillOn(e, member, c, tapes, tapes', k);
      OldPart(Reel(member, c, k), TapeOn(tapes, k), TapeOn(tapes', k), e);
      OneTapeOnly(e, e, member, c, tapes', d, k);
    }
    if SecondOf(e) < Length(TapeOn(tapes, d)) {
      forall e' | e' in events ensures e'.eventId != e.eventId {
        assert NewIn(e', member, c, tapes, tapes');
        var k :| OnDay(e', member, c, tapes', k) && SecondOf(e') >= Length(TapeOn(tapes, k));
        if e'.eventId == e.eventId {
          OneTapeOnly(e, e', member, c, tapes', d, k);
        }
      }
    }
  }

  lemma StillOn(e: RequestEvent, member: string, c: Calendar, tapes: map<int, seq<Append>>,
                tapes': map<int, seq<Append>>, d: int)
    requires TapeOn(tapes, d) <= TapeOn(tapes', d) && OnDay(e, member, c, tapes, d)
    ensures OnDay(e, member, c, tapes', d)
  {
    hide TapeOf, Length;
    var a, b := TapeOn(tapes, d), TapeOn(tapes', d);
    GrownLength(a, b);
    TapeConcat(Reel(member, c, d), a, b[|a|..], 0);
  }

  lemma ExplainedStays(rows: seq<Event>, device: int, member: string, c: Calendar, tapes: map<int, seq<Append>>,
                       tapes': map<int, seq<Append>>, events: seq<RequestEvent>)
    requires AllExplained(rows, device, member, c, tapes) && RunGrowth(member, c, tapes, tapes', events)
    ensures AllExplained(rows, device, member, c, tapes')
  {
    hide InTapes, RowFrom, OnDay, SoundTapes, NewIn;
    forall row | row in rows ensures Explained(row, device, member, c, tapes') {
      assert Explained(row, device, member, c, tapes);
      var e :| InTapes(e, member, c, tapes) && RowFrom(row, device, e);
      assert InTapes(e, member, c, tapes');
    }
  }

  /** A run whose events all get through leaves nothing more missing. */
  lemma PostedRun(rows: seq<Event>, device: int, member: string, c: Calendar, tapes: map<int, seq<Append>>,
                  tapes': map<int, seq<Append>>, events: seq<RequestEvent>, missing: iset<(int, int)>)
    requires GapTable(rows, device, member, c, tapes, missing) && OnTapes(missing, tapes) && ValidRows(rows)
    requires RunGrowth(member, c, tapes, tapes', events) && GoodEvents(events)
    ensures var rows' := InsertAll(rows, device, NormalisedAll(events));
            GapTable(rows', device, member, c, tapes', missing) && ValidRows(rows')
  {
    hide TapeOf, WholePieces, FreshIds, Normalised, Explained, Held, SoundTapes, RowFrom;
    var rows' := InsertAll(rows, device, NormalisedAll(events));
    InsertAllValid(rows, device, NormalisedAll(events));
    ExplainedStays(rows, device, member, c, tapes, tapes', events);
    InsertedRows(rows, device, member, c, tapes', events);
    forall e, d | OnDay(e, member, c, tapes', d)
      ensures if (d, SecondOf(e)) in missing then !Known(rows', e.eventId) else Held(rows', device, e)
    {
      OldOrNew(e, d, member, c, tapes, tapes', events);
      PostedElement(e, d, rows, device, member, c, tapes, tapes', events, missing);
    }
    forall d ensures WholePieces(missing, d, TapeOn(tapes', d), 0) {
      PiecesGrow(missing, missing, tapes, tapes', d);
    }
  }

  lemma PostedElement(e: RequestEvent, d: int, rows: seq<Event>, device: int, member: string, c: Calendar,
                      tapes: map<int, seq<Append>>, tapes': map<int, seq<Append>>, events: seq<RequestEvent>,
                      missing: iset<(int, int)>)
    requires GapTable(rows, device, member, c, tapes, missing) && OnTapes(missing, tapes) && ValidRows(rows)
    requires RunGrowth(member, c, tapes, tapes', events) && GoodEvents(events) && OnDay(e, member, c, tapes', d)
    requires forall x :: x in events ==> Held(InsertAll(rows, device, NormalisedAll(events)), device, x)
    ensures var rows' := InsertAll(rows, device, NormalisedAll(events));
            if (d, SecondOf(e)) in missing then !Known(rows', e.eventId) else Held(rows', device, e)
  {
    hide TapeOf, WholePieces, FreshIds, Explained, Held, SoundTapes, RowFrom, AllExplained, OnDay, Length, Trim;
    var rows' := InsertAll(rows, device, NormalisedAll(events));
    OldOrNew(e, d, member, c, tapes, tapes', events);
    InsertAllValid(rows, device, NormalisedAll(events));
    if (d, SecondOf(e)) in missing {
      assert OnDay(e, member, c, tapes, d);
      forall i | 0 <= i < |events| ensures NormalisedAll(events)[i].uuid != e.eventId {
        assert events[i] in events;
        NewId(events[i], member, c, tapes');
      }
    } else if SecondOf(e) < Length(TapeOn(tapes, d)) {
      HeldGrows(rows, rows', device, e);
    } else {
      assert InTapes(e, member, c, tapes');
    }
  }

  lemma NewId(e: RequestEvent, member: string, c: Calendar, tapes': map<int, seq<Append>>)
    requires SoundTapes(member, c, tapes') && InTapes(e, member, c, tapes')
    ensures WellFormed(e) && Normalised(e).uuid == e.eventId
  {
    var r := InTapesOrigin(e, member, c, tapes');
  }

  /** A run that is recorded though none of its events got through: all it added is missing. */
  lemma MissedRun(rows: seq<Event>, device: int, member: string, c: Calendar, tapes: map<int, seq<Append>>,
                  tapes': map<int, seq<Append>>, events: seq<RequestEvent>, missing: iset<(int, int)>)
    requires GapTable(rows, device, member, c, tapes, missing) && OnTapes(missing, tapes)
    requires RunGrowth(member, c, tapes, tapes', events)
    ensures var missing' := missing + NewSeconds(tapes, tapes');
            GapTable(rows, device, member, c, tapes', missing') && OnTapes(missing', tapes')
  {
    hide TapeOf, WholePieces, Explained, Held, SoundTapes, RowFrom, Length;
    var missing' := missing + NewSeconds(tapes, tapes');
    ExplainedStays(rows, device, member, c, tapes, tapes', events);
    forall e, d | OnDay(e, member, c, tapes', d)
      ensures if (d, SecondOf(e)) in missing' then !Known(rows, e.eventId) else Held(rows, device, e)
    {
      OldOrNew(e, d, member, c, tapes, tapes', events);
      if SecondOf(e) >= Length(TapeOn(tapes, d)) {
        assert (d, SecondOf(e)) in NewSeconds(tapes, tapes');
        NotKnown(e, rows, device, member, c, tapes, tapes', events);
      } else {
        assert (d, SecondOf(e)) !in NewSeconds(tapes, tapes');
        assert OnDay(e, member, c, tapes, d);
      }
    }
    forall d ensures WholePieces(missing', d, TapeOn(tapes', d), 0) {
      PiecesGrow(missing, missing', tapes, tapes', d);
    }
    forall p | p in missing' ensures 0 <= p.1 < Length(TapeOn(tapes', p.0)) {
      GrownLength(TapeOn(tapes, p.0), TapeOn(tapes', p.0));
    }
  }

  lemma NotKnown(e: RequestEvent, rows: seq<Event>, device: int, member: string, c: Calendar,
                 tapes: map<int, seq<Append>>, tapes': map<int, seq<Append>>, events: seq<RequestEvent>)
    requires AllExplained(rows, device, member, c, tapes) && RunGrowth(member, c, tapes, tapes', events)
    requires InTapes(e, member, c, tapes') && !InTapes(e, member, c, tapes)
    ensures !Known(rows, e.eventId)
  {
    hide TapeOf, OnDay, Length;
    if Known(rows, e.eventId) {
      var i :| 0 <= i < |rows| && rows[i].uuid == e.eventId;
      assert Explained(rows[i], device, member, c, tapes);
      var x :| InTapes(x, member, c, tapes) && RowFrom(rows[i], device, x);
      assert InTapes(x, member, c, tapes');
      NewId(x, member, c, tapes');
      OneIdOneEvent(e, x, member, c, tapes');
    }
  }
}
