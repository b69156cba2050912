/** The server's report on a table that holds the tapes gives back exactly what was laid on them. */
module TapeUsage {
  import opened Observations
  import opened Reports
  import opened UsageLaws
  import opened WindowLaws
  import opened Intake
  import opened Tape
  import opened Collector

  /** The app the tape shows at second x of the day. */
  function AppAt(a: seq<Append>, off: nat, x: nat): Option<string> {
    if |a| == 0 then None
    else if x < off + a[0].delta then Some(a[0].app)
    else AppAt(a[1..], off + a[0].delta, x)
  }

  function TotalFor(a: seq<Append>, who: Who): nat {
    match who case Everyone => Length(a) case Process(p) => Total(a, p)
  }

  predicate Shows(a: seq<Append>, off: nat, x: nat, who: Who) {
    var app := AppAt(a, off, x);
    app.Some? && (who == Everyone || who == Process(app.value))
  }

  function ShownFrom(a: seq<Append>, off: nat, x: nat, who: Who): nat
    decreases off + Length(a) - x
  {
    if x >= off + Length(a) then 0
    else (if Shows(a, off, x, who) then 1 else 0) + ShownFrom(a, off, x + 1, who)
  }

  lemma {:induction false} ShownRest(a: seq<Append>, off: nat, x: nat, who: Who)
    requires |a| > 0 && x >= off + a[0].delta
    ensures ShownFrom(a, off, x, who) == ShownFrom(a[1..], off + a[0].delta, x, who)
    decreases off + Length(a) - x
  {
    if x < off + Length(a) {
      ShownRest(a, off, x + 1, who);
    }
  }

  lemma {:induction false} ShownFirst(a: seq<Append>, off: nat, x: nat, who: Who)
    requires |a| > 0 && x <= off + a[0].delta
    ensures ShownFrom(a, off, x, who)
         == (if who == Everyone || who == Process(a[0].app) then off + a[0].delta - x else 0)
            + ShownFrom(a[1..], off + a[0].delta, off + a[0].delta, who)
    decreases off + a[0].delta - x
  {
    if x < off + a[0].delta {
      ShownFirst(a, off, x + 1, who);
    } else {
      ShownRest(a, off, x, who);
    }
  }

  lemma {:induction false} ShownIsTotal(a: seq<Append>, off: nat, who: Who)
    ensures ShownFrom(a, off, off, who) == TotalFor(a, who)
  {
    if |a| > 0 {
      ShownFirst(a, off, off, who);
      ShownIsTotal(a[1..], off + a[0].delta, who);
    }
  }

  lemma {:induction false} ShowsWithin(a: seq<Append>, off: nat, x: nat)
    requires off <= x
    ensures AppAt(a, off, x).Some? <==> x < off + Length(a)
  {
    if |a| > 0 && x >= off + a[0].delta {
      ShowsWithin(a[1..], off + a[0].delta, x);
    }
  }

  /** A heartbeat is followed by the terminator of its segment, and its app shows until then. */
  lemma {:induction false} BeatRules(r: Reel, a: seq<Append>, off: nat, e: RequestEvent) returns (o: nat, end: nat)
    requires ValidAppends(a) && e in TapeOf(r, a, off) && e.state == "active"
    ensures off <= o < end <= off + Length(a) && e == Beat(r, e.process, o) && ValidApp(e.process)
    ensures Terminator(r, end) in TapeOf(r, a, off)
    ensures forall x :: o <= x < end ==> AppAt(a, off, x) == Some(e.process)
  {
    assert a[0] in a;
    if e in BeatsFrom(r, a[0].app, off, a[0].delta, 0) {
      BeatsMember(r, a[0].app, off, a[0].delta, 0, e);
      var x: nat :| off <= x < off + a[0].delta && IsBeat(r, e, a[0].app, x);
      o, end := x, off + a[0].delta;
      assert Terminator(r, end) in Piece(r, a[0], off);
    } else {
      assert e in TapeOf(r, a[1..], off + a[0].delta);
      o, end := BeatRules(r, a[1..], off + a[0].delta, e);
    }
  }

  lemma {:induction false} BeatCovers(r: Reel, app: string, off: nat, delta: nat, k: nat, x: nat) returns (o: nat)
    requires off + k <= x < off + delta
    ensures Beat(r, app, o) in BeatsFrom(r, app, off, delta, k) && off <= o <= x < o + HEARTBEAT_SECONDS
    decreases delta - k
  {
    BeatsCons(r, app, off, delta, k);
    if x < off + k + HEARTBEAT_SECONDS {
      o := off + k;
    } else {
      o := BeatCovers(r, app, off, delta, k + HEARTBEAT_SECONDS, x);
    }
  }

  /** The only idle event of a piece is the terminator at its end. */
  lemma IdleOfPiece(r: Reel, a: Append, off: nat, e: RequestEvent)
    requires e in Piece(r, a, off) && e.state == "idle"
    ensures e.sequence == 2 * (off + a.delta)
  {
    if e in BeatsFrom(r, a.app, off, a.delta, 0) {
      BeatsMember(r, a.app, off, a.delta, 0, e);
    }
  }

  lemma IdleAfter(r: Reel, a: seq<Append>, off: nat, e: RequestEvent)
    requires ValidAppends(a) && |a| > 0 && e in TapeOf(r, a, off) && e.state == "idle"
    ensures e.sequence >= 2 * (off + a[0].delta)
    ensures e.sequence == 2 * (off + a[0].delta) || e in TapeOf(r, a[1..], off + a[0].delta)
  {
    assert a[0] in a;
    if e in Piece(r, a[0], off) {
      IdleOfPiece(r, a[0], off, e);
    } else {
      TapeClimbs(r, a[1..], off + a[0].delta);
    }
  }

  /** Each second of the tape is covered by a heartbeat at most 240 s old that no terminator follows. */
  lemma {:induction false} BeatBelow(r: Reel, a: seq<Append>, off: nat, x: nat) returns (app: string, o: nat)
    requires ValidAppends(a) && off <= x < off + Length(a)
    ensures Beat(r, app, o) in TapeOf(r, a, off) && off <= o <= x < o + HEARTBEAT_SECONDS
    ensures forall e :: e in TapeOf(r, a, off) && e.state == "idle" && e.sequence <= 2 * x + 1 ==> e.sequence <= 2 * o
  {
    hide Beat, Terminator;
    var next := off + a[0].delta;
    if x < next {
      app := a[0].app;
      o := BeatCovers(r, app, off, a[0].delta, 0, x);
    } else {
      app, o := BeatBelow(r, a[1..], next, x);
    }
    forall e | e in TapeOf(r, a, off) && e.state == "idle" && e.sequence <= 2 * x + 1 ensures e.sequence <= 2 * o {
      IdleAfter(r, a, off, e);
    }
  }

  /** Every tape ends before the next midnight. */
  ghost predicate ShortTapes(c: Calendar, tapes: map<int, seq<Append>>) {
    forall d :: c.Has(d) ==> Length(TapeOn(tapes, d)) < c.midnight(d + 1) - c.midnight(d)
  }

  lemma LaterDay(c: Calendar, d: int, d': int)
    requires ValidCalendar(c) && c.Has(d) && c.Has(d') && d < d'
    ensures c.midnight(d + 1) <= c.midnight(d')
  {
    if d + 1 < d' { assert c.midnight(d + 1) < c.midnight(d'); }
  }

  lemma TapeElement(r: Reel, a: seq<Append>, e: RequestEvent)
    requires ValidAppends(a) && e in TapeOf(r, a, 0)
    ensures e.at == (r.calendar.midnight(r.day) + e.sequence / 2) * NS_PER_SECOND
    ensures 0 <= e.sequence / 2 <= Length(a)
  {
    hide TapeOf;
    TapeClimbs(r, a, 0);
    var i :| 0 <= i < |TapeOf(r, a, 0)| && TapeOf(r, a, 0)[i] == e;
  }

  lemma RowFromEvent(row: Event, device: int, r: Reel, e: RequestEvent)
    requires OnTape(r, e) && AfterYearOne(r) && RowFrom(row, device, e)
    ensures row.at == e.at && row.sequence == e.sequence
    ensures (row.state == Active <==> e.state == "active") && (e.state == "active" || e.state == "idle")
    ensures row.state == Active ==> row.process == e.process
  {
    OnTapeWellFormed(r, e);
    var tag, off := Origin(r, e);
  }

  /** The event behind a row, and the day it is on. */
  lemma ExplainedOrigin(row: Event, device: int, member: string, c: Calendar, tapes: map<int, seq<Append>>)
    returns (r: Reel, e: RequestEvent)
    requires SoundTapes(member, c, tapes) && Explained(row, device, member, c, tapes)
    ensures r == Reel(member, c, r.day) && c.Has(r.day)
    ensures e in TapeOf(r, TapeOn(tapes, r.day), 0) && RowFrom(row, device, e)
    ensures row.at == e.at == (c.midnight(r.day) + e.sequence / 2) * NS_PER_SECOND && row.sequence == e.sequence
    ensures (row.state == Active <==> e.state == "active") && (e.state == "active" || e.state == "idle")
    ensures row.state == Active ==> row.process == e.process
    ensures 0 <= e.sequence / 2 <= Length(TapeOn(tapes, r.day))
  {
    e :| InTapes(e, member, c, tapes) && RowFrom(row, device, e);
    r := InTapesOrigin(e, member, c, tapes);
    RowFromEvent(row, device, r, e);
    TapeElement(r, TapeOn(tapes, r.day), e);
  }

  lemma RowOrigin(row: Event, rows: seq<Event>, device: int, member: string, c: Calendar, tapes: map<int, seq<Append>>)
    returns (r: Reel, e: RequestEvent)
    requires SoundTapes(member, c, tapes) && Faithful(rows, device, member, c, tapes) && row in rows
    ensures r == Reel(member, c, r.day) && c.Has(r.day)
    ensures e in TapeOf(r, TapeOn(tapes, r.day), 0) && RowFrom(row, device, e)
    ensures row.at == e.at == (c.midnight(r.day) + e.sequence / 2) * NS_PER_SECOND && row.sequence == e.sequence
    ensures (row.state == Active <==> e.state == "active") && (e.state == "active" || e.state == "idle")
    ensures row.state == Active ==> row.process == e.process
    ensures 0 <= e.sequence / 2 <= Length(TapeOn(tapes, r.day))
  {
    assert Explained(row, device, member, c, tapes);
    r, e := ExplainedOrigin(row, device, member, c, tapes);
  }

  lemma HeldRow(e: RequestEvent, rows: seq<Event>, device: int) returns (row: Event)
    requires Held(rows, device, e)
    ensures row in rows && RowFrom(row, device, e) && row.at == e.at && row.sequence == e.sequence
  {
    row :| row in rows && RowFrom(row, device, e);
  }

  lemma RowHeld(e: RequestEvent, r: Reel, rows: seq<Event>, device: int, member: string, c: Calendar,
                tapes: map<int, seq<Append>>)
    returns (row: Event)
    requires SoundTapes(member, c, tapes) && Faithful(rows, device, member, c, tapes)
    requires r == Reel(member, c, r.day) && e in TapeOf(r, TapeOn(tapes, r.day), 0)
    ensures row in rows && row.at == e.at && row.sequence == e.sequence
  {
    assert OnDay(e, member, c, tapes, r.day);
    assert Held(rows, device, e);
    row := HeldRow(e, rows, device);
  }

  /** A heartbeat that is newest at second x of day d is on that day's tape and shows at x. */
  lemma NewestBeatShows(n: Event, rows: seq<Event>, device: int, member: string, c: Calendar,
                        tapes: map<int, seq<Append>>, d: int, x: nat)
    requires SoundTapes(member, c, tapes) && ShortTapes(c, tapes) && Faithful(rows, device, member, c, tapes)
    requires c.Has(d) && x < c.midnight(d + 1) - c.midnight(d)
    requires LatestAt(rows, (c.midnight(d) + x) * NS_PER_SECOND) == Some(n) && n.state == Active
    ensures AppAt(TapeOn(tapes, d), 0, x) == Some(n.process) && n.process != ""
  {
    var t := (c.midnight(d) + x) * NS_PER_SECOND;
    var r, e := RowOrigin(n, rows, device, member, c, tapes);
    var a := TapeOn(tapes, r.day);
    var o, end := BeatRules(r, a, 0, e);
    var terminator := RowHeld(Terminator(r, end), r, rows, device, member, c, tapes);
    LatestAtIsNewest(rows, t);
    assert c.midnight(r.day) + o <= c.midnight(d) + x < c.midnight(r.day) + end;
    if r.day < d {
      LaterDay(c, r.day, d);
    } else if d < r.day {
      LaterDay(c, d, r.day);
    }
  }

  /** While the tape runs, the newest row is a heartbeat at most 240 s old. */
  lemma TapeIsFresh(rows: seq<Event>, device: int, member: string, c: Calendar,
                    tapes: map<int, seq<Append>>, d: int, x: nat) returns (n: Event)
    requires SoundTapes(member, c, tapes) && ShortTapes(c, tapes) && Faithful(rows, device, member, c, tapes)
    requires c.Has(d) && x < Length(TapeOn(tapes, d))
    ensures LatestAt(rows, (c.midnight(d) + x) * NS_PER_SECOND) == Some(n) && n.state == Active
    ensures (c.midnight(d) + x) * NS_PER_SECOND - n.at < HEARTBEAT_SECONDS * NS_PER_SECOND
  {
    var t := (c.midnight(d) + x) * NS_PER_SECOND;
    var reel := Reel(member, c, d);
    var app, o := BeatBelow(reel, TapeOn(tapes, d), 0, x);
    var beat := RowHeld(Beat(reel, app, o), reel, rows, device, member, c, tapes);
    LatestAtIsNewest(rows, t);
    n := LatestAt(rows, t).value;
    var r, e := RowOrigin(n, rows, device, member, c, tapes);
    SameDay(c, r.day, e.sequence / 2, d, o, x, Length(TapeOn(tapes, r.day)));
  }

  /** A row no older than second o of day d and no newer than second x is on day d. */
  lemma SameDay(c: Calendar, day: int, off: nat, d: int, o: nat, x: nat, length: nat)
    requires ValidCalendar(c) && c.Has(day) && c.Has(d) && off <= length < c.midnight(day + 1) - c.midnight(day)
    requires x < c.midnight(d + 1) - c.midnight(d)
    requires c.midnight(d) + o <= c.midnight(day) + off <= c.midnight(d) + x
    ensures day == d && o <= off <= x
  {
    if day < d {
      LaterDay(c, day, d);
    } else if d < day {
      LaterDay(c, d, day);
    }
  }

  ghost predicate GapCovers(maxGap: int) {
    maxGap <= 0 || maxGap >= HEARTBEAT_SECONDS * NS_PER_SECOND
  }

  /** At every second of a day the table shows what the day's tape shows. */
  lemma SecondShows(rows: seq<Event>, device: int, member: string, c: Calendar, tapes: map<int, seq<Append>>,
                    d: int, x: nat, who: Who, maxGap: int)
    requires SoundTapes(member, c, tapes) && ShortTapes(c, tapes) && Faithful(rows, device, member, c, tapes)
    requires c.Has(d) && x < c.midnight(d + 1) - c.midnight(d) && GapCovers(maxGap)
    ensures InUse(rows, (c.midnight(d) + x) * NS_PER_SECOND, who, maxGap) <==> Shows(TapeOn(tapes, d), 0, x, who)
  {
    ShowsWithin(TapeOn(tapes, d), 0, x);
    if x < Length(TapeOn(tapes, d)) {
      var n := TapeIsFresh(rows, device, member, c, tapes, d, x);
      NewestBeatShows(n, rows, device, member, c, tapes, d, x);
    } else {
      var newest := LatestAt(rows, (c.midnight(d) + x) * NS_PER_SECOND);
      if newest.Some? && newest.value.state == Active {
        NewestBeatShows(newest.value, rows, device, member, c, tapes, d, x);
      }
    }
  }

  lemma {:induction false} TapeSeconds(rows: seq<Event>, device: int, member: string, c: Calendar,
                                       tapes: map<int, seq<Append>>, d: int, x: nat, who: Who, maxGap: int)
    requires SoundTapes(member, c, tapes) && ShortTapes(c, tapes) && Faithful(rows, device, member, c, tapes)
    requires c.Has(d) && GapCovers(maxGap) && x <= Length(TapeOn(tapes, d))
    ensures Instants(rows, (c.midnight(d) + x) * NS_PER_SECOND,
                     (c.midnight(d) + Length(TapeOn(tapes, d))) * NS_PER_SECOND, NS_PER_SECOND, who, maxGap)
         == ShownFrom(TapeOn(tapes, d), 0, x, who)
    decreases Length(TapeOn(tapes, d)) - x
  {
    if x < Length(TapeOn(tapes, d)) {
      SecondShows(rows, device, member, c, tapes, d, x, who, maxGap);
      TapeSeconds(rows, device, member, c, tapes, d, x + 1, who, maxGap);
    }
  }

  lemma RowsWhole(rows: seq<Event>, device: int, member: string, c: Calendar, tapes: map<int, seq<Append>>)
    requires SoundTapes(member, c, tapes) && AllExplained(rows, device, member, c, tapes)
    ensures WholeStamps(rows)
  {
    hide TapeOf, Length, SoundTapes, RowFrom, Explained;
    forall row | row in rows ensures Whole(row.at) {
      assert Explained(row, device, member, c, tapes);
      var r, e := ExplainedOrigin(row, device, member, c, tapes);
    }
  }

  /** After the tape nothing is in use for the rest of the day. */
  lemma QuietAfterTape(rows: seq<Event>, device: int, member: string, c: Calendar, tapes: map<int, seq<Append>>,
                       d: int, limit: int, who: Who, maxGap: int)
    requires SoundTapes(member, c, tapes) && ShortTapes(c, tapes) && Faithful(rows, device, member, c, tapes)
    requires c.Has(d) && GapCovers(maxGap) && Whole(maxGap)
    requires (c.midnight(d) + Length(TapeOn(tapes, d))) * NS_PER_SECOND <= limit <= c.midnight(d + 1) * NS_PER_SECOND
    ensures Instants(rows, (c.midnight(d) + Length(TapeOn(tapes, d))) * NS_PER_SECOND, limit, 1, who, maxGap) == 0
  {
    var from := (c.midnight(d) + Length(TapeOn(tapes, d))) * NS_PER_SECOND;
    RowsWhole(rows, device, member, c, tapes);
    forall t | from <= t < limit ensures !InUse(rows, t, who, maxGap) {
      var x := t / NS_PER_SECOND - c.midnight(d);
      assert t == (c.midnight(d) + x) * NS_PER_SECOND + t % NS_PER_SECOND;
      SecondShows(rows, device, member, c, tapes, d, x, who, maxGap);
      ShowsWithin(TapeOn(tapes, d), 0, x);
      InUseWithinSecond(rows, (c.midnight(d) + x) * NS_PER_SECOND, t % NS_PER_SECOND, who, maxGap);
    }
    InstantsStretch(rows, from, from, limit, who, maxGap);
  }

  /** A report that runs past the last use is the report up to it, whatever the rest of now is. */
  lemma QuietTail(events: seq<Event>, start: int, quiet: int, end: int, now: int, maxGap: int, who: Who)
    requires WholeStamps(events) && Whole(start) && Whole(quiet) && Whole(maxGap)
    requires start <= quiet <= end && EffectiveNow(end, now) >= quiet
    requires Instants(events, quiet, EffectiveNow(end, now), 1, who, maxGap) == 0
    ensures Usage(events, start, end, now, maxGap, who, NS_PER_SECOND)
         == Usage(events, start, quiet, quiet, maxGap, who, NS_PER_SECOND)
  {
    var left := Usage(events, start, quiet, quiet, maxGap, who, NS_PER_SECOND);
    assert Usage(events, start, quiet, now, maxGap, who, NS_PER_SECOND) == left;
    UsageIsPointwise(events, quiet, end, now, maxGap, who);
    UsageCut(events, start, quiet, end, now, maxGap, who, 1);
    UsageCut(events, start, quiet, end, now, maxGap, who, NS_PER_SECOND);
    UsageWhole(events, start, quiet, quiet, maxGap, who);
    UsageBounds(events, start, end, now, maxGap, who);
    UsageBounds(events, quiet, end, now, maxGap, who);
  }

  /** The report over a day gives every app exactly its part of the day's tape. */
  lemma DayReport(rows: seq<Event>, device: int, member: string, c: Calendar, tapes: map<int, seq<Append>>,
                  d: int, now: int, maxGap: int, who: Who)
    requires SoundTapes(member, c, tapes) && ShortTapes(c, tapes) && Faithful(rows, device, member, c, tapes)
    requires c.Has(d) && GapCovers(maxGap) && Whole(maxGap)
    requires now == ZERO_TIME || now >= (c.midnight(d) + Length(TapeOn(tapes, d))) * NS_PER_SECOND
    ensures Usage(rows, c.midnight(d) * NS_PER_SECOND, c.midnight(d + 1) * NS_PER_SECOND, now, maxGap, who,
                  NS_PER_SECOND)
         == TotalFor(TapeOn(tapes, d), who)
  {
    var start, end := c.midnight(d) * NS_PER_SECOND, c.midnight(d + 1) * NS_PER_SECOND;
    var quiet := (c.midnight(d) + Length(TapeOn(tapes, d))) * NS_PER_SECOND;
    RowsWhole(rows, device, member, c, tapes);
    QuietAfterTape(rows, device, member, c, tapes, d, EffectiveNow(end, now), who, maxGap);
    QuietTail(rows, start, quiet, end, now, maxGap, who);
    UsageCountsSeconds(rows, start, quiet, quiet, maxGap, who);
    TapeSeconds(rows, device, member, c, tapes, d, 0, who, maxGap);
    ShownIsTotal(TapeOn(tapes, d), 0, who);
  }
}
