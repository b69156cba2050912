/** A collector that has lost its state file lays every day's totals out again from midnight. When
    that leaves the stored tape alone, and what happens to the reports when it does not. */
module LostState {
  import opened Observations
  import opened Reports
  import opened UsageLaws
  import opened EventStore
  import opened Intake
  import opened Names
  import opened Tape
  import opened Collector
  import opened TapeUsage
  import opened CollectorRuns

  // ---- the tape of a fresh run ------------------------------------------------

  ghost predicate Distinct(a: seq<Append>) {
    forall i, j :: 0 <= i < j < |a| ==> a[i].app != a[j].app
  }

  ghost predicate DistinctApps(apps: seq<Scraped>) {
    forall i, j :: 0 <= i < j < |apps| ==> apps[i].app != apps[j].app
  }

  /** A run without state lays every scraped app down once, in full. */
  lemma {:induction false} FreshDeltas(apps: seq<Scraped>)
    requires DistinctApps(apps)
    ensures Distinct(Deltas(map[], apps))
    ensures forall i :: 0 <= i < |Deltas(map[], apps)| ==>
              exists k :: 0 <= k < |apps| && apps[k].app == Deltas(map[], apps)[i].app
    ensures forall app :: (forall k :: 0 <= k < |apps| ==> apps[k].app != app) ==> app !in Grow(map[], apps)
  {
    if |apps| > 0 {
      var front := apps[..|apps| - 1];
      FreshDeltas(front);
      assert apps[|apps| - 1].app !in Grow(map[], front);
    }
  }

  lemma {:induction false} TotalOfAbsent(a: seq<Append>, app: string)
    requires forall i :: 0 <= i < |a| ==> a[i].app != app
    ensures Total(a, app) == 0
  {
    if |a| > 0 {
      TotalOfAbsent(a[1..], app);
    }
  }

  /** A terminator on a tape stands at the end of the first piece or later; a heartbeat where the tape
      begins belongs to the first app. */
  lemma FirstPiece(r: Reel, b: seq<Append>, off: nat, e: RequestEvent)
    requires ValidAppends(b) && e in TapeOf(r, b, off)
    ensures |b| > 0
    ensures forall app :: e == Beat(r, app, off) ==> app == b[0].app
    ensures forall o: nat :: e == Terminator(r, o) ==> o >= off + b[0].delta
  {
    hide EventName, BeatsFrom;
    var first, next := b[0], off + b[0].delta;
    assert first in b;
    if e in TapeOf(r, b[1..], next) {
      TapeClimbs(r, b[1..], next);
      assert e.sequence >= next * 2 + 1;
    } else if e in BeatsFrom(r, first.app, off, first.delta, 0) {
      BeatsMember(r, first.app, off, first.delta, 0, e);
    }
  }

  lemma PastFirstPiece(r: Reel, b: seq<Append>, off: nat, e: RequestEvent)
    requires ValidAppends(b) && |b| > 0 && e in TapeOf(r, b, off) && e.sequence > (off + b[0].delta) * 2
    ensures e in TapeOf(r, b[1..], off + b[0].delta)
  {
    assert b[0] in b;
    PieceClimbs(r, b[0], off);
  }

  ghost predicate AllOn(r: Reel, a: seq<Append>, b: seq<Append>, off: nat) {
    forall e :: e in TapeOf(r, a, off) ==> e in TapeOf(r, b, off)
  }

  lemma BeginningOn(r: Reel, a: seq<Append>, off: nat)
    requires |a| > 0 && a[0].delta > 0
    ensures Beat(r, a[0].app, off) in TapeOf(r, a, off) && Terminator(r, off + a[0].delta) in TapeOf(r, a, off)
  {
    var piece := Piece(r, a[0], off);
    assert piece[0] == Beat(r, a[0].app, off) && piece[|piece| - 1] == Terminator(r, off + a[0].delta);
    assert piece[0] in piece && piece[|piece| - 1] in piece;
  }

  lemma BeginAlike(r: Reel, a: seq<Append>, b: seq<Append>, off: nat)
    requires ValidAppends(b) && |a| > 0 && a[0].delta > 0 && AllOn(r, a, b, off)
    ensures |b| > 0 && a[0].app == b[0].app && a[0].delta >= b[0].delta
  {
    BeginningOn(r, a, off);
    FirstPiece(r, b, off, Beat(r, a[0].app, off));
    FirstPiece(r, b, off, Terminator(r, off + a[0].delta));
  }

  lemma FirstAgree(r: Reel, a: seq<Append>, b: seq<Append>, off: nat)
    requires ValidAppends(a) && ValidAppends(b) && Distinct(b) && |a| > 0 && AllOn(r, a, b, off)
    requires Total(a, a[0].app) <= Total(b, a[0].app)
    ensures |b| > 0 && a[0] == b[0]
  {
    assert a[0] in a;
    BeginAlike(r, a, b, off);
    TotalOfAbsent(b[1..], a[0].app);
  }

  lemma RestAgree(r: Reel, a: seq<Append>, b: seq<Append>, off: nat)
    requires ValidAppends(a) && ValidAppends(b) && |a| > 0 && |b| > 0 && a[0] == b[0] && AllOn(r, a, b, off)
    ensures AllOn(r, a[1..], b[1..], off + a[0].delta)
  {
    hide Piece;
    var next := off + a[0].delta;
    TapeClimbs(r, a[1..], next);
    forall e | e in TapeOf(r, a[1..], next) ensures e in TapeOf(r, b[1..], next) {
      assert e in TapeOf(r, a, off);
      PastFirstPiece(r, b, off, e);
    }
  }

  lemma {:induction false} OnFreshIsPrefix(r: Reel, a: seq<Append>, b: seq<Append>, off: nat)
    requires ValidAppends(a) && ValidAppends(b) && Distinct(b) && AllOn(r, a, b, off)
    requires forall app :: Total(a, app) <= Total(b, app)
    ensures a <= b
  {
    if |a| > 0 {
      FirstAgree(r, a, b, off);
      RestAgree(r, a, b, off);
      forall app ensures Total(a[1..], app) <= Total(b[1..], app) {
        assert Total(a, app) <= Total(b, app);
      }
      OnFreshIsPrefix(r, a[1..], b[1..], off + a[0].delta);
      assert a == [a[0]] + a[1..] && b == [b[0]] + b[1..];
    }
  }

  /** With every app once and no total shrunk, everything stored is on the fresh tape exactly when the
      stored appends are the first appends of the fresh tape. */
  lemma StoredOnFresh(r: Reel, a: seq<Append>, b: seq<Append>, off: nat)
    requires ValidAppends(a) && ValidAppends(b) && Distinct(b)
    requires forall app :: Total(a, app) <= Total(b, app)
    ensures AllOn(r, a, b, off) <==> a <= b
  {
    if a <= b {
      assert b == a + b[|a|..];
      TapeConcat(r, a, b[|a|..], off);
    }
    if AllOn(r, a, b, off) {
      OnFreshIsPrefix(r, a, b, off);
    }
  }

  /** In that case re-sending leaves exactly the fresh tape behind, as if nothing had been lost. */
  lemma LostStateHarmless(rows: seq<Event>, device: int, member: string, c: Calendar, tapes: map<int, seq<Append>>,
                          day: int, again: seq<Append>)
    requires Faithful(rows, device, member, c, tapes) && TapeOn(tapes, day) <= again
    requires SoundTapes(member, c, tapes[day := again])
    ensures GoodEvents(TapeOf(Reel(member, c, day), again, 0))
    ensures Faithful(InsertAll(rows, device, NormalisedAll(TapeOf(Reel(member, c, day), again, 0))),
                     device, member, c, tapes[day := again])
  {
    hide TapeOf, Length, WellFormed, FreshIds, Normalised, ValidCalendar, Explained, Held, RowFrom;
    var r, stored := Reel(member, c, day), TapeOn(tapes, day);
    var more := again[|stored|..];
    assert again == stored + more;
    TapeConcat(r, stored, more, 0);
    var events := TapeOf(r, again, 0);
    forall e ensures InTapes(e, member, c, tapes[day := again]) <==> InTapes(e, member, c, tapes) || e in events {
      OneDayGrows(e, member, c, tapes, day, more);
      if e in TapeOf(r, stored, 0) {
        assert OnDay(e, member, c, tapes, day);
      }
    }
    assert TapeOn(tapes[day := again], day) == again;
    if |again| > 0 {
      assert c.Has(day) && AfterYearOne(r) && ValidAppends(again);
      TapeIdsDistinct(r, again, 0);
    } else {
      NothingLaidDown(r);
    }
    InsertFaithful(rows, device, member, c, tapes, tapes[day := again], events);
  }

  lemma NothingLaidDown(r: Reel)
    ensures GoodEvents(TapeOf(r, [], 0))
  {
  }

  // ---- what goes wrong otherwise ----------------------------------------------

  /** The stored tape of a day on which app p grew after q was laid down. */
  function Grown(p: string, q: string): seq<Append> {
    [Append(p, 2)] + ([Append(q, 1)] + ([Append(p, 1)] + []))
  }

  /** The tape a run without state makes of the same totals. */
  function Again(p: string, q: string): seq<Append> {
    [Append(p, 3)] + ([Append(q, 1)] + [])
  }

  lemma GrownTape(r: Reel, p: string, q: string)
    ensures TapeOf(r, Grown(p, q), 0)
         == [Beat(r, p, 0), Terminator(r, 2)]
             + ([Beat(r, q, 2), Terminator(r, 3)] + ([Beat(r, p, 3), Terminator(r, 4)] + []))
    ensures Length(Grown(p, q)) == 4 && (ValidApp(p) && ValidApp(q) ==> ValidAppends(Grown(p, q)))
  {
    ShortPiece(r, Append(p, 1), [], 3);
    ShortPiece(r, Append(q, 1), [Append(p, 1)] + [], 2);
    ShortPiece(r, Append(p, 2), [Append(q, 1)] + ([Append(p, 1)] + []), 0);
  }

  lemma AgainTape(r: Reel, p: string, q: string)
    ensures TapeOf(r, Again(p, q), 0) == [Beat(r, p, 0), Terminator(r, 3)] + ([Beat(r, q, 3), Terminator(r, 4)] + [])
    ensures Length(Again(p, q)) == 4 && (ValidApp(p) && ValidApp(q) ==> ValidAppends(Again(p, q)))
  {
    ShortPiece(r, Append(q, 1), [], 3);
    ShortPiece(r, Append(p, 3), [Append(q, 1)] + [], 0);
  }

  /** A piece of at most one heartbeat's length, at the head of a tape. */
  lemma ShortPiece(r: Reel, a: Append, rest: seq<Append>, off: nat)
    requires 0 < a.delta <= HEARTBEAT_SECONDS
    ensures TapeOf(r, [a] + rest, off)
         == [Beat(r, a.app, off), Terminator(r, off + a.delta)] + TapeOf(r, rest, off + a.delta)
    ensures Length([a] + rest) == a.delta + Length(rest)
  {
    assert ([a] + rest)[0] == a && ([a] + rest)[1..] == rest;
    assert BeatsFrom(r, a.app, off, a.delta, 0) == [Beat(r, a.app, off)];
  }

  lemma InsertThird(rows: seq<Event>, device: int, inputs: seq<EventInput>)
    requires |inputs| == 4 && !Known(rows, inputs[2].uuid)
    requires Known(rows, inputs[0].uuid) && Known(rows, inputs[1].uuid) && Known(rows, inputs[3].uuid)
    ensures InsertAll(rows, device, inputs) == rows + [RowOf(|rows| + 1, device, inputs[2])]
  {
    var grown := rows + [RowOf(|rows| + 1, device, inputs[2])];
    assert inputs[..1][..0] == inputs[..0] && InsertAll(rows, device, inputs[..1]) == rows;
    assert inputs[..2][..1] == inputs[..1] && InsertAll(rows, device, inputs[..2]) == rows;
    assert inputs[..3][..2] == inputs[..2] && InsertAll(rows, device, inputs[..3]) == grown;
    assert Known(grown, inputs[3].uuid) by {
      var i :| 0 <= i < |rows| && rows[i].uuid == inputs[3].uuid;
      assert grown[i].uuid == inputs[3].uuid;
    }
    assert inputs[..4][..3] == inputs[..3] && inputs == inputs[..4];
  }

  lemma FourEvents(r: Reel, p: string, q: string)
    requires p != q
    ensures var events, stored := TapeOf(r, Again(p, q), 0), TapeOf(r, Grown(p, q), 0);
            && |events| == 4 && events[2] == Beat(r, q, 3) && events[2] !in stored
            && events[0] in stored && events[1] in stored && events[3] in stored
  {
    AgainTape(r, p, q);
    GrownTape(r, p, q);
    var stored := TapeOf(r, Grown(p, q), 0);
    assert stored[0] == Beat(r, p, 0) && stored[3] == Terminator(r, 3) && stored[5] == Terminator(r, 4);
    forall i | 0 <= i < |stored| ensures stored[i] != Beat(r, q, 3) {
    }
  }

  /** Of the four events sent again only q's heartbeat at second 3 is new to the table. */
  lemma OneNewRow(rows: seq<Event>, device: int, member: string, c: Calendar, tapes: map<int, seq<Append>>, day: int,
                  p: string, q: string)
    requires Faithful(rows, device, member, c, tapes) && SoundTapes(member, c, tapes)
    requires p != q && ValidApp(p) && ValidApp(q) && TapeOn(tapes, day) == Grown(p, q)
    ensures var r := Reel(member, c, day);
            && GoodEvents(TapeOf(r, Again(p, q), 0)) && WellFormed(Beat(r, q, 3))
            && InsertAll(rows, device, NormalisedAll(TapeOf(r, Again(p, q), 0)))
               == rows + [RowOf(|rows| + 1, device, Normalised(Beat(r, q, 3)))]
  {
    var r := Reel(member, c, day);
    assert AfterYearOne(r);
    AgainTape(r, p, q);
    TapeIdsDistinct(r, Again(p, q), 0);
    FourEvents(r, p, q);
    var events := TapeOf(r, Again(p, q), 0);
    forall e | e in events ensures OnTape(r, e) && Normalised(e).uuid == e.eventId {
      TapeMember(r, Again(p, q), 0, e);
      OnTapeWellFormed(r, e);
    }
    var e0, e1, e2, e3 := events[0], events[1], events[2], events[3];
    assert e0 in events && e1 in events && e2 in events && e3 in events;
    IsKnown(rows, device, member, c, tapes, day, e0);
    IsKnown(rows, device, member, c, tapes, day, e1);
    IsKnown(rows, device, member, c, tapes, day, e3);
    IsNew(rows, device, member, c, tapes, day, e2);
    InsertThird(rows, device, NormalisedAll(events));
  }

  lemma IsKnown(rows: seq<Event>, device: int, member: string, c: Calendar, tapes: map<int, seq<Append>>, day: int,
                e: RequestEvent)
    requires Faithful(rows, device, member, c, tapes) && SoundTapes(member, c, tapes)
    requires e in TapeOf(Reel(member, c, day), TapeOn(tapes, day), 0)
    ensures Known(rows, e.eventId)
  {
    assert OnDay(e, member, c, tapes, day);
    var r := InTapesOrigin(e, member, c, tapes);
    assert Held(rows, device, e);
  }

  lemma IsNew(rows: seq<Event>, device: int, member: string, c: Calendar, tapes: map<int, seq<Append>>, day: int,
              e: RequestEvent)
    requires Faithful(rows, device, member, c, tapes) && SoundTapes(member, c, tapes)
    requires c.Has(day) && OnTape(Reel(member, c, day), e) && e !in TapeOf(Reel(member, c, day), TapeOn(tapes, day), 0)
    ensures !Known(rows, e.eventId)
  {
    if i :| 0 <= i < |rows| && rows[i].uuid == e.eventId {
      assert Explained(rows[i], device, member, c, tapes);
      var x :| InTapes(x, member, c, tapes) && RowFrom(rows[i], device, x);
      var r := InTapesOrigin(x, member, c, tapes);
      SameIdSameEvent(r, Reel(member, c, day), x, e);
    }
  }

  /** The new row wins against every row of the same second, and against none after it. */
  lemma NewRowRules(rows: seq<Event>, device: int, member: string, c: Calendar, tapes: map<int, seq<Append>>, day: int,
                    p: string, q: string, n: Event, t: int)
    requires Faithful(rows, device, member, c, tapes) && SoundTapes(member, c, tapes) && ShortTapes(c, tapes)
    requires ValidApp(p) && ValidApp(q) && TapeOn(tapes, day) == Grown(p, q)
    requires n.at == (c.midnight(day) + 3) * NS_PER_SECOND && n.sequence == 7
    ensures LatestAt(rows + [n], t)
         == if n.at <= t < (c.midnight(day) + 4) * NS_PER_SECOND then Some(n) else LatestAt(rows, t)
  {
    var r := Reel(member, c, day);
    assert (rows + [n])[..|rows|] == rows;
    var older := LatestAt(rows, t);
    if (c.midnight(day) + 4) * NS_PER_SECOND <= t {
      GrownTape(r, p, q);
      var stored := TapeOf(r, Grown(p, q), 0);
      assert stored[5] == Terminator(r, 4) && stored[5] in stored;
      var end := RowHeld(Terminator(r, 4), r, rows, device, member, c, tapes);
      LatestAtIsNewest(rows, t);
    } else if n.at <= t && older.Some? && older.value.at >= n.at {
      var r', e := RowOrigin(older.value, rows, device, member, c, tapes);
      GrownTape(r, p, q);
      SameDay(c, r'.day, e.sequence / 2, day, 3, 3, Length(TapeOn(tapes, r'.day)));
    }
  }

  lemma SmallShows(p: string, q: string, who: Who)
    ensures Shows(Grown(p, q), 0, 0, who) == Shows(Grown(p, q), 0, 1, who) == (who == Everyone || who == Process(p))
    ensures Shows(Grown(p, q), 0, 2, who) == (who == Everyone || who == Process(q))
  {
    var a := Grown(p, q);
    assert a[0] == Append(p, 2);
    assert a[1..] == [Append(q, 1)] + ([Append(p, 1)] + []) && a[1..][0] == Append(q, 1);
    assert AppAt(a, 0, 2) == AppAt(a[1..], 2, 2) == Some(q);
  }

  ghost predicate Corrupted(rows: seq<Event>, device: int, member: string, c: Calendar, tapes: map<int, seq<Append>>,
                            day: int, p: string, q: string, n: Event)
  {
    && Faithful(rows, device, member, c, tapes) && SoundTapes(member, c, tapes) && ShortTapes(c, tapes)
    && p != q && ValidApp(p) && ValidApp(q) && TapeOn(tapes, day) == Grown(p, q)
    && n.at == (c.midnight(day) + 3) * NS_PER_SECOND && n.sequence == 7 && n.state == Active && n.process == q
  }

  lemma CorruptedSecond(rows: seq<Event>, device: int, member: string, c: Calendar, tapes: map<int, seq<Append>>,
                        day: int, p: string, q: string, n: Event, x: nat, maxGap: int, who: Who)
    requires Corrupted(rows, device, member, c, tapes, day, p, q, n) && GapCovers(maxGap) && x < 4
    ensures InUse(rows + [n], (c.midnight(day) + x) * NS_PER_SECOND, who, maxGap)
       <==> who == Everyone || who == Process(if x < 2 then p else q)
  {
    var t := (c.midnight(day) + x) * NS_PER_SECOND;
    GrownTape(Reel(member, c, day), p, q);
    NewRowRules(rows, device, member, c, tapes, day, p, q, n, t);
    if x < 3 {
      SmallShows(p, q, who);
      SecondShows(rows, device, member, c, tapes, day, x, who, maxGap);
    }
  }

  lemma CorruptedTail(rows: seq<Event>, device: int, member: string, c: Calendar, tapes: map<int, seq<Append>>,
                      day: int, p: string, q: string, n: Event, maxGap: int, who: Who)
    requires Corrupted(rows, device, member, c, tapes, day, p, q, n) && GapCovers(maxGap) && Whole(maxGap)
    ensures c.midnight(day) + 4 < c.midnight(day + 1)
    ensures Instants(rows + [n], (c.midnight(day) + 4) * NS_PER_SECOND, c.midnight(day + 1) * NS_PER_SECOND,
                     NS_PER_SECOND, who, maxGap) == 0
  {
    var from, end := (c.midnight(day) + 4) * NS_PER_SECOND, c.midnight(day + 1) * NS_PER_SECOND;
    GrownTape(Reel(member, c, day), p, q);
    RowsWhole(rows, device, member, c, tapes);
    QuietAfterTape(rows, device, member, c, tapes, day, end, who, maxGap);
    InstantsOfSeconds(rows, from, end, who, maxGap);
    forall t | from <= t < end ensures InUse(rows + [n], t, who, maxGap) == InUse(rows, t, who, maxGap) {
      NewRowRules(rows, device, member, c, tapes, day, p, q, n, t);
    }
    InstantsAgree(rows + [n], rows, from, end, NS_PER_SECOND, who, maxGap);
  }

  /** Seconds 0 and 1 are credited to p, seconds 2 and 3 to q, and after that there is nothing. */
  ghost predicate SplitSeconds(events: seq<Event>, m: int, end: int, p: string, q: string, maxGap: int, who: Who) {
    && m + 4 < end
    && (forall x: nat {:trigger At(m, x)} :: x < 4 ==>
          (InUse(events, At(m, x), who, maxGap) <==> who == Everyone || who == Process(if x < 2 then p else q)))
    && Instants(events, At(m, 4), end * NS_PER_SECOND, NS_PER_SECOND, who, maxGap) == 0
  }

  function At(m: int, x: nat): int { (m + x) * NS_PER_SECOND }

  lemma CorruptedSplit(rows: seq<Event>, device: int, member: string, c: Calendar, tapes: map<int, seq<Append>>,
                       day: int, p: string, q: string, n: Event, maxGap: int, who: Who)
    requires Corrupted(rows, device, member, c, tapes, day, p, q, n) && GapCovers(maxGap) && Whole(maxGap)
    ensures SplitSeconds(rows + [n], c.midnight(day), c.midnight(day + 1), p, q, maxGap, who)
  {
    CorruptedTail(rows, device, member, c, tapes, day, p, q, n, maxGap, who);
    forall x: nat | x < 4
      ensures InUse(rows + [n], At(c.midnight(day), x), who, maxGap)
         <==> who == Everyone || who == Process(if x < 2 then p else q)
    {
      CorruptedSecond(rows, device, member, c, tapes, day, p, q, n, x, maxGap, who);
    }
  }

  lemma SplitCount(events: seq<Event>, m: int, end: int, p: string, q: string, maxGap: int, who: Who)
    requires SplitSeconds(events, m, end, p, q, maxGap, who) && p != q
    ensures Instants(events, m * NS_PER_SECOND, end * NS_PER_SECOND, NS_PER_SECOND, who, maxGap)
         == if who == Everyone then 4 else if who == Process(p) || who == Process(q) then 2 else 0
  {
    OneSecond(events, m, 3, end, who, maxGap);
    OneSecond(events, m, 2, end, who, maxGap);
    OneSecond(events, m, 1, end, who, maxGap);
    OneSecond(events, m, 0, end, who, maxGap);
    assert At(m, 0) == m * NS_PER_SECOND;
  }

  lemma OneSecond(events: seq<Event>, m: int, x: nat, end: int, who: Who, maxGap: int)
    requires m + x < end
    ensures Instants(events, At(m, x), end * NS_PER_SECOND, NS_PER_SECOND, who, maxGap)
         == (if InUse(events, At(m, x), who, maxGap) then 1 else 0)
            + Instants(events, At(m, x + 1), end * NS_PER_SECOND, NS_PER_SECOND, who, maxGap)
  {
    assert At(m, x + 1) == At(m, x) + NS_PER_SECOND;
  }

  /** With the new row in the table, second 3 of the day is credited to q instead of p. */
  lemma CorruptedDay(rows: seq<Event>, device: int, member: string, c: Calendar, tapes: map<int, seq<Append>>, day: int,
                     p: string, q: string, n: Event, maxGap: int, who: Who)
    requires Corrupted(rows, device, member, c, tapes, day, p, q, n) && GapCovers(maxGap) && Whole(maxGap)
    ensures Usage(rows + [n], c.midnight(day) * NS_PER_SECOND, c.midnight(day + 1) * NS_PER_SECOND, ZERO_TIME, maxGap,
                  who, NS_PER_SECOND)
         == if who == Everyone then 4 else if who == Process(p) || who == Process(q) then 2 else 0
  {
    RowsWhole(rows, device, member, c, tapes);
    CorruptedSplit(rows, device, member, c, tapes, day, p, q, n, maxGap, who);
    SplitCount(rows + [n], c.midnight(day), c.midnight(day + 1), p, q, maxGap, who);
    CountDay(rows + [n], c.midnight(day), c.midnight(day + 1), maxGap, who);
  }

  lemma CountDay(events: seq<Event>, from: int, to: int, maxGap: int, who: Who)
    requires WholeStamps(events) && Whole(maxGap)
    ensures Usage(events, from * NS_PER_SECOND, to * NS_PER_SECOND, ZERO_TIME, maxGap, who, NS_PER_SECOND)
         == Instants(events, from * NS_PER_SECOND, to * NS_PER_SECOND, NS_PER_SECOND, who, maxGap)
  {
    UsageCountsSeconds(events, from * NS_PER_SECOND, to * NS_PER_SECOND, ZERO_TIME, maxGap, who);
  }

  // ---- the same in terms of runs ----------------------------------------------

  /** One run over two apps, whatever was sent before. */
  lemma TwoApps(sent: map<string, nat>, p: string, x: nat, q: string, y: nat)
    requires p != q && x >= GetTotal(sent, p) && y >= GetTotal(sent, q)
    ensures var apps := [Scraped(p, x), Scraped(q, y)];
            && Deltas(sent, apps) == (if x > GetTotal(sent, p) then [Append(p, x - GetTotal(sent, p))] else [])
                                   + (if y > GetTotal(sent, q) then [Append(q, y - GetTotal(sent, q))] else [])
            && GetTotal(Grow(sent, apps), p) == x && GetTotal(Grow(sent, apps), q) == y
  {
    var apps := [Scraped(p, x), Scraped(q, y)];
    assert apps[..1] == [Scraped(p, x)] && apps[..1][..0] == [];
    assert Grow(sent, apps[..1]) == if x > GetTotal(sent, p) then sent[p := x] else sent;
    assert Deltas(sent, apps[..1]) == if x > GetTotal(sent, p) then [Append(p, x - GetTotal(sent, p))] else [];
  }

  /** A run over a single day. */
  lemma OneDay(member: string, c: Calendar, sent: map<int, map<string, nat>>, tapes: map<int, seq<Append>>, u: DayUsage)
    ensures RunEvents(member, c, sent, [u])
         == TapeOf(Reel(member, c, u.day), Deltas(SentOn(sent, u.day), u.apps), SumNat(SentOn(sent, u.day)))
    ensures RunSent(sent, [u]) == sent[u.day := Grow(SentOn(sent, u.day), u.apps)]
    ensures RunTapes(tapes, sent, [u]) == tapes[u.day := TapeOn(tapes, u.day) + Deltas(SentOn(sent, u.day), u.apps)]
  {
    assert [u][..0] == [];
    assert RunSent(sent, [u][..0]) == sent && RunTapes(tapes, sent, [u][..0]) == tapes;
    assert RunEvents(member, c, sent, [u][..0]) == [];
  }

  function First(day: int, p: string, q: string): Run {
    Run(day, [DayUsage(day, [Scraped(p, 2), Scraped(q, 1)])])
  }

  function Later(day: int, p: string, q: string): Run {
    Run(day, [DayUsage(day, [Scraped(p, 3), Scraped(q, 1)])])
  }

  lemma OneMoreRun(member: string, c: Calendar, runs: seq<Run>, run: Run, day: int, app: string)
    ensures Tapes(member, c, runs + [run]) == RunTapes(Tapes(member, c, runs), Saved(member, c, runs), run.usage)
    ensures Saved(member, c, runs + [run]) == SavedAfter(member, c, Saved(member, c, runs), run)
    ensures Peak(runs + [run], day, app) == PeakOn(run.usage, day, app, Peak(runs, day, app))
  {
    assert (runs + [run])[..|runs|] == runs;
  }

  lemma AfterFirst(member: string, c: Calendar, day: int, p: string, q: string)
    requires p != q
    ensures var runs := [] + [First(day, p, q)];
            && Tapes(member, c, runs) == map[day := [Append(p, 2)] + [Append(q, 1)]]
            && GetTotal(SentOn(Saved(member, c, runs), day), p) == 2
            && GetTotal(SentOn(Saved(member, c, runs), day), q) == 1
  {
    var u := DayUsage(day, [Scraped(p, 2), Scraped(q, 1)]);
    OneMoreRun(member, c, [], First(day, p, q), day, p);
    TwoApps(map[], p, 2, q, 1);
    OneDay(member, c, map[], map[], u);
    assert [] + ([Append(p, 2)] + [Append(q, 1)]) == [Append(p, 2)] + [Append(q, 1)];
    assert |TapeOf(Reel(member, c, day), [Append(p, 2)] + [Append(q, 1)], SumNat(map[]))| > 0;
  }

  lemma AfterLater(member: string, c: Calendar, day: int, p: string, q: string)
    requires p != q
    ensures Tapes(member, c, [] + [First(day, p, q)] + [Later(day, p, q)]) == map[day := Grown(p, q)]
  {
    var front, u := [] + [First(day, p, q)], DayUsage(day, [Scraped(p, 3), Scraped(q, 1)]);
    OneMoreRun(member, c, front, Later(day, p, q), day, p);
    AfterFirst(member, c, day, p, q);
    var saved, tapes := Saved(member, c, front), Tapes(member, c, front);
    TwoApps(SentOn(saved, day), p, 3, q, 1);
    OneDay(member, c, saved, tapes, u);
    assert Deltas(SentOn(saved, day), u.apps) == [Append(p, 1)];
    assert TapeOn(tapes, day) + [Append(p, 1)] == Grown(p, q);
  }

  lemma WithoutState(member: string, c: Calendar, day: int, p: string, q: string)
    requires p != q
    ensures RunEvents(member, c, map[], Later(day, p, q).usage) == TapeOf(Reel(member, c, day), Again(p, q), 0)
  {
    TwoApps(map[], p, 3, q, 1);
    OneDay(member, c, map[], map[], DayUsage(day, [Scraped(p, 3), Scraped(q, 1)]));
    assert SumNat(map[]) == 0;
    assert [Append(p, 3)] + [Append(q, 1)] == Again(p, q);
  }

  lemma TwoPeak(p: string, x: nat, q: string, day: int, app: string, peak: nat)
    requires p != q && (app == p || app == q)
    ensures PeakOn([DayUsage(day, [Scraped(p, x), Scraped(q, 1)])], day, app, peak)
            == Max(peak, if app == p then x else 1)
  {
    var apps := [Scraped(p, x), Scraped(q, 1)];
    var usage := [DayUsage(day, apps)];
    assert usage[..0] == [] && PeakOn(usage[..0], day, app, peak) == peak;
    assert apps[..1] == [Scraped(p, x)] && apps[..1][..0] == [];
    assert PeakIn(apps[..1], app, peak) == if app == p then Max(peak, x) else peak;
  }

  lemma TwoPeaks(member: string, c: Calendar, day: int, p: string, q: string, app: string)
    requires p != q && (app == p || app == q)
    ensures Peak([] + [First(day, p, q)] + [Later(day, p, q)], day, app) == if app == p then 3 else 1
  {
    OneMoreRun(member, c, [], First(day, p, q), day, app);
    OneMoreRun(member, c, [] + [First(day, p, q)], Later(day, p, q), day, app);
    TwoPeak(p, 2, q, day, app, 0);
    TwoPeak(p, 3, q, day, app, if app == p then 2 else 1);
  }

  /** Two runs: p 2 s and q 1 s, then p 3 s and q 1 s. The state is lost and the next run scrapes the
      same totals again; the server now reports 2 s for p and 2 s for q. */
  lemma LostStateCorrupts(device: int, member: string, c: Calendar, day: int, p: string, q: string, maxGap: int)
    requires ValidSetting(member, c) && c.Has(day) && p != q && ValidApp(p) && ValidApp(q)
    requires c.midnight(day + 1) - c.midnight(day) > 4 && GapCovers(maxGap) && Whole(maxGap)
    ensures var runs := [First(day, p, q), Later(day, p, q)];
            var rows := PostAll(Rows(device, member, c, runs), device, MemberName(member),
                                RunEvents(member, c, map[], Later(day, p, q).usage));
            var start, end := c.midnight(day) * NS_PER_SECOND, c.midnight(day + 1) * NS_PER_SECOND;
            && Peak(runs, day, p) == 3 && Peak(runs, day, q) == 1
            && Usage(rows, start, end, ZERO_TIME, maxGap, Process(p), NS_PER_SECOND) == 2
            && Usage(rows, start, end, ZERO_TIME, maxGap, Process(q), NS_PER_SECOND) == 2
  {
    var runs := [First(day, p, q), Later(day, p, q)];
    assert runs == [] + [First(day, p, q)] + [Later(day, p, q)];
    TwoPeaks(member, c, day, p, q, p);
    TwoPeaks(member, c, day, p, q, q);
    AfterLater(member, c, day, p, q);
    WithoutState(member, c, day, p, q);
    TwoValidRuns(c, day, p, q);
    CorruptedRuns(device, member, c, runs, day, p, q, maxGap, Process(p));
    CorruptedRuns(device, member, c, runs, day, p, q, maxGap, Process(q));
  }

  lemma TwoValidRuns(c: Calendar, day: int, p: string, q: string)
    requires c.Has(day) && ValidApp(p) && ValidApp(q)
    ensures ValidRuns(c, [First(day, p, q), Later(day, p, q)])
  {
  }

  lemma DayHasSeconds(c: Calendar, d: int)
    requires ValidCalendar(c) && c.Has(d)
    ensures c.midnight(d) < c.midnight(d + 1)
  {
  }

  lemma GrownIsShort(member: string, c: Calendar, runs: seq<Run>, day: int, p: string, q: string)
    requires ValidSetting(member, c) && ValidApp(p) && ValidApp(q) && ValidRuns(c, runs) && |runs| > 0
    requires c.midnight(day + 1) - c.midnight(day) > 4 && Tapes(member, c, runs) == map[day := Grown(p, q)]
    ensures SoundTapes(member, c, Tapes(member, c, runs)) && ShortTapes(c, Tapes(member, c, runs))
  {
    hide ValidRuns, TapeOf, ValidApp, Tapes, Tracks, SoundTapes, AfterYearOne, ValidAppends, ValidCalendar;
    var tapes := Tapes(member, c, runs);
    RunsTrack(member, c, runs, runs[|runs| - 1].today);
    GrownTape(Reel(member, c, day), p, q);
    forall d | c.Has(d) ensures Length(TapeOn(tapes, d)) < c.midnight(d + 1) - c.midnight(d) {
      if d != day {
        assert TapeOn(tapes, d) == [];
        DayHasSeconds(c, d);
      }
    }
  }

  lemma CorruptedRuns(device: int, member: string, c: Calendar, runs: seq<Run>, day: int, p: string, q: string,
                      maxGap: int, who: Who)
    requires ValidSetting(member, c) && p != q && ValidApp(p) && ValidApp(q) && ValidRuns(c, runs) && |runs| > 0
    requires c.midnight(day + 1) - c.midnight(day) > 4 && GapCovers(maxGap) && Whole(maxGap)
    requires Tapes(member, c, runs) == map[day := Grown(p, q)] && (who == Process(p) || who == Process(q))
    ensures Usage(PostAll(Rows(device, member, c, runs), device, MemberName(member),
                          TapeOf(Reel(member, c, day), Again(p, q), 0)),
                  c.midnight(day) * NS_PER_SECOND, c.midnight(day + 1) * NS_PER_SECOND, ZERO_TIME, maxGap, who,
                  NS_PER_SECOND) == 2
  {
    hide Rows, PostAll, TapeOf, Usage, MemberName, Faithful, SoundTapes, ShortTapes, ValidRuns, ValidSetting, ValidApp;
    hide GapCovers, Whole, Trim;
    var stored, tapes := Rows(device, member, c, runs), Tapes(member, c, runs);
    RunsFaithful(device, member, c, runs);
    GrownIsShort(member, c, runs, day, p, q);
    MemberNameTrimmed(member);
    ResentDay(stored, device, member, c, tapes, day, p, q, maxGap, who);
  }

  lemma ResentDay(stored: seq<Event>, device: int, member: string, c: Calendar, tapes: map<int, seq<Append>>, day: int,
                  p: string, q: string, maxGap: int, who: Who)
    requires Faithful(stored, device, member, c, tapes) && SoundTapes(member, c, tapes) && ShortTapes(c, tapes)
    requires p != q && ValidApp(p) && ValidApp(q) && TapeOn(tapes, day) == Grown(p, q)
    requires GapCovers(maxGap) && Whole(maxGap) && Trim(MemberName(member)) != ""
             && (who == Process(p) || who == Process(q))
    ensures Usage(PostAll(stored, device, MemberName(member), TapeOf(Reel(member, c, day), Again(p, q), 0)),
                  c.midnight(day) * NS_PER_SECOND, c.midnight(day + 1) * NS_PER_SECOND, ZERO_TIME, maxGap, who,
                  NS_PER_SECOND) == 2
  {
    var r := Reel(member, c, day);
    OneNewRow(stored, device, member, c, tapes, day, p, q);
    PostAllInserts(stored, device, MemberName(member), TapeOf(r, Again(p, q), 0));
    NewRow(r, q, |stored| + 1, device);
    var n := RowOf(|stored| + 1, device, Normalised(Beat(r, q, 3)));
    CorruptedDay(stored, device, member, c, tapes, day, p, q, n, maxGap, who);
  }

  lemma NewRow(r: Reel, q: string, id: int, device: int)
    requires ValidApp(q) && AfterYearOne(r) && WellFormed(Beat(r, q, 3))
    ensures var n := RowOf(id, device, Normalised(Beat(r, q, 3)));
            n.at == (r.calendar.midnight(r.day) + 3) * NS_PER_SECOND && n.sequence == 7 && n.state == Active
                && n.process == q
  {
    var n := RowOf(id, device, Normalised(Beat(r, q, 3)));
    assert IsBeat(r, Beat(r, q, 3), q, 3);
    RowFromEvent(n, device, r, Beat(r, q, 3));
  }
}
