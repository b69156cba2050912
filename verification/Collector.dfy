/** The screen-time collector: what one run appends, what it remembers, and what the server
    holds after any sequence of runs. */
module Collector {
  import opened Observations
  import opened Reports
  import opened EventStore
  import opened Intake
  import opened Tape

  const BATCH_LIMIT: nat := 5000
  const KEEP_DAYS: nat := 35

  datatype Scraped = Scraped(app: string, total: nat)

  datatype DayUsage = DayUsage(day: int, apps: seq<Scraped>)

  function GetTotal(sent: map<string, nat>, app: string): nat {
    if app in sent then sent[app] else 0
  }

  /** What the day's record of sent totals becomes: totals only grow. */
  function Grow(sent: map<string, nat>, scraped: seq<Scraped>): map<string, nat> {
    if |scraped| == 0 then sent
    else
      var m, x := Grow(sent, scraped[..|scraped| - 1]), scraped[|scraped| - 1];
      if x.total > GetTotal(m, x.app) then m[x.app := x.total] else m
  }

  /** The growth, app by app, that the run appends to the day's tape. */
  function Deltas(sent: map<string, nat>, scraped: seq<Scraped>): seq<Append> {
    if |scraped| == 0 then []
    else
      var front, x := scraped[..|scraped| - 1], scraped[|scraped| - 1];
      var before := GetTotal(Grow(sent, front), x.app);
      Deltas(sent, front) + if x.total > before then [Append(x.app, x.total - before)] else []
  }

  /** The appends are, in the order of the scraped apps, what every total exceeds its record by. */
  ghost predicate Differences(sent: map<string, nat>, scraped: seq<Scraped>, appends: seq<Append>, from: seq<nat>) {
    && |from| == |appends| && (forall i, j :: 0 <= i < j < |from| ==> from[i] < from[j])
    && (forall i :: 0 <= i < |from| ==>
          && from[i] < |scraped| && scraped[from[i]].total > GetTotal(sent, scraped[from[i]].app)
          && appends[i].app == scraped[from[i]].app
          && appends[i].delta == scraped[from[i]].total - GetTotal(sent, scraped[from[i]].app))
    && (forall k: nat :: k < |scraped| && scraped[k].total > GetTotal(sent, scraped[k].app) ==> k in from)
  }

  lemma {:induction false} GrowOthers(sent: map<string, nat>, scraped: seq<Scraped>, app: string)
    requires forall k :: 0 <= k < |scraped| ==> scraped[k].app != app
    ensures GetTotal(Grow(sent, scraped), app) == GetTotal(sent, app)
  {
    if |scraped| > 0 {
      GrowOthers(sent, scraped[..|scraped| - 1], app);
    }
  }

  /** Where no app is scraped twice. */
  lemma {:induction false} DeltasAre(sent: map<string, nat>, scraped: seq<Scraped>) returns (from: seq<nat>)
    requires forall i, j :: 0 <= i < j < |scraped| ==> scraped[i].app != scraped[j].app
    ensures Differences(sent, scraped, Deltas(sent, scraped), from)
  {
    hide Differences, GetTotal, Grow;
    from := [];
    if |scraped| == 0 {
      NoDifference(sent);
    } else {
      var front, x := scraped[..|scraped| - 1], scraped[|scraped| - 1];
      from := DeltasAre(sent, front);
      GrowOthers(sent, front, x.app);
      OneMoreDifference(sent, front, x, Deltas(sent, front), from);
      assert front + [x] == scraped;
      if x.total > GetTotal(sent, x.app) {
        from := from + [|front|];
      } else {
        assert Deltas(sent, scraped) == Deltas(sent, front);
      }
    }
  }

  lemma NoDifference(sent: map<string, nat>)
    ensures Differences(sent, [], [], [])
  {
  }

  lemma OneMoreDifference(sent: map<string, nat>, front: seq<Scraped>, x: Scraped, appends: seq<Append>, from: seq<nat>)
    requires Differences(sent, front, appends, from)
    ensures if x.total > GetTotal(sent, x.app)
            then Differences(sent, front + [x], appends + [Append(x.app, x.total - GetTotal(sent, x.app))],
                             from + [|front|])
            else Differences(sent, front + [x], appends, from)
  {
    hide GetTotal;
    var all := front + [x];
    assert all[|front|] == x && forall k :: 0 <= k < |front| ==> all[k] == front[k];
  }

  lemma {:induction false} SumNonNegative(m: map<string, nat>)
    ensures Sum(m) >= 0
    decreases |m|
  {
    if m != map[] {
      var k :| k in m;
      SumRemove(m, k);
      SumNonNegative(m - {k});
    }
  }

  ghost function SumNat(m: map<string, nat>): nat {
    SumNonNegative(m);
    Sum(m)
  }

  method SumValues(m: map<string, nat>) returns (total: nat)
    ensures total == SumNat(m)
  {
    var rest := m;
    total := 0;
    while rest != map[]
      invariant total + SumNat(rest) == SumNat(m)
      decreases |rest|
    {
      var k :| k in rest;
      SumRemove(rest, k);
      total := total + rest[k];
      rest := rest - {k};
    }
  }

  /** The day's loop of a run over the scraped apps. */
  method GrowDay(sent: map<string, nat>, scraped: seq<Scraped>)
    returns (appends: seq<Append>, daySent: map<string, nat>)
    ensures appends == Deltas(sent, scraped) && daySent == Grow(sent, scraped)
  {
    appends, daySent := [], sent;
    for i := 0 to |scraped|
      invariant appends == Deltas(sent, scraped[..i]) && daySent == Grow(sent, scraped[..i])
    {
      assert scraped[..i + 1][..i] == scraped[..i];
      var app, total := scraped[i].app, scraped[i].total;
      var delta: int := total - GetTotal(daySent, app);
      if delta > 0 {
        appends := appends + [Append(app, delta)];
        daySent := daySent[app := total];
      }
    }
    assert scraped[..|scraped|] == scraped;
  }

  function SentOn(sent: map<int, map<string, nat>>, day: int): map<string, nat> {
    if day in sent then sent[day] else map[]
  }

  function RunSent(sent: map<int, map<string, nat>>, usage: seq<DayUsage>): map<int, map<string, nat>> {
    if |usage| == 0 then sent
    else
      var m, u := RunSent(sent, usage[..|usage| - 1]), usage[|usage| - 1];
      m[u.day := Grow(SentOn(m, u.day), u.apps)]
  }

  /** The events of one run, the tape of every day continued where its record ends. */
  ghost function RunEvents(member: string, c: Calendar, sent: map<int, map<string, nat>>,
                           usage: seq<DayUsage>): seq<RequestEvent> {
    if |usage| == 0 then []
    else
      var front, u := usage[..|usage| - 1], usage[|usage| - 1];
      var daySent := SentOn(RunSent(sent, front), u.day);
      RunEvents(member, c, sent, front) + TapeOf(Reel(member, c, u.day), Deltas(daySent, u.apps), SumNat(daySent))
  }

  function Prune(sent: map<int, map<string, nat>>, cutoff: int): map<int, map<string, nat>> {
    map d | d in sent && d >= cutoff :: sent[d]
  }

  // ---- the record and the tape ------------------------------------------------

  function TapeOn(tapes: map<int, seq<Append>>, day: int): seq<Append> {
    if day in tapes then tapes[day] else []
  }

  /** Every append ever made, day by day. */
  function RunTapes(tapes: map<int, seq<Append>>, sent: map<int, map<string, nat>>,
                    usage: seq<DayUsage>): map<int, seq<Append>> {
    if |usage| == 0 then tapes
    else
      var front, u := usage[..|usage| - 1], usage[|usage| - 1];
      var m := RunTapes(tapes, sent, front);
      m[u.day := TapeOn(m, u.day) + Deltas(SentOn(RunSent(sent, front), u.day), u.apps)]
  }

  /** A day's record says per app how much of its tape belongs to it. */
  ghost predicate Matches(daySent: map<string, nat>, tape: seq<Append>) {
    SumNat(daySent) == Length(tape) && forall app :: GetTotal(daySent, app) == Total(tape, app)
  }

  ghost predicate ValidScrape(apps: seq<Scraped>) {
    forall x :: x in apps ==> ValidApp(x.app)
  }

  lemma OneAppendMatches(daySent: map<string, nat>, tape: seq<Append>, app: string, total: nat)
    requires Matches(daySent, tape) && total > GetTotal(daySent, app)
    ensures Matches(daySent[app := total], tape + [Append(app, total - GetTotal(daySent, app))])
  {
    var a := [Append(app, total - GetTotal(daySent, app))];
    SumUpdate(daySent, app, total);
    assert a[1..] == [];
    forall p ensures Total(tape + a, p) == Total(tape, p) + if p == app then a[0].delta else 0 {
      TotalConcat(tape, a, p);
    }
    TotalConcat(tape, a, app);
  }

  lemma {:induction false} GrowMatches(daySent: map<string, nat>, tape: seq<Append>, apps: seq<Scraped>)
    requires Matches(daySent, tape) && ValidScrape(apps)
    ensures Matches(Grow(daySent, apps), tape + Deltas(daySent, apps)) && ValidAppends(Deltas(daySent, apps))
  {
    hide Matches;
    if |apps| == 0 {
      assert tape + [] == tape;
    } else {
      var front, x := apps[..|apps| - 1], apps[|apps| - 1];
      GrowMatches(daySent, tape, front);
      var m, t := Grow(daySent, front), tape + Deltas(daySent, front);
      assert x in apps;
      if x.total > GetTotal(m, x.app) {
        OneAppendMatches(m, t, x.app, x.total);
        assert tape + Deltas(daySent, apps) == t + [Append(x.app, x.total - GetTotal(m, x.app))];
      } else {
        assert Deltas(daySent, apps) == Deltas(daySent, front);
      }
    }
  }

  /** From the horizon on the record matches the tapes. */
  ghost predicate Tracks(sent: map<int, map<string, nat>>, tapes: map<int, seq<Append>>, horizon: int) {
    && (forall d :: d >= horizon ==> Matches(SentOn(sent, d), TapeOn(tapes, d)))
    && (forall d :: ValidAppends(TapeOn(tapes, d)))
  }

  ghost predicate ValidUsage(c: Calendar, usage: seq<DayUsage>, horizon: int) {
    && (forall u :: u in usage ==> c.Has(u.day) && u.day >= horizon && ValidScrape(u.apps))
    && (forall i, j :: 0 <= i < j < |usage| ==> usage[i].day != usage[j].day)
  }

  lemma ValidUsageFront(c: Calendar, usage: seq<DayUsage>, horizon: int)
    requires ValidUsage(c, usage, horizon) && |usage| > 0
    ensures ValidUsage(c, usage[..|usage| - 1], horizon)
    ensures c.Has(usage[|usage| - 1].day) && usage[|usage| - 1].day >= horizon && ValidScrape(usage[|usage| - 1].apps)
  {
    assert usage[|usage| - 1] in usage;
    forall u | u in usage[..|usage| - 1] ensures u in usage {
    }
  }

  /** Only days that exist have a tape. */
  ghost predicate OnDays(c: Calendar, tapes: map<int, seq<Append>>) {
    forall d :: |TapeOn(tapes, d)| > 0 ==> c.Has(d)
  }

  lemma {:induction false} RunOnDays(c: Calendar, sent: map<int, map<string, nat>>, tapes: map<int, seq<Append>>,
                                     usage: seq<DayUsage>, horizon: int)
    requires OnDays(c, tapes) && ValidUsage(c, usage, horizon)
    ensures OnDays(c, RunTapes(tapes, sent, usage))
  {
    if |usage| > 0 {
      var front, u := usage[..|usage| - 1], usage[|usage| - 1];
      ValidUsageFront(c, usage, horizon);
      RunOnDays(c, sent, tapes, front, horizon);
      assert c.Has(u.day);
    }
  }

  /** The event belongs to some day's tape. */
  ghost predicate InTapes(e: RequestEvent, member: string, c: Calendar, tapes: map<int, seq<Append>>) {
    exists d :: OnDay(e, member, c, tapes, d)
  }

  ghost predicate OnDay(e: RequestEvent, member: string, c: Calendar, tapes: map<int, seq<Append>>, d: int) {
    e in TapeOf(Reel(member, c, d), TapeOn(tapes, d), 0)
  }

  lemma OnOtherDays(e: RequestEvent, member: string, c: Calendar, t: map<int, seq<Append>>, day: int, tape: seq<Append>,
                    d: int)
    requires d != day
    ensures OnDay(e, member, c, t[day := tape], d) <==> OnDay(e, member, c, t, d)
  {
  }

  lemma OnGrownDay(e: RequestEvent, member: string, c: Calendar, t: map<int, seq<Append>>, day: int, more: seq<Append>)
    ensures OnDay(e, member, c, t[day := TapeOn(t, day) + more], day)
       <==> OnDay(e, member, c, t, day) || e in TapeOf(Reel(member, c, day), more, Length(TapeOn(t, day)))
  {
    hide TapeOf, Length;
    TapeConcat(Reel(member, c, day), TapeOn(t, day), more, 0);
  }

  lemma OneDayGrows(e: RequestEvent, member: string, c: Calendar, t: map<int, seq<Append>>, day: int, more: seq<Append>)
    ensures InTapes(e, member, c, t[day := TapeOn(t, day) + more])
       <==> (InTapes(e, member, c, t) || e in TapeOf(Reel(member, c, day), more, Length(TapeOn(t, day))))
  {
    var t' := t[day := TapeOn(t, day) + more];
    OnGrownDay(e, member, c, t, day, more);
    if InTapes(e, member, c, t') {
      var d :| OnDay(e, member, c, t', d);
      if d != day { OnOtherDays(e, member, c, t, day, TapeOn(t, day) + more, d); }
    }
    if InTapes(e, member, c, t) {
      var d :| OnDay(e, member, c, t, d);
      if d != day { OnOtherDays(e, member, c, t, day, TapeOn(t, day) + more, d); }
    }
  }

  /** A run keeps the record in step and adds exactly its events to the tapes. */
  lemma {:induction false} RunTracks(member: string, c: Calendar, sent: map<int, map<string, nat>>,
                                     tapes: map<int, seq<Append>>, usage: seq<DayUsage>, horizon: int)
    requires Tracks(sent, tapes, horizon) && ValidUsage(c, usage, horizon)
    ensures Tracks(RunSent(sent, usage), RunTapes(tapes, sent, usage), horizon)
    ensures forall e :: InTapes(e, member, c, RunTapes(tapes, sent, usage))
                   <==> InTapes(e, member, c, tapes) || e in RunEvents(member, c, sent, usage)
  {
    if |usage| > 0 {
      var front, u := usage[..|usage| - 1], usage[|usage| - 1];
      ValidUsageFront(c, usage, horizon);
      RunTracks(member, c, sent, tapes, front, horizon);
      var s, t := RunSent(sent, front), RunTapes(tapes, sent, front);
      var daySent, tape := SentOn(s, u.day), TapeOn(t, u.day);
      GrowMatches(daySent, tape, u.apps);
      var deltas := Deltas(daySent, u.apps);
      forall d | d >= horizon
        ensures Matches(SentOn(RunSent(sent, usage), d), TapeOn(RunTapes(tapes, sent, usage), d))
      {
        if d != u.day { assert Matches(SentOn(s, d), TapeOn(t, d)); }
      }
      forall d ensures ValidAppends(TapeOn(RunTapes(tapes, sent, usage), d)) {
        assert ValidAppends(TapeOn(t, d)) && ValidAppends(tape);
      }
      forall e ensures InTapes(e, member, c, t[u.day := tape + deltas])
        <==> (InTapes(e, member, c, t) || e in TapeOf(Reel(member, c, u.day), deltas, Length(tape))) {
        OneDayGrows(e, member, c, t, u.day, deltas);
      }
    }
  }

  // ---- what the server holds --------------------------------------------------

  ghost predicate Explained(row: Event, device: int, member: string, c: Calendar, tapes: map<int, seq<Append>>) {
    exists e :: InTapes(e, member, c, tapes) && RowFrom(row, device, e)
  }

  ghost predicate Held(rows: seq<Event>, device: int, e: RequestEvent) {
    exists row :: row in rows && RowFrom(row, device, e)
  }

  ghost predicate AllExplained(rows: seq<Event>, device: int, member: string, c: Calendar,
                               tapes: map<int, seq<Append>>) {
    forall row {:trigger Explained(row, device, member, c, tapes)} ::
      row in rows ==> Explained(row, device, member, c, tapes)
  }

  /** The table holds every event of the tapes and nothing else. */
  ghost predicate Faithful(rows: seq<Event>, device: int, member: string, c: Calendar, tapes: map<int, seq<Append>>) {
    && AllExplained(rows, device, member, c, tapes)
    && (forall e {:trigger Held(rows, device, e)} :: InTapes(e, member, c, tapes) ==> Held(rows, device, e))
  }

  ghost predicate SoundTapes(member: string, c: Calendar, tapes: map<int, seq<Append>>) {
    ValidSetting(member, c) && OnDays(c, tapes) && forall d :: ValidAppends(TapeOn(tapes, d))
  }

  lemma InTapesOrigin(e: RequestEvent, member: string, c: Calendar, tapes: map<int, seq<Append>>) returns (r: Reel)
    requires SoundTapes(member, c, tapes) && InTapes(e, member, c, tapes)
    ensures r.member == member && r.calendar == c && OnTape(r, e) && e in TapeOf(r, TapeOn(tapes, r.day), 0)
    ensures c.Has(r.day) && AfterYearOne(r)
    ensures WellFormed(e) && Normalised(e).uuid == e.eventId
  {
    var d :| OnDay(e, member, c, tapes, d);
    r := Reel(member, c, d);
    TapeMember(r, TapeOn(tapes, d), 0, e);
    OnTapeWellFormed(r, e);
  }

  lemma OneIdOneEvent(e: RequestEvent, e': RequestEvent, member: string, c: Calendar, tapes: map<int, seq<Append>>)
    requires SoundTapes(member, c, tapes) && InTapes(e, member, c, tapes) && InTapes(e', member, c, tapes)
    requires e.eventId == e'.eventId
    ensures e == e'
  {
    var r := InTapesOrigin(e, member, c, tapes);
    var r' := InTapesOrigin(e', member, c, tapes);
    SameIdSameEvent(r, r', e, e');
  }

  /** Posting events keeps the table faithful: an event whose id is already there is there itself. */
  lemma {:induction false} InsertFaithful(rows: seq<Event>, device: int, member: string, c: Calendar,
      tapes: map<int, seq<Append>>, tapes': map<int, seq<Append>>, events: seq<RequestEvent>)
    requires SoundTapes(member, c, tapes') && (forall e :: e in events ==> WellFormed(e))
    requires Faithful(rows, device, member, c, tapes)
    requires forall e :: InTapes(e, member, c, tapes') <==> InTapes(e, member, c, tapes) || e in events
    ensures Faithful(InsertAll(rows, device, NormalisedAll(events)), device, member, c, tapes')
  {
    forall row | row in rows ensures Explained(row, device, member, c, tapes') {
      assert Explained(row, device, member, c, tapes);
      var e :| InTapes(e, member, c, tapes) && RowFrom(row, device, e);
      assert InTapes(e, member, c, tapes');
    }
    InsertedRows(rows, device, member, c, tapes', events);
    var rows' := InsertAll(rows, device, NormalisedAll(events));
    forall e | InTapes(e, member, c, tapes') ensures Held(rows', device, e) {
      if e !in events {
        assert Held(rows, device, e);
        HeldGrows(rows, rows', device, e);
      }
    }
  }

  /** Inserting one event of the tapes: it is held afterwards, and so is all that was. */
  lemma InsertedRow(rows: seq<Event>, device: int, member: string, c: Calendar, tapes: map<int, seq<Append>>,
                    e: RequestEvent)
    requires SoundTapes(member, c, tapes) && InTapes(e, member, c, tapes)
             && AllExplained(rows, device, member, c, tapes)
    requires WellFormed(e)
    ensures var rows' := InsertOne(rows, device, Normalised(e));
            AllExplained(rows', device, member, c, tapes) && Held(rows', device, e)
  {
    var rows' := InsertOne(rows, device, Normalised(e));
    var r := InTapesOrigin(e, member, c, tapes);
    if Known(rows, e.eventId) {
      var i :| 0 <= i < |rows| && rows[i].uuid == e.eventId;
      assert Explained(rows[i], device, member, c, tapes);
      var e' :| InTapes(e', member, c, tapes) && RowFrom(rows[i], device, e');
      var r' := InTapesOrigin(e', member, c, tapes);
      OneIdOneEvent(e, e', member, c, tapes);
      assert RowFrom(rows[i], device, e);
    } else {
      var row := RowOf(|rows| + 1, device, Normalised(e));
      assert RowFrom(row, device, e) && row in rows';
      assert Explained(row, device, member, c, tapes);
    }
  }

  lemma HeldGrows(rows: seq<Event>, rows': seq<Event>, device: int, e: RequestEvent)
    requires Held(rows, device, e) && rows <= rows'
    ensures Held(rows', device, e)
  {
    var row :| row in rows && RowFrom(row, device, e);
    assert row in rows';
  }

  /** Every row afterwards comes from an event, and every event of the batch is held. */
  lemma {:induction false} InsertedRows(rows: seq<Event>, device: int, member: string, c: Calendar,
      tapes: map<int, seq<Append>>, events: seq<RequestEvent>)
    requires SoundTapes(member, c, tapes) && AllExplained(rows, device, member, c, tapes)
    requires forall e :: e in events ==> WellFormed(e) && InTapes(e, member, c, tapes)
    ensures var rows' := InsertAll(rows, device, NormalisedAll(events));
            && AllExplained(rows', device, member, c, tapes)
            && (forall e :: e in events ==> Held(rows', device, e))
  {
    if |events| > 0 {
      var front, e := events[..|events| - 1], events[|events| - 1];
      assert events == front + [e];
      InsertedRows(rows, device, member, c, tapes, front);
      var before := InsertAll(rows, device, NormalisedAll(front));
      assert NormalisedAll(events)[..|events| - 1] == NormalisedAll(front);
      InsertedRow(before, device, member, c, tapes, e);
      forall x | x in front ensures Held(InsertOne(before, device, Normalised(e)), device, x) {
        HeldGrows(before, InsertOne(before, device, Normalised(e)), device, x);
      }
    }
  }
}
