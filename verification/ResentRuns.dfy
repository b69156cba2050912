/** Histories of runs that may fail anywhere and may lose their state: what the server reports after any
    of them, and exactly when that is what the last run laid down. */
module ResentRuns {
  import opened Observations
  import opened Reports
  import opened UsageLaws
  import opened EventStore
  import opened Intake
  import opened Names
  import opened Tape
  import opened Collector
  import opened TapeUsage
  import opened CollectorRuns
  import opened Layers
  import opened LaidTables

  // ---- posting over a table ---------------------------------------------------

  lemma KnownRowHeld(row: Event, device: int, member: string, c: Calendar, p': Post, p: Post, e: RequestEvent)
    requires SoundPost(member, c, p') && SoundPost(member, c, p) && RowOfPost(row, device, member, c, p')
    requires Posted(e, member, c, p) && row.uuid == e.eventId
    ensures RowFrom(row, device, e)
  {
    hide Posted, SoundPost, Trim;
    var x :| Posted(x, member, c, p') && RowFrom(row, device, x);
    var r := PostedOrigin(x, member, c, p');
    SamePosted(x, p', e, p, member, c);
  }

  /** Posting one event: it is held afterwards, and a new row is its own. */
  lemma PostedOne(rows: seq<Event>, more: seq<Event>, posts: seq<Post>, p: Post, device: int, member: string,
                  c: Calendar, e: RequestEvent) returns (more': seq<Event>)
    requires LaidOver(rows, posts, device, member, c) && SoundPost(member, c, p)
    requires Posted(e, member, c, p) && WellFormed(e) && RowsOfPost(more, device, member, c, p)
    ensures InsertOne(rows + more, device, Normalised(e)) == rows + more' && more <= more'
    ensures RowsOfPost(more', device, member, c, p) && Held(rows + more', device, e)
  {
    hide SoundPost, Normalised, Trim, Posted, Decided, AllHeld, ValidRows;
    more' := more;
    var r := PostedOrigin(e, member, c, p);
    if Known(rows + more, e.eventId) {
      var i :| 0 <= i < |rows + more| && (rows + more)[i].uuid == e.eventId;
      var row := (rows + more)[i];
      if i < |rows| {
        var k :| 0 <= k < |posts| && RowOfPost(rows[i], device, member, c, posts[k]);
        KnownRowHeld(row, device, member, c, posts[k], p, e);
      } else {
        assert row in more && RowOfPost(row, device, member, c, p);
        KnownRowHeld(row, device, member, c, p, p, e);
      }
      assert row in rows + more;
    } else {
      var row := RowOf(|rows + more| + 1, device, Normalised(e));
      more' := more + [row];
      assert (rows + more) + [row] == rows + more';
      assert RowFrom(row, device, e) && RowOfPost(row, device, member, c, p);
      assert row in rows + more';
    }
  }

  lemma {:induction false} PostedAll(rows: seq<Event>, posts: seq<Post>, p: Post, device: int, member: string,
                                     c: Calendar, events: seq<RequestEvent>) returns (more: seq<Event>)
    requires LaidOver(rows, posts, device, member, c) && SoundPost(member, c, p)
    requires forall e :: e in events ==> WellFormed(e) && Posted(e, member, c, p)
    ensures InsertAll(rows, device, NormalisedAll(events)) == rows + more && RowsOfPost(more, device, member, c, p)
    ensures forall e :: e in events ==> Held(rows + more, device, e)
  {
    hide LaidOver, SoundPost, Posted, WellFormed, Normalised, RowOfPost;
    more := [];
    assert rows + [] == rows;
    if |events| > 0 {
      var front, last := events[..|events| - 1], events[|events| - 1];
      assert events == front + [last];
      var before := PostedAll(rows, posts, p, device, member, c, front);
      assert NormalisedAll(events)[..|events| - 1] == NormalisedAll(front);
      more := PostedOne(rows, before, posts, p, device, member, c, last);
      assert rows + before <= rows + more;
      forall e | e in front ensures Held(rows + more, device, e) {
        HeldGrows(rows + before, rows + more, device, e);
      }
    }
  }

  /** Posting what is missing of a post lays it over the table. */
  lemma Lay(rows: seq<Event>, posts: seq<Post>, p: Post, device: int, member: string, c: Calendar,
            events: seq<RequestEvent>)
    requires LaidOver(rows, posts, device, member, c) && SoundPost(member, c, p) && GoodEvents(events)
    requires forall e :: e in events ==> Posted(e, member, c, p)
    requires forall e :: Posted(e, member, c, p) ==> e in events || Held(rows, device, e)
    ensures LaidOver(PostAll(rows, device, MemberName(member), events), posts + [p], device, member, c)
    ensures rows <= PostAll(rows, device, MemberName(member), events)
  {
    hide FromPosts, AllHeld, Decided, SoundPost, Posted, WellFormed, ValidRows, RowsOfPost, FreshIds;
    MemberNameTrimmed(member);
    PostAllInserts(rows, device, MemberName(member), events);
    var more := PostedAll(rows, posts, p, device, member, c, events);
    InsertAllValid(rows, device, NormalisedAll(events));
    forall e | Posted(e, member, c, p) ensures Held(rows + more, device, e) {
      if e !in events {
        HeldGrows(rows, rows + more, device, e);
      }
    }
    OneMorePost(rows, more, posts, p, device, member, c);
  }

  lemma PostedWhole(e: RequestEvent, member: string, c: Calendar, tapes: map<int, seq<Append>>)
    ensures Posted(e, member, c, Post(tapes, None)) <==> InTapes(e, member, c, tapes)
  {
    hide TapeOf;
    var p := Post(tapes, None);
    assert forall d :: PostedOn(e, member, c, p, d) <==> OnDay(e, member, c, tapes, d);
    if InTapes(e, member, c, tapes) {
      var d :| OnDay(e, member, c, tapes, d);
      assert PostedOn(e, member, c, p, d);
    }
    if Posted(e, member, c, p) {
      var d :| PostedOn(e, member, c, p, d);
      assert OnDay(e, member, c, tapes, d);
    }
  }

  /** A table that holds exactly a post's events is the one the post leaves. */
  lemma OnePost(rows: seq<Event>, p: Post, device: int, member: string, c: Calendar)
    requires SoundPost(member, c, p) && ValidRows(rows)
    requires RowsOfPost(rows, device, member, c, p) && PostHeld(rows, device, member, c, p)
    ensures LaidOver(rows, [p], device, member, c)
  {
    hide RowsOfPost, PostHeld;
    NothingLaid(device, member, c);
    assert [] + rows == rows && [] + [p] == [p];
    OneMorePost([], rows, [], p, device, member, c);
  }

  // ---- runs that are cut off --------------------------------------------------

  /** The tapes after the first n events of a run are posted. */
  ghost function CutTapes(member: string, c: Calendar, tapes: map<int, seq<Append>>, sent: map<int, map<string, nat>>,
                          usage: seq<DayUsage>, n: nat): Post {
    if |usage| == 0 then Post(tapes, None)
    else
      var front, u := usage[..|usage| - 1], usage[|usage| - 1];
      var m := |RunEvents(member, c, sent, front)|;
      if n < m then CutTapes(member, c, tapes, sent, front, n)
      else
        var full := RunTapes(tapes, sent, front);
        var cut := CutTape(Deltas(SentOn(RunSent(sent, front), u.day), u.apps), n - m);
        Post(full[u.day := TapeOn(full, u.day) + cut.appends], if cut.ended then None else Some(u.day))
  }

  /** Nothing is cut from a run that posts everything. */
  lemma {:induction false} CutNothing(member: string, c: Calendar, tapes: map<int, seq<Append>>,
                                      sent: map<int, map<string, nat>>, usage: seq<DayUsage>, n: nat)
    requires n >= |RunEvents(member, c, sent, usage)|
    ensures CutTapes(member, c, tapes, sent, usage, n) == Post(RunTapes(tapes, sent, usage), None)
  {
    hide TapeOf, CutTape, Deltas, RunSent, EventCount;
    if |usage| > 0 {
      var front, u := usage[..|usage| - 1], usage[|usage| - 1];
      var daySent := SentOn(RunSent(sent, front), u.day);
      var deltas := Deltas(daySent, u.apps);
      CutTapeEvents(Reel(member, c, u.day), deltas, SumNat(daySent), 0);
      CutWhole(deltas, n - |RunEvents(member, c, sent, front)|);
    }
  }

  lemma LayerConcat(r: Reel, a: seq<Append>, l: Layer)
    requires !l.ended ==> |l.appends| > 0
    ensures LayerEvents(r, Layer(a + l.appends, l.ended), 0) == TapeOf(r, a, 0) + LayerEvents(r, l, Length(a))
  {
    hide TapeOf, Length;
    TapeConcat(r, a, l.appends, 0);
    if !l.ended {
      TapeLast(r, l.appends, Length(a));
      TapeLast(r, a + l.appends, 0);
    }
  }

  /** One day's tape grows by a layer; the other days stay. */
  lemma GrownByLayer(e: RequestEvent, member: string, c: Calendar, full: map<int, seq<Append>>, day: int, l: Layer)
    requires !l.ended ==> |l.appends| > 0
    ensures var p := Post(full[day := TapeOn(full, day) + l.appends], if l.ended then None else Some(day));
            Posted(e, member, c, p)
            <==> (InTapes(e, member, c, full)
                  || e in LayerEvents(Reel(member, c, day), l, Length(TapeOn(full, day))))
  {
    hide TapeOf, LayerEvents, Length;
    var p := Post(full[day := TapeOn(full, day) + l.appends], if l.ended then None else Some(day));
    var r := Reel(member, c, day);
    LayerConcat(r, TapeOn(full, day), l);
    assert LayerOn(p, day) == Layer(TapeOn(full, day) + l.appends, l.ended);
    forall d | d != day ensures PostedOn(e, member, c, p, d) <==> OnDay(e, member, c, full, d) {
      WholeEvents(Reel(member, c, d), TapeOn(full, d));
    }
    if Posted(e, member, c, p) {
      var d :| PostedOn(e, member, c, p, d);
      if d == day && e in TapeOf(r, TapeOn(full, day), 0) {
        assert OnDay(e, member, c, full, day);
      }
    }
    if InTapes(e, member, c, full) {
      var d :| OnDay(e, member, c, full, d);
      assert PostedOn(e, member, c, p, d);
    }
    if e in LayerEvents(r, l, Length(TapeOn(full, day))) {
      assert PostedOn(e, member, c, p, day);
    }
  }

  lemma WholeEvents(r: Reel, a: seq<Append>)
    ensures LayerEvents(r, Layer(a, true), 0) == TapeOf(r, a, 0)
  {
  }

  /** A run that is cut off has added exactly the events it posted. */
  lemma {:induction false} CutEvents(member: string, c: Calendar, tapes: map<int, seq<Append>>,
                                     sent: map<int, map<string, nat>>, usage: seq<DayUsage>, n: nat, horizon: int)
    requires Tracks(sent, tapes, horizon) && OnDays(c, tapes)
    requires ValidUsage(c, usage, horizon) && ValidSetting(member, c)
    ensures SoundPost(member, c, CutTapes(member, c, tapes, sent, usage, n))
    ensures var all := RunEvents(member, c, sent, usage);
            forall e :: Posted(e, member, c, CutTapes(member, c, tapes, sent, usage, n))
                   <==> InTapes(e, member, c, tapes) || e in all[..Min(n, |all|)]
  {
    hide TapeOf, CutTape, Posted, InTapes, Matches;
    if |usage| == 0 {
      forall e ensures Posted(e, member, c, Post(tapes, None)) <==> InTapes(e, member, c, tapes) {
        PostedWhole(e, member, c, tapes);
      }
    } else {
      var front, u := usage[..|usage| - 1], usage[|usage| - 1];
      var done, all := RunEvents(member, c, sent, front), RunEvents(member, c, sent, usage);
      ValidUsageFront(c, usage, horizon);
      RunTracks(member, c, sent, tapes, front, horizon);
      RunOnDays(c, sent, tapes, front, horizon);
      if n < |done| {
        CutEvents(member, c, tapes, sent, front, n, horizon);
        assert all[..n] == done[..n];
      } else {
        CutLastDay(member, c, tapes, sent, usage, n, horizon);
      }
    }
  }

  /** The tape of the last day before it grows, and what is to be appended. */
  lemma BeforeLastDay(member: string, c: Calendar, tapes: map<int, seq<Append>>, sent: map<int, map<string, nat>>,
                      usage: seq<DayUsage>, horizon: int)
    requires Tracks(sent, tapes, horizon) && OnDays(c, tapes)
    requires ValidUsage(c, usage, horizon) && ValidSetting(member, c) && |usage| > 0
    ensures var front, u := usage[..|usage| - 1], usage[|usage| - 1];
            var full, daySent := RunTapes(tapes, sent, front), SentOn(RunSent(sent, front), u.day);
            && SoundTapes(member, c, full) && c.Has(u.day) && ValidAppends(Deltas(daySent, u.apps))
            && SumNat(daySent) == Length(TapeOn(full, u.day))
            && forall e :: InTapes(e, member, c, full)
                      <==> InTapes(e, member, c, tapes) || e in RunEvents(member, c, sent, front)
  {
    hide InTapes, RunTapes, Deltas, RunEvents, ValidSetting;
    var front, u := usage[..|usage| - 1], usage[|usage| - 1];
    ValidUsageFront(c, usage, horizon);
    RunTracks(member, c, sent, tapes, front, horizon);
    RunOnDays(c, sent, tapes, front, horizon);
    assert Matches(SentOn(RunSent(sent, front), u.day), TapeOn(RunTapes(tapes, sent, front), u.day));
    DeltasValid(SentOn(RunSent(sent, front), u.day), u.apps);
  }

  lemma CutLastDay(member: string, c: Calendar, tapes: map<int, seq<Append>>, sent: map<int, map<string, nat>>,
                   usage: seq<DayUsage>, n: nat, horizon: int)
    requires Tracks(sent, tapes, horizon) && OnDays(c, tapes)
    requires ValidUsage(c, usage, horizon) && ValidSetting(member, c) && |usage| > 0
    requires n >= |RunEvents(member, c, sent, usage[..|usage| - 1])|
    ensures SoundPost(member, c, CutTapes(member, c, tapes, sent, usage, n))
    ensures var all := RunEvents(member, c, sent, usage);
            forall e :: Posted(e, member, c, CutTapes(member, c, tapes, sent, usage, n))
                   <==> InTapes(e, member, c, tapes) || e in all[..Min(n, |all|)]
  {
    hide TapeOf, CutTape, Posted, InTapes, RunTapes, LayerEvents, ValidUsage, Deltas, Tracks, SoundTapes, SoundPost,
         SoundLayer, ValidAppends, Length;
    var front, u := usage[..|usage| - 1], usage[|usage| - 1];
    var done, all := RunEvents(member, c, sent, front), RunEvents(member, c, sent, usage);
    BeforeLastDay(member, c, tapes, sent, usage, horizon);
    var full, daySent := RunTapes(tapes, sent, front), SentOn(RunSent(sent, front), u.day);
    var tape, deltas, r := TapeOn(full, u.day), Deltas(daySent, u.apps), Reel(member, c, u.day);
    var cut := CutTape(deltas, n - |done|);
    CutSound(deltas, n - |done|);
    CutTapeEvents(r, deltas, Length(tape), n - |done|);
    var p := CutTapes(member, c, tapes, sent, usage, n);
    GrownSound(member, c, full, u.day, cut);
    assert all[..Min(n, |all|)] == done + LayerEvents(r, cut, Length(tape));
    forall e ensures Posted(e, member, c, p) <==> InTapes(e, member, c, tapes) || e in all[..Min(n, |all|)] {
      GrownByLayer(e, member, c, full, u.day, cut);
    }
  }

  lemma GrownSound(member: string, c: Calendar, full: map<int, seq<Append>>, day: int, l: Layer)
    requires SoundTapes(member, c, full) && SoundLayer(l) && c.Has(day)
    ensures SoundPost(member, c, Post(full[day := TapeOn(full, day) + l.appends], if l.ended then None else Some(day)))
  {
    var t := full[day := TapeOn(full, day) + l.appends];
    forall d ensures ValidAppends(TapeOn(t, d)) {
      assert ValidAppends(TapeOn(full, d));
    }
  }

  // ---- histories --------------------------------------------------------------

  /** One run of the collector: whether the state file is gone when it starts, how many of its events get
      through, and whether it lives to write the state. */
  datatype Attempt = Attempt(today: int, usage: seq<DayUsage>, lost: bool, posted: nat, saved: bool)

  /** The state file, the tapes it stands for, the server's table, and all that was ever posted. */
  datatype History = History(
    state: map<int, map<string, nat>>,
    base: map<int, seq<Append>>,
    rows: seq<Event>,
    posts: seq<Post>
  )

  function Forget(h: History, lost: bool): History {
    if lost then h.(state := map[], base := map[]) else h
  }

  ghost function Attempted(h: History, device: int, member: string, c: Calendar, a: Attempt): History {
    var events := RunEvents(member, c, h.state, a.usage);
    var next := h.(rows := PostAll(h.rows, device, MemberName(member), events[..Min(a.posted, |events|)]),
                   posts := h.posts + [CutTapes(member, c, h.base, h.state, a.usage, a.posted)]);
    if a.saved && a.posted >= |events|
    then next.(state := SavedAfter(member, c, h.state, Run(a.today, a.usage)),
               base := RunTapes(h.base, h.state, a.usage))
    else next
  }

  ghost function After(device: int, member: string, c: Calendar, attempts: seq<Attempt>): History {
    if |attempts| == 0 then History(map[], map[], [], [])
    else
      var a := attempts[|attempts| - 1];
      Attempted(Forget(After(device, member, c, attempts[..|attempts| - 1]), a.lost), device, member, c, a)
  }

  ghost predicate ValidAttempts(c: Calendar, attempts: seq<Attempt>) {
    && (forall i :: 0 <= i < |attempts| ==> ValidUsage(c, attempts[i].usage, attempts[i].today - KEEP_DAYS))
    && (forall i, j :: 0 <= i < j < |attempts| ==> attempts[i].today <= attempts[j].today)
  }

  /** The state stands for the base tapes, and the table is what all posts so far leave, the base included. */
  ghost predicate GoodHistory(h: History, device: int, member: string, c: Calendar, horizon: int) {
    && Tracks(h.state, h.base, horizon) && OnDays(c, h.base)
    && LaidOver(h.rows, h.posts, device, member, c)
    && (forall e {:trigger Held(h.rows, device, e)} :: InTapes(e, member, c, h.base) ==> Held(h.rows, device, e))
  }

  lemma NothingTracked(horizon: int)
    ensures Tracks(map[], map[], horizon)
  {
    assert forall d :: Matches(SentOn(map[], d), TapeOn(map[], d));
  }

  lemma ForgetGood(h: History, device: int, member: string, c: Calendar, horizon: int, lost: bool)
    requires GoodHistory(h, device, member, c, horizon)
    ensures GoodHistory(Forget(h, lost), device, member, c, horizon)
  {
    hide LaidOver, Tracks, InTapes;
    NothingTracked(horizon);
    if lost {
      forall e ensures !InTapes(e, member, c, map[]) {
        NothingInEmpty(e, member, c);
      }
    }
  }

  lemma SavedTracks(member: string, c: Calendar, state: map<int, map<string, nat>>, base: map<int, seq<Append>>,
                    run: Run, horizon: int)
    requires Tracks(state, base, run.today - KEEP_DAYS) && ValidUsage(c, run.usage, run.today - KEEP_DAYS)
    requires run.today - KEEP_DAYS <= horizon
    ensures Tracks(SavedAfter(member, c, state, run), RunTapes(base, state, run.usage), horizon)
  {
    hide Matches, ValidAppends;
    var tapes := RunTapes(base, state, run.usage);
    RunTracks(member, c, state, base, run.usage, run.today - KEEP_DAYS);
    if RunEvents(member, c, state, run.usage) == [] {
      QuietRun(member, c, state, run.usage);
    }
    forall d | d >= horizon ensures Matches(SentOn(SavedAfter(member, c, state, run), d), TapeOn(tapes, d)) {
      assert Matches(SentOn(RunSent(state, run.usage), d), TapeOn(tapes, d));
    }
  }

  lemma EventsPart(events: seq<RequestEvent>, n: nat)
    requires GoodEvents(events) && n <= |events|
    ensures GoodEvents(events[..n])
  {
    GoodPart(events, 0, n);
    assert events[0..n] == events[..n];
  }

  /** An attempt adds one post to the table, whatever becomes of it. */
  lemma AttemptLaid(h: History, device: int, member: string, c: Calendar, a: Attempt)
    requires GoodHistory(h, device, member, c, a.today - KEEP_DAYS) && ValidSetting(member, c)
    requires ValidUsage(c, a.usage, a.today - KEEP_DAYS)
    ensures var h' := Attempted(h, device, member, c, a);
            LaidOver(h'.rows, h'.posts, device, member, c) && h.rows <= h'.rows
  {
    hide LaidOver, Tracks, InTapes, RunEvents, CutTapes, PostAll, SavedAfter, RunTapes, ValidUsage, SoundPost, Posted;
    var events := RunEvents(member, c, h.state, a.usage);
    var part := events[..Min(a.posted, |events|)];
    RunEventsGood(member, c, h.state, a.usage, a.today - KEEP_DAYS);
    EventsPart(events, Min(a.posted, |events|));
    CutEvents(member, c, h.base, h.state, a.usage, a.posted, a.today - KEEP_DAYS);
    Lay(h.rows, h.posts, CutTapes(member, c, h.base, h.state, a.usage, a.posted), device, member, c, part);
  }

  lemma AttemptGood(h: History, device: int, member: string, c: Calendar, a: Attempt, horizon: int)
    requires GoodHistory(h, device, member, c, a.today - KEEP_DAYS) && ValidSetting(member, c)
    requires ValidUsage(c, a.usage, a.today - KEEP_DAYS) && a.today - KEEP_DAYS <= horizon
    ensures GoodHistory(Attempted(h, device, member, c, a), device, member, c, horizon)
  {
    hide LaidOver, InTapes, RunEvents, CutTapes, PostAll, SavedAfter, RunTapes, ValidUsage, Posted, Matches;
    var h', events := Attempted(h, device, member, c, a), RunEvents(member, c, h.state, a.usage);
    AttemptLaid(h, device, member, c, a);
    if a.saved && a.posted >= |events| {
      SavedTracks(member, c, h.state, h.base, Run(a.today, a.usage), horizon);
      RunOnDays(c, h.state, h.base, a.usage, a.today - KEEP_DAYS);
      CutNothing(member, c, h.base, h.state, a.usage, a.posted);
      PostHeldNow(h'.rows, h.posts, Post(h'.base, None), device, member, c);
    } else {
      forall e | InTapes(e, member, c, h.base) ensures Held(h'.rows, device, e) {
        HeldGrows(h.rows, h'.rows, device, e);
      }
    }
  }

  lemma PostHeldNow(rows: seq<Event>, posts: seq<Post>, p: Post, device: int, member: string, c: Calendar)
    requires LaidOver(rows, posts + [p], device, member, c) && p.cut.None?
    ensures forall e {:trigger Held(rows, device, e)} :: InTapes(e, member, c, p.tapes) ==> Held(rows, device, e)
  {
    hide Decided, FromPosts, ValidRows, Posted, InTapes;
    assert (posts + [p])[|posts|] == p;
    assert PostHeld(rows, device, member, c, p);
    forall e | InTapes(e, member, c, p.tapes) ensures Held(rows, device, e) {
      PostedWhole(e, member, c, p.tapes);
    }
  }

  /** Whatever fails or is lost on the way: the state stands for its tapes, and the table is what all
      posts leave, one over the other. */
  lemma {:induction false} HistoryGood(device: int, member: string, c: Calendar, attempts: seq<Attempt>, horizon: int)
    requires ValidAttempts(c, attempts) && ValidSetting(member, c)
    requires |attempts| > 0 ==> attempts[|attempts| - 1].today - KEEP_DAYS <= horizon
    ensures GoodHistory(After(device, member, c, attempts), device, member, c, horizon)
  {
    hide GoodHistory, Attempted, Forget, ValidUsage;
    if |attempts| == 0 {
      NothingGood(device, member, c, horizon);
    } else {
      var front, a := attempts[..|attempts| - 1], attempts[|attempts| - 1];
      assert ValidAttempts(c, front) by { assert forall i :: 0 <= i < |front| ==> front[i] == attempts[i]; }
      HistoryGood(device, member, c, front, a.today - KEEP_DAYS);
      ForgetGood(After(device, member, c, front), device, member, c, a.today - KEEP_DAYS, a.lost);
      AttemptGood(Forget(After(device, member, c, front), a.lost), device, member, c, a, horizon);
    }
  }

  lemma NothingGood(device: int, member: string, c: Calendar, horizon: int)
    requires ValidSetting(member, c)
    ensures GoodHistory(History(map[], map[], [], []), device, member, c, horizon)
  {
    NothingTracked(horizon);
    NothingLaid(device, member, c);
    forall e ensures !InTapes(e, member, c, map[]) {
      NothingInEmpty(e, member, c);
    }
  }

  /** After any history of runs, whatever failed and was lost on the way, the report on any stretch of any
      day is the number of seconds of the merged posts, what runs on from earlier days included. */
  lemma HistoryReport(device: int, member: string, c: Calendar, attempts: seq<Attempt>, day: int, x: nat, y: nat,
                      now: int, maxGap: int, who: Who)
    requires ValidAttempts(c, attempts) && ValidSetting(member, c)
    requires ShortPosts(c, After(device, member, c, attempts).posts)
    requires c.Has(day) && x <= y <= c.midnight(day + 1) - c.midnight(day)
    requires Whole(maxGap) && (now == ZERO_TIME || now >= c.midnight(day + 1) * NS_PER_SECOND)
    ensures var h := After(device, member, c, attempts);
            Usage(h.rows, (c.midnight(day) + x) * NS_PER_SECOND, (c.midnight(day) + y) * NS_PER_SECOND, now, maxGap,
                  who, NS_PER_SECOND)
            == CountOn(h.posts, c, day, x, y, who, maxGap)
  {
    hide LaidOver, Tracks, ShortPosts, LitOn, Usage, After;
    HistoryGood(device, member, c, attempts, if |attempts| > 0 then attempts[|attempts| - 1].today else 0);
    var h := After(device, member, c, attempts);
    MergedReport(h.rows, h.posts, device, member, c, day, x, y, now, maxGap, who);
  }

  /** And where the last run has posted everything, every second is credited, and every stretch reported,
      as on its tapes if and only if they are kept over all that was posted before. */
  lemma HistoryExact(device: int, member: string, c: Calendar, front: seq<Attempt>, a: Attempt, day: int, now: int,
                     maxGap: int)
    requires ValidAttempts(c, front + [a]) && ValidSetting(member, c)
    requires var h := Forget(After(device, member, c, front), a.lost);
             a.posted >= |RunEvents(member, c, h.state, a.usage)|
    requires ShortPosts(c, After(device, member, c, front + [a]).posts) && c.Has(day)
    requires GapCovers(maxGap) && Whole(maxGap) && (now == ZERO_TIME || now >= c.midnight(day + 1) * NS_PER_SECOND)
    ensures var h, h' := Forget(After(device, member, c, front), a.lost), After(device, member, c, front + [a]);
            var tapes := RunTapes(h.base, h.state, a.usage);
            && (Credited(h'.rows, c, day, TapeOn(tapes, day), maxGap) <==> KeptOn(h.posts, tapes, c, day, maxGap))
            && (Reported(h'.rows, c, day, TapeOn(tapes, day), now, maxGap) <==> KeptOn(h.posts, tapes, c, day, maxGap))
  {
    hide LaidOver, Tracks, ShortPosts, KeptOn, Credited, Reported, RunTapes, LayersOn, ValidUsage, RunEvents, CutTapes;
    var h := Forget(After(device, member, c, front), a.lost);
    assert (front + [a])[..|front|] == front;
    HistoryGood(device, member, c, front + [a], a.today);
    CutNothing(member, c, h.base, h.state, a.usage, a.posted);
    var h' := After(device, member, c, front + [a]);
    var tapes := RunTapes(h.base, h.state, a.usage);
    assert h'.posts == h.posts + [Post(tapes, None)];
    CreditedIffKept(h'.rows, h.posts, tapes, device, member, c, day, maxGap);
    ReportedIffKept(h'.rows, h.posts, tapes, device, member, c, day, now, maxGap);
  }
}
