/** What the server's table says once several tapes, whole or cut, have been posted over one another:
    every second is credited as the merged layers of its day say. */
module LaidTables {
  import opened Observations
  import opened Reports
  import opened UsageLaws
  import opened EventStore
  import opened Intake
  import opened Tape
  import opened Collector
  import opened TapeUsage
  import opened Layers

  // ---- posts ------------------------------------------------------------------

  /** The tapes of all days as posted once; on the cut day the last terminator is missing. */
  datatype Post = Post(tapes: map<int, seq<Append>>, cut: Option<int>)

  function LayerOn(p: Post, day: int): Layer {
    Layer(TapeOn(p.tapes, day), p.cut != Some(day))
  }

  function LayersOn(posts: seq<Post>, day: int): (s: seq<Layer>)
    ensures |s| == |posts| && forall k :: 0 <= k < |posts| ==> s[k] == LayerOn(posts[k], day)
  {
    seq(|posts|, k requires 0 <= k < |posts| => LayerOn(posts[k], day))
  }

  ghost predicate SoundPost(member: string, c: Calendar, p: Post) {
    SoundTapes(member, c, p.tapes) && (p.cut.Some? ==> |TapeOn(p.tapes, p.cut.value)| > 0)
  }

  ghost predicate PostedOn(e: RequestEvent, member: string, c: Calendar, p: Post, day: int) {
    e in LayerEvents(Reel(member, c, day), LayerOn(p, day), 0)
  }

  ghost predicate Posted(e: RequestEvent, member: string, c: Calendar, p: Post) {
    exists d :: PostedOn(e, member, c, p, d)
  }

  ghost predicate RowOfPost(row: Event, device: int, member: string, c: Calendar, p: Post) {
    exists e :: Posted(e, member, c, p) && RowFrom(row, device, e)
  }

  ghost predicate RowsOfPost(rows: seq<Event>, device: int, member: string, c: Calendar, p: Post) {
    forall row {:trigger RowOfPost(row, device, member, c, p)} :: row in rows ==> RowOfPost(row, device, member, c, p)
  }

  ghost predicate PostHeld(rows: seq<Event>, device: int, member: string, c: Calendar, p: Post) {
    forall e {:trigger Held(rows, device, e)} :: Posted(e, member, c, p) ==> Held(rows, device, e)
  }

  lemma SoundOnDay(member: string, c: Calendar, p: Post, day: int)
    requires SoundPost(member, c, p)
    ensures SoundLayer(LayerOn(p, day)) && ValidCalendar(c)
    ensures |TapeOn(p.tapes, day)| > 0 ==> c.Has(day) && AfterYearOne(Reel(member, c, day))
  {
  }

  lemma ElementOf(r: Reel, a: seq<Append>, e: RequestEvent)
    requires e in TapeOf(r, a, 0)
    ensures |a| > 0
  {
  }

  lemma PostedOrigin(e: RequestEvent, member: string, c: Calendar, p: Post) returns (r: Reel)
    requires SoundPost(member, c, p) && Posted(e, member, c, p)
    ensures r == Reel(member, c, r.day) && PostedOn(e, member, c, p, r.day)
    ensures e in TapeOf(r, TapeOn(p.tapes, r.day), 0) && OnTape(r, e) && |TapeOn(p.tapes, r.day)| > 0
    ensures c.Has(r.day) && AfterYearOne(r) && ValidCalendar(c)
    ensures WellFormed(e) && Normalised(e).uuid == e.eventId
  {
    hide TapeOf, LayerEvents;
    var d :| PostedOn(e, member, c, p, d);
    r := Reel(member, c, d);
    SoundOnDay(member, c, p, d);
    LayerEvent(r, LayerOn(p, d), e);
    ElementOf(r, TapeOn(p.tapes, d), e);
    TapeMember(r, TapeOn(p.tapes, d), 0, e);
    OnTapeWellFormed(r, e);
  }

  /** Two posted events with one id are one event of one day, whichever posts they are from. */
  lemma SamePosted(e: RequestEvent, p: Post, e': RequestEvent, p': Post, member: string, c: Calendar)
    requires SoundPost(member, c, p) && SoundPost(member, c, p') && Posted(e, member, c, p) && Posted(e', member, c, p')
    requires e.eventId == e'.eventId
    ensures e == e'
  {
    hide TapeOf, OnTape, Posted, PostedOn;
    var r := PostedOrigin(e, member, c, p);
    var r' := PostedOrigin(e', member, c, p');
    SameIdSameEvent(r, r', e, e');
  }

  // ---- the table --------------------------------------------------------------

  /** The row is a heartbeat of the app at offset o of the day. */
  ghost predicate BeatRow(row: Event, device: int, r: Reel, app: string, o: nat) {
    ValidApp(app) && RowFrom(row, device, Beat(r, app, o))
  }

  ghost predicate AnyBeatRow(row: Event, device: int, r: Reel, o: nat) {
    exists app :: BeatRow(row, device, r, app, o)
  }

  /** Among the rows for heartbeats at one offset of a day the last is the one that decides. */
  ghost predicate LastDecides(rows: seq<Event>, device: int, r: Reel, layers: seq<Layer>, o: nat, i: nat)
    requires i < |rows|
  {
    AnyBeatRow(rows[i], device, r, o) ==>
      && BeatOf(layers, o).Some?
      && exists j :: i <= j < |rows| && BeatRow(rows[j], device, r, BeatOf(layers, o).value, o)
  }

  ghost predicate Decided(rows: seq<Event>, device: int, member: string, c: Calendar, posts: seq<Post>) {
    forall d, o: nat, i: nat :: c.Has(d) && i < |rows| ==>
      LastDecides(rows, device, Reel(member, c, d), LayersOn(posts, d), o, i)
  }

  ghost predicate FromPosts(rows: seq<Event>, device: int, member: string, c: Calendar, posts: seq<Post>) {
    forall i :: 0 <= i < |rows| ==> exists k :: 0 <= k < |posts| && RowOfPost(rows[i], device, member, c, posts[k])
  }

  ghost predicate AllHeld(rows: seq<Event>, device: int, member: string, c: Calendar, posts: seq<Post>) {
    forall k :: 0 <= k < |posts| ==> PostHeld(rows, device, member, c, posts[k])
  }

  ghost predicate SoundPosts(member: string, c: Calendar, posts: seq<Post>) {
    ValidSetting(member, c) && forall k :: 0 <= k < |posts| ==> SoundPost(member, c, posts[k])
  }

  /** The table is what posting these tapes one after the other leaves. */
  ghost predicate LaidOver(rows: seq<Event>, posts: seq<Post>, device: int, member: string, c: Calendar) {
    && ValidRows(rows) && SoundPosts(member, c, posts)
    && FromPosts(rows, device, member, c, posts) && AllHeld(rows, device, member, c, posts)
    && Decided(rows, device, member, c, posts)
  }

  lemma NothingLaid(device: int, member: string, c: Calendar)
    requires ValidSetting(member, c)
    ensures LaidOver([], [], device, member, c)
  {
  }

  /** A heartbeat row that comes from a post is that post's heartbeat at the offset. */
  lemma BeatOfPost(row: Event, device: int, member: string, c: Calendar, p: Post, d: int, app: string, o: nat)
    requires SoundPost(member, c, p) && RowOfPost(row, device, member, c, p) && c.Has(d)
    requires BeatRow(row, device, Reel(member, c, d), app, o)
    ensures Posted(Beat(Reel(member, c, d), app, o), member, c, p) && BeatsWith(LayerOn(p, d), o, app)
  {
    hide TapeOf, LayerEvents;
    var r := Reel(member, c, d);
    var b := Beat(r, app, o);
    var e :| Posted(e, member, c, p) && RowFrom(row, device, e);
    var r' := PostedOrigin(e, member, c, p);
    SoundOnDay(member, c, p, d);
    assert OnTape(r, b) by { assert IsBeat(r, b, app, o); }
    OnTapeWellFormed(r, b);
    SameIdSameEvent(r, r', b, e);
    var z := ActiveIsBeat(r, TapeOn(p.tapes, d), 0, b);
  }

  /** A heartbeat of a post's layer is posted. */
  lemma BeatIsPosted(member: string, c: Calendar, p: Post, d: int, o: nat, app: string)
    requires SoundPost(member, c, p) && BeatsWith(LayerOn(p, d), o, app)
    ensures Posted(Beat(Reel(member, c, d), app, o), member, c, p) && ValidApp(app)
  {
    hide TapeOf, LayerEvents;
    var r, l := Reel(member, c, d), LayerOn(p, d);
    SoundOnDay(member, c, p, d);
    var app' := BeatAtIsOn(r, l.appends, 0, o);
    LayerEvent(r, l, Beat(r, app, o));
    assert PostedOn(Beat(r, app, o), member, c, p, d);
    var z, end := BeatRules(r, l.appends, 0, Beat(r, app, o));
  }

  // ---- one more post ----------------------------------------------------------

  lemma LayersMore(posts: seq<Post>, p: Post, day: int)
    ensures LayersOn(posts + [p], day) == LayersOn(posts, day) + [LayerOn(p, day)]
  {
  }

  lemma BeatOfMore(layers: seq<Layer>, l: Layer, o: nat)
    ensures BeatOf(layers + [l], o)
         == if BeatAt(l.appends, 0, o) && AppAt(l.appends, 0, o).Some?
             && !Beaten(layers, o, AppAt(l.appends, 0, o).value)
            then AppAt(l.appends, 0, o) else BeatOf(layers, o)
  {
    assert (layers + [l])[..|layers|] == layers;
  }

  /** A heartbeat that the table held before is not among the new rows. */
  lemma NotTwice(rows: seq<Event>, more: seq<Event>, device: int, r: Reel, app: string, o: nat, j: nat)
    requires ValidRows(rows + more) && Held(rows, device, Beat(r, app, o)) && j < |more|
    ensures !BeatRow(more[j], device, r, app, o)
  {
    var row :| row in rows && RowFrom(row, device, Beat(r, app, o));
    var i :| 0 <= i < |rows| && rows[i] == row;
    assert (rows + more)[i] == row && (rows + more)[|rows| + j] == more[j];
  }

  /** A row of the last post's that is a heartbeat is the heartbeat of its layer. */
  lemma NewBeatRow(rows: seq<Event>, more: seq<Event>, device: int, member: string, c: Calendar, p: Post, d: int,
                   o: nat, j: nat)
    returns (app: string)
    requires SoundPost(member, c, p) && RowsOfPost(more, device, member, c, p) && j < |more|
    requires c.Has(d) && AnyBeatRow(more[j], device, Reel(member, c, d), o)
    ensures BeatRow(more[j], device, Reel(member, c, d), app, o) && BeatsWith(LayerOn(p, d), o, app)
  {
    hide TapeOf, Beat;
    app :| BeatRow(more[j], device, Reel(member, c, d), app, o);
    assert more[j] in more && RowOfPost(more[j], device, member, c, p);
    BeatOfPost(more[j], device, member, c, p, d, app, o);
  }

  lemma OldDecides(rows: seq<Event>, more: seq<Event>, device: int, r: Reel, layers: seq<Layer>, layers': seq<Layer>,
                   o: nat, i: nat)
    requires i < |rows| && LastDecides(rows, device, r, layers, o, i) && BeatOf(layers', o) == BeatOf(layers, o)
    ensures LastDecides(rows + more, device, r, layers', o, i)
  {
    if AnyBeatRow(rows[i], device, r, o) {
      var j :| i <= j < |rows| && BeatRow(rows[j], device, r, BeatOf(layers, o).value, o);
      assert (rows + more)[j] == rows[j];
    }
  }

  lemma OldBeatRow(rows: seq<Event>, posts: seq<Post>, device: int, member: string, c: Calendar, d: int, o: nat,
                   app: string, j: nat)
    requires LaidOver(rows, posts, device, member, c) && j < |rows| && c.Has(d)
    requires BeatRow(rows[j], device, Reel(member, c, d), app, o)
    ensures Beaten(LayersOn(posts, d), o, app)
  {
    hide TapeOf, Beat, Decided, AllHeld, ValidRows;
    var k :| 0 <= k < |posts| && RowOfPost(rows[j], device, member, c, posts[k]);
    BeatOfPost(rows[j], device, member, c, posts[k], d, app, o);
    assert BeatsWith(LayersOn(posts, d)[k], o, app);
  }

  /** The new layer's own heartbeat decides: it comes behind every row there was. */
  lemma NewDecides(rows: seq<Event>, more: seq<Event>, posts: seq<Post>, p: Post, device: int, member: string,
                   c: Calendar, d: int, o: nat, app: string) returns (j: nat)
    requires LaidOver(rows, posts, device, member, c) && SoundPost(member, c, p)
    requires PostHeld(rows + more, device, member, c, p)
    requires c.Has(d) && BeatsWith(LayerOn(p, d), o, app) && !Beaten(LayersOn(posts, d), o, app)
    ensures |rows| <= j < |rows + more| && BeatRow((rows + more)[j], device, Reel(member, c, d), app, o)
  {
    hide TapeOf, Beat, Decided, AllHeld, ValidRows;
    BeatIsPosted(member, c, p, d, o, app);
    var b := Beat(Reel(member, c, d), app, o);
    assert Held(rows + more, device, b);
    var row :| row in rows + more && RowFrom(row, device, b);
    j :| 0 <= j < |rows + more| && (rows + more)[j] == row;
    if j < |rows| {
      OldBeatRow(rows, posts, device, member, c, d, o, app, j);
    }
  }

  lemma StillDecided(rows: seq<Event>, more: seq<Event>, posts: seq<Post>, p: Post, device: int, member: string,
                     c: Calendar, d: int, o: nat, i: nat)
    requires LaidOver(rows, posts, device, member, c) && SoundPost(member, c, p) && ValidRows(rows + more)
    requires RowsOfPost(more, device, member, c, p) && PostHeld(rows + more, device, member, c, p)
    requires c.Has(d) && i < |rows + more|
    ensures LastDecides(rows + more, device, Reel(member, c, d), LayersOn(posts + [p], d), o, i)
  {
    hide TapeOf, Beat, BeatAt, AppAt, FromPosts, RowsOfPost, PostHeld, ValidRows, SoundPosts;
    var r, layers, l := Reel(member, c, d), LayersOn(posts, d), LayerOn(p, d);
    LayersMore(posts, p, d);
    BeatOfMore(layers, l, o);
    var all := rows + more;
    if i < |rows| {
      assert LastDecides(rows, device, r, layers, o, i);
    }
    var app := AppAt(l.appends, 0, o);
    if BeatAt(l.appends, 0, o) && app.Some? && !Beaten(layers, o, app.value) {
      var j := NewDecides(rows, more, posts, p, device, member, c, d, o, app.value);
      if i >= |rows| && AnyBeatRow(all[i], device, r, o) {
        var q := NewBeatRow(rows, more, device, member, c, p, d, o, i - |rows|);
        assert BeatRow(all[i], device, r, app.value, o);
      }
    } else if i < |rows| {
      OldDecides(rows, more, device, r, layers, layers + [l], o, i);
    } else if AnyBeatRow(all[i], device, r, o) {
      var q := NewBeatRow(rows, more, device, member, c, p, d, o, i - |rows|);
      var k :| 0 <= k < |layers| && BeatsWith(layers[k], o, q);
      HeldBefore(rows, posts, device, member, c, d, o, q, k);
      NotTwice(rows, more, device, r, q, o, i - |rows|);
    }
  }

  lemma HeldBefore(rows: seq<Event>, posts: seq<Post>, device: int, member: string, c: Calendar, d: int, o: nat,
                   app: string, k: nat)
    requires LaidOver(rows, posts, device, member, c) && k < |posts| && BeatsWith(LayersOn(posts, d)[k], o, app)
    ensures Held(rows, device, Beat(Reel(member, c, d), app, o))
  {
    hide TapeOf, Beat, BeatAt, AppAt, Decided, FromPosts, ValidRows;
    BeatIsPosted(member, c, posts[k], d, o, app);
    assert PostHeld(rows, device, member, c, posts[k]);
  }

  /** One more post over the table. */
  lemma OneMorePost(rows: seq<Event>, more: seq<Event>, posts: seq<Post>, p: Post, device: int, member: string,
                    c: Calendar)
    requires LaidOver(rows, posts, device, member, c) && SoundPost(member, c, p) && ValidRows(rows + more)
    requires RowsOfPost(more, device, member, c, p) && PostHeld(rows + more, device, member, c, p)
    ensures LaidOver(rows + more, posts + [p], device, member, c)
  {
    hide RowOfPost, Posted, LastDecides, SoundPost, LayersOn, Held;
    var all, posts' := rows + more, posts + [p];
    assert posts'[|posts|] == p && forall k :: 0 <= k < |posts| ==> posts'[k] == posts[k];
    forall i | 0 <= i < |all| ensures exists k :: 0 <= k < |posts'| && RowOfPost(all[i], device, member, c, posts'[k]) {
      if i < |rows| {
        var k :| 0 <= k < |posts| && RowOfPost(rows[i], device, member, c, posts[k]);
        assert RowOfPost(all[i], device, member, c, posts'[k]);
      } else {
        assert all[i] in more && RowOfPost(all[i], device, member, c, posts'[|posts|]);
      }
    }
    forall k | 0 <= k < |posts'| ensures PostHeld(all, device, member, c, posts'[k]) {
      if k < |posts| {
        HeldStays(rows, more, device, member, c, posts[k]);
      }
    }
    forall d, o: nat, i: nat | c.Has(d) && i < |all|
      ensures LastDecides(all, device, Reel(member, c, d), LayersOn(posts', d), o, i)
    {
      StillDecided(rows, more, posts, p, device, member, c, d, o, i);
    }
  }

  lemma HeldStays(rows: seq<Event>, more: seq<Event>, device: int, member: string, c: Calendar, p: Post)
    requires PostHeld(rows, device, member, c, p)
    ensures PostHeld(rows + more, device, member, c, p)
  {
    forall e | Posted(e, member, c, p) ensures Held(rows + more, device, e) {
      HeldGrows(rows, rows + more, device, e);
    }
  }

  // ---- seconds ----------------------------------------------------------------

  ghost predicate ShortPosts(c: Calendar, posts: seq<Post>) {
    forall k :: 0 <= k < |posts| ==> ShortTapes(c, posts[k].tapes)
  }

  /** Where the newest row stands: nothing due behind it in the table is its equal. */
  lemma {:induction false} LatestIndex(rows: seq<Event>, t: int) returns (i: nat)
    requires LatestAt(rows, t).Some?
    ensures i < |rows| && rows[i] == LatestAt(rows, t).value && rows[i].at <= t
    ensures forall j :: i < j < |rows| && rows[j].at <= t ==> Before(rows[j], rows[i])
  {
    var front, e := rows[..|rows| - 1], rows[|rows| - 1];
    LatestAtAppend(front, e, t);
    assert rows == front + [e];
    var older := LatestAt(front, t);
    if e.at > t || (older.Some? && Before(e, older.value)) {
      i := LatestIndex(front, t);
    } else {
      i := |rows| - 1;
    }
  }

  /** On this day some post laid something. */
  ghost predicate SomethingOn(posts: seq<Post>, d: int) {
    exists k :: 0 <= k < |posts| && |TapeOn(posts[k].tapes, d)| > 0
  }

  /** The event behind a row, and the layer it is in. */
  ghost predicate Behind(n: Event, device: int, r: Reel, layers: seq<Layer>, e: RequestEvent) {
    && RowFrom(n, device, e) && InLayers(r, layers, e) && e.sequence >= 0
    && n.at == (r.calendar.midnight(r.day) + e.sequence / 2) * NS_PER_SECOND && n.sequence == e.sequence
    && (n.state == Active <==> e.state == "active")
    && (e.state == "active" ==> n.process == e.process && ValidApp(e.process))
  }

  lemma PostedBehind(n: Event, device: int, member: string, c: Calendar, posts: seq<Post>, k: nat)
    returns (r: Reel, e: RequestEvent)
    requires k < |posts| && SoundPosts(member, c, posts) && RowOfPost(n, device, member, c, posts[k])
    ensures r == Reel(member, c, r.day) && Behind(n, device, r, LayersOn(posts, r.day), e) && SomethingOn(posts, r.day)
    ensures c.Has(r.day) && PostedOn(e, member, c, posts[k], r.day) && e in TapeOf(r, TapeOn(posts[k].tapes, r.day), 0)
    ensures e.sequence / 2 <= Length(TapeOn(posts[k].tapes, r.day))
  {
    hide TapeOf, LayerEvents;
    e :| Posted(e, member, c, posts[k]) && RowFrom(n, device, e);
    r := PostedOrigin(e, member, c, posts[k]);
    RowFromEvent(n, device, r, e);
    TapeElement(r, TapeOn(posts[k].tapes, r.day), e);
    assert e in LayerEvents(r, LayersOn(posts, r.day)[k], 0);
    if e.state == "active" {
      var o, end := BeatRules(r, TapeOn(posts[k].tapes, r.day), 0, e);
    }
  }

  /** Every event of the layers of a day is in the table. */
  lemma LayerRow(y: RequestEvent, rows: seq<Event>, posts: seq<Post>, device: int, member: string, c: Calendar, d: int)
    returns (row: Event)
    requires LaidOver(rows, posts, device, member, c) && InLayers(Reel(member, c, d), LayersOn(posts, d), y)
    ensures row in rows && row.sequence == y.sequence >= 0
    ensures row.at == (c.midnight(d) + y.sequence / 2) * NS_PER_SECOND
  {
    hide TapeOf, LayerEvents, Decided, FromPosts, ValidRows;
    var r := Reel(member, c, d);
    var k :| 0 <= k < |posts| && y in LayerEvents(r, LayersOn(posts, d)[k], 0);
    assert PostedOn(y, member, c, posts[k], d) && Posted(y, member, c, posts[k]);
    assert PostHeld(rows, device, member, c, posts[k]);
    row := HeldRow(y, rows, device);
    SoundOnDay(member, c, posts[k], d);
    LayerEvent(r, LayerOn(posts[k], d), y);
    TapeElement(r, TapeOn(posts[k].tapes, d), y);
  }

  /** Nothing due on the day is newer than the newest row. */
  lemma NothingNewer(n: Event, e: RequestEvent, y: RequestEvent, rows: seq<Event>, posts: seq<Post>, device: int,
                     member: string, c: Calendar, d: int, x: nat)
    requires LaidOver(rows, posts, device, member, c)
    requires LatestAt(rows, (c.midnight(d) + x) * NS_PER_SECOND) == Some(n)
    requires Behind(n, device, Reel(member, c, d), LayersOn(posts, d), e)
    requires InLayers(Reel(member, c, d), LayersOn(posts, d), y) && y.sequence <= 2 * x + 1
    ensures y.sequence <= e.sequence
  {
    hide LaidOver, InLayers, RowFrom;
    var row := LayerRow(y, rows, posts, device, member, c, d);
    LatestAtIsNewest(rows, (c.midnight(d) + x) * NS_PER_SECOND);
  }

  /** A newest row that is a heartbeat is the one that decides its offset. */
  lemma NewestDecides(n: Event, e: RequestEvent, rows: seq<Event>, posts: seq<Post>, device: int, member: string,
                      c: Calendar, d: int, t: int)
    requires LaidOver(rows, posts, device, member, c) && LatestAt(rows, t) == Some(n)
    requires c.Has(d) && Behind(n, device, Reel(member, c, d), LayersOn(posts, d), e) && e.state == "active"
    ensures BeatOf(LayersOn(posts, d), e.sequence / 2) == Some(e.process)
  {
    hide TapeOf, LayerEvents, FromPosts, AllHeld, ValidRows, BeatOf, InLayers, Trim;
    var r, layers := Reel(member, c, d), LayersOn(posts, d);
    assert SoundLayers(layers) by {
      forall k | 0 <= k < |layers| ensures SoundLayer(layers[k]) { SoundOnDay(member, c, posts[k], d); }
    }
    var o := ActiveMark(r, layers, e);
    var i := LatestIndex(rows, t);
    assert BeatRow(rows[i], device, r, e.process, o);
    assert LastDecides(rows, device, r, layers, o, i);
    var j :| i <= j < |rows| && BeatRow(rows[j], device, r, BeatOf(layers, o).value, o);
    SameBeatRow(rows[i], rows[j], device, r, e.process, BeatOf(layers, o).value, o);
  }

  lemma SameBeatRow(row: Event, row': Event, device: int, r: Reel, app: string, app': string, o: nat)
    requires BeatRow(row, device, r, app, o) && BeatRow(row', device, r, app', o) && AfterYearOne(r)
    ensures row.at == row'.at && row.sequence == row'.sequence && (row == row' ==> app == app')
  {
    assert OnTape(r, Beat(r, app, o)) by { assert IsBeat(r, Beat(r, app, o), app, o); }
    assert OnTape(r, Beat(r, app', o)) by { assert IsBeat(r, Beat(r, app', o), app', o); }
    RowFromEvent(row, device, r, Beat(r, app, o));
    RowFromEvent(row', device, r, Beat(r, app', o));
  }

  /** Where the newest row comes from, on whatever day. */
  lemma NewestOrigin(rows: seq<Event>, posts: seq<Post>, device: int, member: string, c: Calendar, t: int)
    returns (k: nat, r: Reel, e: RequestEvent)
    requires LaidOver(rows, posts, device, member, c) && ShortPosts(c, posts) && LatestAt(rows, t).Some?
    ensures k < |posts| && r == Reel(member, c, r.day) && c.Has(r.day) && SomethingOn(posts, r.day)
    ensures Behind(LatestAt(rows, t).value, device, r, LayersOn(posts, r.day), e)
    ensures e in TapeOf(r, TapeOn(posts[k].tapes, r.day), 0) && ValidAppends(TapeOn(posts[k].tapes, r.day))
    ensures e.sequence / 2 <= Length(TapeOn(posts[k].tapes, r.day)) < c.midnight(r.day + 1) - c.midnight(r.day)
  {
    hide InLayers, RowFrom, Decided, AllHeld, ValidRows, TapeOf, Behind, PostedOn;
    var i := LatestIndex(rows, t);
    k :| 0 <= k < |posts| && RowOfPost(rows[i], device, member, c, posts[k]);
    r, e := PostedBehind(rows[i], device, member, c, posts, k);
    assert ShortTapes(c, posts[k].tapes);
    SoundOnDay(member, c, posts[k], r.day);
  }

  /** Where nothing was laid after the last day with a tape, the newest row is the newest of that day. */
  lemma NewestRow(floor: RequestEvent, rows: seq<Event>, posts: seq<Post>, device: int, member: string, c: Calendar,
                  day: int, d: int, x: nat) returns (n: Event, e: RequestEvent)
    requires LaidOver(rows, posts, device, member, c) && ShortPosts(c, posts)
    requires c.Has(day) && c.Has(d) && day <= d && c.midnight(day) + x < c.midnight(d + 1)
    requires forall k :: day < k <= d ==> !SomethingOn(posts, k)
    requires InLayers(Reel(member, c, day), LayersOn(posts, day), floor) && floor.sequence <= 2 * x + 1
    ensures LatestAt(rows, (c.midnight(day) + x) * NS_PER_SECOND) == Some(n)
    ensures Behind(n, device, Reel(member, c, day), LayersOn(posts, day), e)
    ensures Newest(Reel(member, c, day), LayersOn(posts, day), x, e)
  {
    hide InLayers, RowFrom, LaidOver, BeatOf, TapeOf, ShortPosts, Length, SomethingOn;
    var t, r0 := (c.midnight(day) + x) * NS_PER_SECOND, Reel(member, c, day);
    var floorRow := LayerRow(floor, rows, posts, device, member, c, day);
    LatestAtIsNewest(rows, t);
    n := LatestAt(rows, t).value;
    var k, r;
    k, r, e := NewestOrigin(rows, posts, device, member, c, t);
    LaidCalendar(rows, posts, device, member, c);
    DayBetween(c, r.day, e.sequence / 2, day, d, x);
    assert r.day == day;
    forall y | InLayers(r0, LayersOn(posts, day), y) && y.sequence <= 2 * x + 1 ensures y.sequence <= e.sequence {
      NothingNewer(n, e, y, rows, posts, device, member, c, day, x);
    }
    if e.state == "active" {
      NewestDecides(n, e, rows, posts, device, member, c, day, t);
    }
  }

  /** An offset of its own day between midnight of one day and the end of another is on a day between. */
  lemma DayBetween(c: Calendar, k: int, off: nat, day: int, d: int, x: nat)
    requires ValidCalendar(c) && c.Has(k) && c.Has(day) && c.Has(d) && off < c.midnight(k + 1) - c.midnight(k)
    requires c.midnight(day) <= c.midnight(k) + off <= c.midnight(day) + x < c.midnight(d + 1)
    ensures day <= k <= d && (k == day ==> off <= x)
  {
    if k < day {
      LaterDay(c, k, day);
    } else if d < k {
      LaterDay(c, d, k);
    }
  }

  lemma LaidCalendar(rows: seq<Event>, posts: seq<Post>, device: int, member: string, c: Calendar)
    requires LaidOver(rows, posts, device, member, c)
    ensures ValidCalendar(c)
  {
  }

  lemma InUseBehind(rows: seq<Event>, device: int, r: Reel, layers: seq<Layer>, x: nat, n: Event, e: RequestEvent,
                    who: Who, maxGap: int)
    requires LatestAt(rows, (r.calendar.midnight(r.day) + x) * NS_PER_SECOND) == Some(n)
    requires Behind(n, device, r, layers, e) && e.sequence <= 2 * x + 1
    requires Merged(layers, x) == if e.state == "active" then Some(Mark(e.process, e.sequence / 2)) else None
    ensures InUse(rows, (r.calendar.midnight(r.day) + x) * NS_PER_SECOND, who, maxGap) <==> Lit(layers, x, who, maxGap)
  {
    hide Merged, RowFrom, InLayers;
  }

  lemma LaidSound(rows: seq<Event>, posts: seq<Post>, device: int, member: string, c: Calendar, d: int)
    requires LaidOver(rows, posts, device, member, c)
    ensures SoundLayers(LayersOn(posts, d))
  {
    forall k | 0 <= k < |posts| ensures SoundLayer(LayersOn(posts, d)[k]) {
      SoundOnDay(member, c, posts[k], d);
    }
  }

  lemma LengthPositive(a: seq<Append>)
    requires ValidAppends(a) && |a| > 0
    ensures Length(a) > 0
  {
    assert a[0] in a;
  }

  lemma NewestBound(r: Reel, layers: seq<Layer>, x: nat, e: RequestEvent)
    requires Newest(r, layers, x, e)
    ensures e.sequence <= 2 * x + 1
  {
  }

  /** From midnight of a day with a tape to the end of the last day before the next one with a tape. */
  lemma LitSince(rows: seq<Event>, posts: seq<Post>, device: int, member: string, c: Calendar, day: int, d: int, x: nat,
                 who: Who, maxGap: int)
    requires LaidOver(rows, posts, device, member, c) && ShortPosts(c, posts)
    requires c.Has(day) && c.Has(d) && day <= d && c.midnight(day) + x < c.midnight(d + 1)
    requires SomethingOn(posts, day) && forall k :: day < k <= d ==> !SomethingOn(posts, k)
    ensures InUse(rows, (c.midnight(day) + x) * NS_PER_SECOND, who, maxGap)
            <==> Lit(LayersOn(posts, day), x, who, maxGap)
  {
    hide TapeOf, Behind, Newest, InUse, Lit, Merged, BeatAt, BeatOf, InLayers, AppAt, LayerEvents, LaidOver;
    var r, layers := Reel(member, c, day), LayersOn(posts, day);
    LaidSound(rows, posts, device, member, c, day);
    var k :| 0 <= k < |posts| && |TapeOn(posts[k].tapes, day)| > 0;
    assert SoundLayer(layers[k]);
    LengthPositive(layers[k].appends);
    BeginsWithBeat(layers[k].appends, 0);
    var app := BeatInLayers(r, layers, k, 0);
    TerminatorNumber(r, 0);
    var n, e := NewestRow(Beat(r, app, 0), rows, posts, device, member, c, day, d, x);
    NewestIsMerged(r, layers, x, e);
    NewestBound(r, layers, x, e);
    InUseBehind(rows, device, r, layers, x, n, e, who, maxGap);
  }

  /** Before the first day with a tape the table is silent. */
  lemma SilentBefore(rows: seq<Event>, posts: seq<Post>, device: int, member: string, c: Calendar, d: int, t: int)
    requires LaidOver(rows, posts, device, member, c) && ShortPosts(c, posts)
    requires c.Has(d) && t < c.midnight(d + 1) * NS_PER_SECOND
    requires forall k :: c.first <= k <= d ==> !SomethingOn(posts, k)
    ensures LatestAt(rows, t).None?
  {
    hide InLayers, RowFrom, LaidOver, BeatOf, TapeOf, ShortPosts, Length, SomethingOn;
    if LatestAt(rows, t).Some? {
      var k, r, e := NewestOrigin(rows, posts, device, member, c, t);
      LaidCalendar(rows, posts, device, member, c);
      if d < r.day {
        LaterDay(c, d, r.day);
      }
    }
  }

  /** The last day up to d on which a post laid something. */
  ghost function LastLaid(posts: seq<Post>, first: int, d: int): (r: Option<int>)
    ensures r.None? ==> forall k :: first <= k <= d ==> !SomethingOn(posts, k)
    ensures r.Some? ==> first <= r.value <= d && SomethingOn(posts, r.value)
    ensures r.Some? ==> forall k :: r.value < k <= d ==> !SomethingOn(posts, k)
    decreases d - first
  {
    if d < first then None else if SomethingOn(posts, d) then Some(d) else LastLaid(posts, first, d - 1)
  }

  /** How far second x of day d is from an earlier midnight. */
  function Since(c: Calendar, day: int, d: int, x: nat): nat { Max(0, c.midnight(d) - c.midnight(day)) + x }

  lemma SinceMidnight(c: Calendar, day: int, d: int, x: nat)
    requires ValidCalendar(c) && c.Has(day) && c.Has(d) && day <= d
    ensures c.midnight(day) + Since(c, day, d, x) == c.midnight(d) + x
  {
    if day < d {
      assert c.midnight(day) < c.midnight(d);
    }
  }

  /** Second x of day d is credited to `who`: by the tapes of the day or, where it has none, by what the last
      day with a tape left running. */
  ghost predicate LitOn(posts: seq<Post>, c: Calendar, d: int, x: nat, who: Who, maxGap: int) {
    match LastLaid(posts, c.first, d)
    case None => false
    case Some(day) => Lit(LayersOn(posts, day), Since(c, day, d, x), who, maxGap)
  }

  /** Every second of every day is credited as the merged layers say. */
  lemma SecondLit(rows: seq<Event>, posts: seq<Post>, device: int, member: string, c: Calendar, d: int, x: nat,
                  who: Who, maxGap: int)
    requires LaidOver(rows, posts, device, member, c) && ShortPosts(c, posts)
    requires c.Has(d) && x < c.midnight(d + 1) - c.midnight(d)
    ensures InUse(rows, (c.midnight(d) + x) * NS_PER_SECOND, who, maxGap) <==> LitOn(posts, c, d, x, who, maxGap)
  {
    hide LaidOver, ShortPosts, Lit, SomethingOn, Since;
    LaidCalendar(rows, posts, device, member, c);
    match LastLaid(posts, c.first, d)
    case None => SilentBefore(rows, posts, device, member, c, d, (c.midnight(d) + x) * NS_PER_SECOND);
    case Some(day) =>
      SinceMidnight(c, day, d, x);
      LitSince(rows, posts, device, member, c, day, d, Since(c, day, d, x), who, maxGap);
  }

  lemma LitOfDay(posts: seq<Post>, c: Calendar, d: int, x: nat, who: Who, maxGap: int)
    requires c.Has(d) && SomethingOn(posts, d)
    ensures LitOn(posts, c, d, x, who, maxGap) <==> Lit(LayersOn(posts, d), x, who, maxGap)
  {
    assert LastLaid(posts, c.first, d) == Some(d);
  }

  // ---- what runs on past midnight ---------------------------------------------

  /** Past the ends of all layers a second is credited to what the last second before was. */
  lemma {:induction false} MergedStays(layers: seq<Layer>, top: nat, x: nat)
    requires top <= x && forall k :: 0 <= k < |layers| ==> Length(layers[k].appends) <= top
    ensures Merged(layers, x) == Merged(layers, top)
  {
    hide BeatOf, EndsAt, BeatAt, Length;
    if top < x {
      MergedStays(layers, top, x - 1);
      BeatOfRules(layers, x);
      if k :| 0 <= k < |layers| && BeatAt(layers[k].appends, 0, x) {
        BeatShows(layers[k].appends, 0, x);
      }
      NoEndAbove(layers, top, x);
    }
  }

  lemma NoEndAbove(layers: seq<Layer>, top: nat, x: nat)
    requires top < x && forall k :: 0 <= k < |layers| ==> Length(layers[k].appends) <= top
    ensures !EndsAt(layers, x)
  {
  }

  /** Where all layers are whole, nothing runs on. */
  lemma WholeEnds(layers: seq<Layer>, x: nat)
    requires forall k :: 0 <= k < |layers| ==> layers[k].ended && Length(layers[k].appends) <= x
    ensures Merged(layers, x).None?
  {
    hide BeatOf, Merged, BeatAt;
    if Merged(layers, x).Some? {
      var m := Merged(layers, x).value;
      MergedIsBeat(layers, x);
      BeatOfRules(layers, m.at);
      var k :| 0 <= k < |layers| && BeatAt(layers[k].appends, 0, m.at);
      BeatShows(layers[k].appends, 0, m.at);
      assert EndsAt(layers, Length(layers[k].appends));
      MergedAfter(layers, x, Length(layers[k].appends));
    }
  }

  ghost predicate Uncut(posts: seq<Post>) {
    forall k :: 0 <= k < |posts| ==> posts[k].cut.None?
  }

  lemma ShortLayers(c: Calendar, posts: seq<Post>, day: int, d: int)
    requires ValidCalendar(c) && ShortPosts(c, posts) && c.Has(day) && c.Has(d) && day < d
    ensures forall k :: 0 <= k < |posts| ==> Length(LayersOn(posts, day)[k].appends) < Since(c, day, day + 1, 0)
    ensures c.midnight(day + 1) <= c.midnight(d) && Since(c, day, day + 1, 0) <= Since(c, day, d, 0)
    ensures Since(c, day, day + 1, 0) > 0
  {
    LaterDay(c, day, d);
    assert c.midnight(day) < c.midnight(day + 1);
    forall k | 0 <= k < |posts|
      ensures Length(LayersOn(posts, day)[k].appends) < Since(c, day, day + 1, 0)
    {
      assert ShortTapes(c, posts[k].tapes);
    }
  }

  /** On a day without a tape a second is credited to the heartbeat that the last second of the last day with
      a tape was, for as long as the gap cap allows. */
  lemma RunsOn(posts: seq<Post>, c: Calendar, day: int, d: int, x: nat, who: Who, maxGap: int)
    requires ValidCalendar(c) && ShortPosts(c, posts) && c.Has(d) && LastLaid(posts, c.first, d) == Some(day) && day < d
    ensures var m := Merged(LayersOn(posts, day), Since(c, day, day + 1, 0) - 1);
            LitOn(posts, c, d, x, who, maxGap)
            <==> m.Some? && (who == Everyone || who == Process(m.value.app))
                 && (maxGap > 0 ==>
                       (c.midnight(d) + x - (c.midnight(day) + m.value.at)) * NS_PER_SECOND < maxGap)
    ensures Uncut(posts) ==> !LitOn(posts, c, d, x, who, maxGap)
  {
    hide Merged, ShortPosts, SomethingOn, Length;
    ShortLayers(c, posts, day, d);
    SinceMidnight(c, day, d, x);
    var layers, top := LayersOn(posts, day), Since(c, day, day + 1, 0) - 1;
    MergedStays(layers, top, Since(c, day, d, x));
    if Uncut(posts) {
      WholeEnds(layers, Since(c, day, d, x));
    }
  }

  // ---- reports ----------------------------------------------------------------

  /** How many of the seconds from x to y of day d are credited to `who`. */
  ghost function CountOn(posts: seq<Post>, c: Calendar, d: int, x: nat, y: nat, who: Who, maxGap: int): nat
    decreases y - x
  {
    if x >= y then 0
    else (if LitOn(posts, c, d, x, who, maxGap) then 1 else 0) + CountOn(posts, c, d, x + 1, y, who, maxGap)
  }

  /** How many of the seconds from x to y the merged layers give to `who`. */
  function LitIn(layers: seq<Layer>, x: nat, y: nat, who: Who, maxGap: int): nat
    decreases y - x
  {
    if x >= y then 0 else (if Lit(layers, x, who, maxGap) then 1 else 0) + LitIn(layers, x + 1, y, who, maxGap)
  }

  /** On a day with a tape these are the merged seconds of its own layers. */
  lemma {:induction false} CountOfDay(posts: seq<Post>, c: Calendar, d: int, x: nat, y: nat, who: Who, maxGap: int)
    requires c.Has(d) && SomethingOn(posts, d)
    ensures CountOn(posts, c, d, x, y, who, maxGap) == LitIn(LayersOn(posts, d), x, y, who, maxGap)
    decreases y - x
  {
    hide SomethingOn, LitOn, Lit;
    if x < y {
      LitOfDay(posts, c, d, x, who, maxGap);
      CountOfDay(posts, c, d, x + 1, y, who, maxGap);
    }
  }

  lemma {:induction false} LitInstants(rows: seq<Event>, posts: seq<Post>, device: int, member: string, c: Calendar,
                                       d: int, x: nat, y: nat, who: Who, maxGap: int)
    requires LaidOver(rows, posts, device, member, c) && ShortPosts(c, posts)
    requires c.Has(d) && x <= y <= c.midnight(d + 1) - c.midnight(d)
    ensures Instants(rows, (c.midnight(d) + x) * NS_PER_SECOND, (c.midnight(d) + y) * NS_PER_SECOND, NS_PER_SECOND,
                     who, maxGap)
         == CountOn(posts, c, d, x, y, who, maxGap)
    decreases y - x
  {
    hide LaidOver, InUse, LitOn;
    if x < y {
      LitInstants(rows, posts, device, member, c, d, x + 1, y, who, maxGap);
      SecondLit(rows, posts, device, member, c, d, x, who, maxGap);
      assert (c.midnight(d) + (x + 1)) * NS_PER_SECOND == (c.midnight(d) + x) * NS_PER_SECOND + NS_PER_SECOND;
    }
  }

  lemma RowsWholeStamps(rows: seq<Event>, posts: seq<Post>, device: int, member: string, c: Calendar)
    requires LaidOver(rows, posts, device, member, c)
    ensures WholeStamps(rows)
  {
    hide TapeOf, Behind, PostedOn, Decided, AllHeld, ValidRows, RowOfPost, Whole;
    forall row | row in rows ensures Whole(row.at) {
      var i :| 0 <= i < |rows| && rows[i] == row;
      var k :| 0 <= k < |posts| && RowOfPost(rows[i], device, member, c, posts[k]);
      var r, e := PostedBehind(row, device, member, c, posts, k);
      BehindWhole(row, device, r, LayersOn(posts, r.day), e);
    }
  }

  lemma BehindWhole(n: Event, device: int, r: Reel, layers: seq<Layer>, e: RequestEvent)
    requires Behind(n, device, r, layers, e)
    ensures Whole(n.at)
  {
    hide RowFrom, InLayers;
  }

  /** The report on any stretch of a day gives everyone, and every app, the number of merged seconds. */
  lemma MergedReport(rows: seq<Event>, posts: seq<Post>, device: int, member: string, c: Calendar, d: int, x: nat,
                     y: nat, now: int, maxGap: int, who: Who)
    requires LaidOver(rows, posts, device, member, c) && ShortPosts(c, posts) && Whole(maxGap)
    requires c.Has(d) && x <= y <= c.midnight(d + 1) - c.midnight(d)
    requires now == ZERO_TIME || now >= c.midnight(d + 1) * NS_PER_SECOND
    ensures Usage(rows, (c.midnight(d) + x) * NS_PER_SECOND, (c.midnight(d) + y) * NS_PER_SECOND, now, maxGap, who,
                  NS_PER_SECOND)
         == CountOn(posts, c, d, x, y, who, maxGap)
  {
    hide LaidOver, ShortPosts, LitOn, Usage;
    RowsWholeStamps(rows, posts, device, member, c);
    StretchCounts(rows, c, d, now, maxGap, x, y, who);
    LitInstants(rows, posts, device, member, c, d, x, y, who, maxGap);
  }

  lemma StretchCounts(all: seq<Event>, c: Calendar, day: int, now: int, maxGap: int, x: nat, y: nat, who: Who)
    requires WholeStamps(all) && Whole(maxGap) && x <= y <= c.midnight(day + 1) - c.midnight(day)
    requires now == ZERO_TIME || now >= c.midnight(day + 1) * NS_PER_SECOND
    ensures var from, to := (c.midnight(day) + x) * NS_PER_SECOND, (c.midnight(day) + y) * NS_PER_SECOND;
            Usage(all, from, to, now, maxGap, who, NS_PER_SECOND) == Instants(all, from, to, NS_PER_SECOND, who, maxGap)
  {
    var from, to := (c.midnight(day) + x) * NS_PER_SECOND, (c.midnight(day) + y) * NS_PER_SECOND;
    UsageCountsSeconds(all, from, to, ZERO_TIME, maxGap, who);
    assert EffectiveNow(to, now) == EffectiveNow(to, ZERO_TIME);
  }

  // ---- as the last tape says --------------------------------------------------

  /** Every second of the day is credited as the tape b says. */
  ghost predicate Credited(rows: seq<Event>, c: Calendar, d: int, b: seq<Append>, maxGap: int) {
    forall x: nat, who :: x < c.midnight(d + 1) - c.midnight(d) ==>
      (InUse(rows, (c.midnight(d) + x) * NS_PER_SECOND, who, maxGap) <==> Shows(b, 0, x, who))
  }

  /** How many of the seconds from x to y the tape shows to `who`. */
  function ShownIn(b: seq<Append>, x: nat, y: nat, who: Who): nat
    decreases y - x
  {
    if x >= y then 0 else (if Shows(b, 0, x, who) then 1 else 0) + ShownIn(b, x + 1, y, who)
  }

  lemma {:induction false} ShownInIsShownFrom(b: seq<Append>, x: nat, y: nat, who: Who)
    requires Length(b) <= y
    ensures ShownIn(b, x, y, who) == ShownFrom(b, 0, x, who)
    decreases y - x
  {
    if x < y {
      ShownInIsShownFrom(b, x + 1, y, who);
      ShowsWithin(b, 0, x);
    }
  }

  /** The report on a stretch of the day is what the tape shows there. */
  ghost predicate ReportedIn(rows: seq<Event>, c: Calendar, d: int, b: seq<Append>, now: int, maxGap: int,
                             x: nat, y: nat, who: Who)
  {
    Usage(rows, (c.midnight(d) + x) * NS_PER_SECOND, (c.midnight(d) + y) * NS_PER_SECOND, now, maxGap, who,
          NS_PER_SECOND)
    == ShownIn(b, x, y, who)
  }

  ghost predicate Reported(rows: seq<Event>, c: Calendar, d: int, b: seq<Append>, now: int, maxGap: int) {
    forall x: nat, y: nat, who :: x <= y <= c.midnight(d + 1) - c.midnight(d)
                                  ==> ReportedIn(rows, c, d, b, now, maxGap, x, y, who)
  }

  lemma LastLayer(posts: seq<Post>, tapes: map<int, seq<Append>>, d: int)
    ensures LayersOn(posts + [Post(tapes, None)], d) == LayersOn(posts, d) + [Layer(TapeOn(tapes, d), true)]
  {
  }

  lemma ShortOnDay(c: Calendar, posts: seq<Post>, tapes: map<int, seq<Append>>, d: int)
    requires ShortPosts(c, posts + [Post(tapes, None)]) && c.Has(d)
    ensures Length(TapeOn(tapes, d)) < c.midnight(d + 1) - c.midnight(d)
    ensures forall k :: 0 <= k < |posts| ==> Length(LayersOn(posts, d)[k].appends) < c.midnight(d + 1) - c.midnight(d)
  {
    var all := posts + [Post(tapes, None)];
    assert ShortTapes(c, all[|posts|].tapes);
    forall k | 0 <= k < |posts| ensures Length(LayersOn(posts, d)[k].appends) < c.midnight(d + 1) - c.midnight(d) {
      assert ShortTapes(c, all[k].tapes);
    }
  }

  /** The tape posted last is what shows on day d: it is kept over the layers before it or, on a day without
      any tape, nothing runs on into the day. */
  ghost predicate KeptOn(posts: seq<Post>, tapes: map<int, seq<Append>>, c: Calendar, d: int, maxGap: int) {
    var all := posts + [Post(tapes, None)];
    if SomethingOn(all, d) then KeptOver(LayersOn(posts, d), TapeOn(tapes, d))
    else !LitOn(all, c, d, 0, Everyone, maxGap)
  }

  /** Whatever was posted before, whole or cut: every second of the day is credited as the tape posted
      last says if and only if that tape is kept. */
  lemma CreditedIffKept(rows: seq<Event>, posts: seq<Post>, tapes: map<int, seq<Append>>, device: int, member: string,
                        c: Calendar, d: int, maxGap: int)
    requires LaidOver(rows, posts + [Post(tapes, None)], device, member, c)
    requires ShortPosts(c, posts + [Post(tapes, None)]) && c.Has(d) && GapCovers(maxGap)
    ensures Credited(rows, c, d, TapeOn(tapes, d), maxGap) <==> KeptOn(posts, tapes, c, d, maxGap)
  {
    hide LaidOver, InUse, LitOn, KeptOver, SomethingOn, Length, LayersOn, ShortPosts;
    var all := posts + [Post(tapes, None)];
    if SomethingOn(all, d) {
      KeptWithTape(rows, posts, tapes, device, member, c, d, maxGap);
    } else {
      KeptWithoutTape(rows, posts, tapes, device, member, c, d, maxGap);
    }
  }

  lemma KeptWithTape(rows: seq<Event>, posts: seq<Post>, tapes: map<int, seq<Append>>, device: int, member: string,
                     c: Calendar, d: int, maxGap: int)
    requires LaidOver(rows, posts + [Post(tapes, None)], device, member, c)
    requires ShortPosts(c, posts + [Post(tapes, None)]) && c.Has(d) && GapCovers(maxGap)
    requires SomethingOn(posts + [Post(tapes, None)], d)
    ensures Credited(rows, c, d, TapeOn(tapes, d), maxGap) <==> KeptOver(LayersOn(posts, d), TapeOn(tapes, d))
  {
    hide LaidOver, InUse, Lit, LitOn, KeptOver, SomethingOn, Length, LayersOn;
    var all, s, b := posts + [Post(tapes, None)], LayersOn(posts, d), TapeOn(tapes, d);
    LastLayer(posts, tapes, d);
    ShortOnDay(c, posts, tapes, d);
    var bound := c.midnight(d + 1) - c.midnight(d);
    forall x: nat, who | x < bound
      ensures InUse(rows, (c.midnight(d) + x) * NS_PER_SECOND, who, maxGap)
              <==> Lit(s + [Layer(b, true)], x, who, maxGap)
    {
      SecondLit(rows, all, device, member, c, d, x, who, maxGap);
      LitOfDay(all, c, d, x, who, maxGap);
    }
    if KeptOver(s, b) {
      forall x: nat, who | x < bound ensures Lit(s + [Layer(b, true)], x, who, maxGap) <==> Shows(b, 0, x, who) {
        KeptLit(s, b, x, who, maxGap);
      }
    }
    if Credited(rows, c, d, b, maxGap) {
      forall x: nat, who | x < bound ensures Lit(s + [Layer(b, true)], x, who, maxGap) <==> Shows(b, 0, x, who) {
        assert InUse(rows, (c.midnight(d) + x) * NS_PER_SECOND, who, maxGap) <==> Shows(b, 0, x, who);
      }
      LitKept(s, b, bound, maxGap);
    }
  }

  lemma KeptWithoutTape(rows: seq<Event>, posts: seq<Post>, tapes: map<int, seq<Append>>, device: int, member: string,
                        c: Calendar, d: int, maxGap: int)
    requires LaidOver(rows, posts + [Post(tapes, None)], device, member, c)
    requires ShortPosts(c, posts + [Post(tapes, None)]) && c.Has(d)
    requires !SomethingOn(posts + [Post(tapes, None)], d)
    ensures Credited(rows, c, d, TapeOn(tapes, d), maxGap)
       <==> !LitOn(posts + [Post(tapes, None)], c, d, 0, Everyone, maxGap)
  {
    hide LaidOver, InUse, LitOn, Length, LayersOn, ShortPosts;
    var all := posts + [Post(tapes, None)];
    LaidCalendar(rows, all, device, member, c);
    assert all[|posts|] == Post(tapes, None) && TapeOn(tapes, d) == [];
    assert c.midnight(d) < c.midnight(d + 1);
    forall x: nat, who | x < c.midnight(d + 1) - c.midnight(d)
      ensures InUse(rows, (c.midnight(d) + x) * NS_PER_SECOND, who, maxGap) <==> LitOn(all, c, d, x, who, maxGap)
      ensures LitOn(all, c, d, x, who, maxGap) ==> LitOn(all, c, d, 0, Everyone, maxGap)
    {
      SecondLit(rows, all, device, member, c, d, x, who, maxGap);
      if LitOn(all, c, d, x, who, maxGap) {
        LessLater(all, c, d, x, who, maxGap);
      }
    }
    var b := TapeOn(tapes, d);
    assert forall x: nat, who :: !Shows(b, 0, x, who);
    if !LitOn(all, c, d, 0, Everyone, maxGap) {
      forall x: nat, who | x < c.midnight(d + 1) - c.midnight(d)
        ensures InUse(rows, (c.midnight(d) + x) * NS_PER_SECOND, who, maxGap) <==> Shows(b, 0, x, who)
      {
        assert !LitOn(all, c, d, x, who, maxGap);
      }
    } else if Credited(rows, c, d, b, maxGap) {
      QuietAtMidnight(rows, c, d, b, maxGap);
    }
  }

  lemma QuietAtMidnight(rows: seq<Event>, c: Calendar, d: int, b: seq<Append>, maxGap: int)
    requires Credited(rows, c, d, b, maxGap) && |b| == 0 && c.midnight(d) < c.midnight(d + 1)
    ensures !InUse(rows, (c.midnight(d) + 0) * NS_PER_SECOND, Everyone, maxGap)
  {
    hide InUse;
    assert !Shows(b, 0, 0, Everyone);
  }

  /** On a day without a tape less and less runs on. */
  lemma LessLater(posts: seq<Post>, c: Calendar, d: int, x: nat, who: Who, maxGap: int)
    requires ValidCalendar(c) && ShortPosts(c, posts) && c.Has(d) && !SomethingOn(posts, d)
    requires LitOn(posts, c, d, x, who, maxGap)
    ensures LitOn(posts, c, d, 0, Everyone, maxGap)
  {
    hide LitOn, ShortPosts, SomethingOn, Merged;
    match LastLaid(posts, c.first, d)
    case None => NotLit(posts, c, d, x, who, maxGap);
    case Some(day) =>
      RunsOn(posts, c, day, d, x, who, maxGap);
      RunsOn(posts, c, day, d, 0, Everyone, maxGap);
  }

  lemma NotLit(posts: seq<Post>, c: Calendar, d: int, x: nat, who: Who, maxGap: int)
    requires LastLaid(posts, c.first, d).None?
    ensures !LitOn(posts, c, d, x, who, maxGap)
  {
  }

  lemma {:induction false} CreditedInstants(rows: seq<Event>, c: Calendar, d: int, b: seq<Append>, maxGap: int,
                                            x: nat, y: nat, who: Who)
    requires Credited(rows, c, d, b, maxGap) && x <= y <= c.midnight(d + 1) - c.midnight(d)
    ensures Instants(rows, (c.midnight(d) + x) * NS_PER_SECOND, (c.midnight(d) + y) * NS_PER_SECOND, NS_PER_SECOND,
                     who, maxGap)
         == ShownIn(b, x, y, who)
    decreases y - x
  {
    hide InUse;
    if x < y {
      CreditedInstants(rows, c, d, b, maxGap, x + 1, y, who);
      assert InUse(rows, (c.midnight(d) + x) * NS_PER_SECOND, who, maxGap) <==> Shows(b, 0, x, who);
      assert (c.midnight(d) + (x + 1)) * NS_PER_SECOND == (c.midnight(d) + x) * NS_PER_SECOND + NS_PER_SECOND;
    }
  }

  /** Crediting every second right and reporting every stretch of the day right are the same. */
  lemma ReportedIffCredited(rows: seq<Event>, c: Calendar, d: int, b: seq<Append>, now: int, maxGap: int)
    requires WholeStamps(rows) && Whole(maxGap) && (now == ZERO_TIME || now >= c.midnight(d + 1) * NS_PER_SECOND)
    ensures Reported(rows, c, d, b, now, maxGap) <==> Credited(rows, c, d, b, maxGap)
  {
    var length := c.midnight(d + 1) - c.midnight(d);
    if Credited(rows, c, d, b, maxGap) {
      forall x: nat, y: nat, who | x <= y <= length ensures ReportedIn(rows, c, d, b, now, maxGap, x, y, who) {
        StretchCounts(rows, c, d, now, maxGap, x, y, who);
        CreditedInstants(rows, c, d, b, maxGap, x, y, who);
      }
    }
    if Reported(rows, c, d, b, now, maxGap) {
      forall x: nat, who | x < length
        ensures InUse(rows, (c.midnight(d) + x) * NS_PER_SECOND, who, maxGap) <==> Shows(b, 0, x, who)
      {
        assert ReportedIn(rows, c, d, b, now, maxGap, x, x + 1, who);
        StretchCounts(rows, c, d, now, maxGap, x, x + 1, who);
        OneSecondInstants(rows, c.midnight(d) + x, maxGap, who);
        assert ShownIn(b, x, x + 1, who) == if Shows(b, 0, x, who) then 1 else 0;
      }
    }
  }

  lemma OneSecondInstants(all: seq<Event>, s: int, maxGap: int, who: Who)
    ensures Instants(all, s * NS_PER_SECOND, (s + 1) * NS_PER_SECOND, NS_PER_SECOND, who, maxGap)
         == if InUse(all, s * NS_PER_SECOND, who, maxGap) then 1 else 0
  {
    assert (s + 1) * NS_PER_SECOND == s * NS_PER_SECOND + NS_PER_SECOND;
    assert Instants(all, (s + 1) * NS_PER_SECOND, (s + 1) * NS_PER_SECOND, NS_PER_SECOND, who, maxGap) == 0;
  }

  /** The same for the reports on all stretches of the day. */
  lemma ReportedIffKept(rows: seq<Event>, posts: seq<Post>, tapes: map<int, seq<Append>>, device: int, member: string,
                        c: Calendar, d: int, now: int, maxGap: int)
    requires LaidOver(rows, posts + [Post(tapes, None)], device, member, c)
    requires ShortPosts(c, posts + [Post(tapes, None)]) && c.Has(d)
    requires GapCovers(maxGap) && Whole(maxGap) && (now == ZERO_TIME || now >= c.midnight(d + 1) * NS_PER_SECOND)
    ensures Reported(rows, c, d, TapeOn(tapes, d), now, maxGap) <==> KeptOn(posts, tapes, c, d, maxGap)
  {
    hide LaidOver, ShortPosts, Credited, Reported, KeptOn;
    CreditedIffKept(rows, posts, tapes, device, member, c, d, maxGap);
    RowsWholeStamps(rows, posts + [Post(tapes, None)], device, member, c);
    ReportedIffCredited(rows, c, d, TapeOn(tapes, d), now, maxGap);
  }

  /** For the day as a whole: the report gives every app its part of the last tape if and only if every
      app has as many merged seconds. */
  ghost predicate SameTotals(layers: seq<Layer>, b: seq<Append>, length: nat, maxGap: int) {
    forall app :: LitIn(layers, 0, length, Process(app), maxGap) == Total(b, app)
  }

  lemma KeptTotals(s: seq<Layer>, b: seq<Append>, length: nat, maxGap: int)
    requires KeptOver(s, b) && Length(b) <= length && GapCovers(maxGap)
    ensures SameTotals(s + [Layer(b, true)], b, length, maxGap)
  {
    hide KeptOver, Lit;
    forall app ensures LitIn(s + [Layer(b, true)], 0, length, Process(app), maxGap) == Total(b, app) {
      LitIsShown(s, b, 0, length, Process(app), maxGap);
      ShownInIsShownFrom(b, 0, length, Process(app));
      ShownIsTotal(b, 0, Process(app));
    }
  }

  lemma {:induction false} LitIsShown(s: seq<Layer>, b: seq<Append>, x: nat, y: nat, who: Who, maxGap: int)
    requires KeptOver(s, b) && GapCovers(maxGap)
    ensures LitIn(s + [Layer(b, true)], x, y, who, maxGap) == ShownIn(b, x, y, who)
    decreases y - x
  {
    hide KeptOver, Lit;
    if x < y {
      LitIsShown(s, b, x + 1, y, who, maxGap);
      KeptLit(s, b, x, who, maxGap);
    }
  }

  // ---- where nothing was cut --------------------------------------------------

  lemma NothingRunsOn(posts: seq<Post>, c: Calendar, d: int, x: nat, who: Who, maxGap: int)
    requires ValidCalendar(c) && ShortPosts(c, posts) && c.Has(d) && !SomethingOn(posts, d) && Uncut(posts)
    ensures !LitOn(posts, c, d, x, who, maxGap)
  {
    hide LitOn, ShortPosts, SomethingOn, Merged, Uncut;
    match LastLaid(posts, c.first, d)
    case None => NotLit(posts, c, d, x, who, maxGap);
    case Some(day) => RunsOn(posts, c, day, d, x, who, maxGap);
  }

  lemma {:induction false} CountNothing(posts: seq<Post>, c: Calendar, d: int, x: nat, y: nat, who: Who, maxGap: int)
    requires ValidCalendar(c) && ShortPosts(c, posts) && c.Has(d) && !SomethingOn(posts, d) && Uncut(posts)
    ensures CountOn(posts, c, d, x, y, who, maxGap) == 0 == LitIn(LayersOn(posts, d), x, y, who, maxGap)
    decreases y - x
  {
    hide LitOn, ShortPosts, Merged;
    if x < y {
      NothingRunsOn(posts, c, d, x, who, maxGap);
      WholeEnds(LayersOn(posts, d), x);
      CountNothing(posts, c, d, x + 1, y, who, maxGap);
    }
  }

  /** Where every post is whole, all that is credited on a day is on the layers of the day. */
  lemma CountUncut(posts: seq<Post>, c: Calendar, d: int, x: nat, y: nat, who: Who, maxGap: int)
    requires ValidCalendar(c) && ShortPosts(c, posts) && c.Has(d) && Uncut(posts)
    ensures CountOn(posts, c, d, x, y, who, maxGap) == LitIn(LayersOn(posts, d), x, y, who, maxGap)
  {
    if SomethingOn(posts, d) {
      CountOfDay(posts, c, d, x, y, who, maxGap);
    } else {
      CountNothing(posts, c, d, x, y, who, maxGap);
    }
  }

  /** The condition over a single post before the last one. */
  lemma KeptOnOne(p: Post, tapes: map<int, seq<Append>>, c: Calendar, d: int, maxGap: int)
    ensures KeptOn([p], tapes, c, d, maxGap)
       <==> if |TapeOn(p.tapes, d)| > 0 || |TapeOn(tapes, d)| > 0 then Keeps(LayerOn(p, d), TapeOn(tapes, d))
            else !LitOn([p, Post(tapes, None)], c, d, 0, Everyone, maxGap)
  {
    hide KeptOver, Keeps, LitOn;
    var all := [p, Post(tapes, None)];
    assert [p] + [Post(tapes, None)] == all && LayersOn([p], d) == [LayerOn(p, d)];
    assert SomethingOn(all, d) <==> |TapeOn(all[0].tapes, d)| > 0 || |TapeOn(all[1].tapes, d)| > 0;
    KeptOverOne(LayerOn(p, d), TapeOn(tapes, d));
  }

  lemma KeptOnWhole(p: Post, tapes: map<int, seq<Append>>, c: Calendar, d: int, maxGap: int)
    requires ValidCalendar(c) && ShortPosts(c, [p, Post(tapes, None)]) && c.Has(d) && p.cut.None?
    ensures KeptOn([p], tapes, c, d, maxGap) <==> Keeps(LayerOn(p, d), TapeOn(tapes, d))
  {
    hide LitOn, ShortPosts, BeatAt;
    KeptOnOne(p, tapes, c, d, maxGap);
    var all := [p, Post(tapes, None)];
    if |TapeOn(p.tapes, d)| == 0 && |TapeOn(tapes, d)| == 0 {
      assert !SomethingOn(all, d) && Uncut(all);
      NothingRunsOn(all, c, d, 0, Everyone, maxGap);
      NoBeats(TapeOn(p.tapes, d));
    }
  }

  lemma NoBeats(a: seq<Append>)
    requires |a| == 0
    ensures Length(a) == 0 && forall o: nat :: !BeatAt(a, 0, o)
  {
  }
}
