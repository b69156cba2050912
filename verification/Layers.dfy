/** Several tapes laid over one another on one day: which app the server takes each second for, and
    exactly when that is what the last of them says. */
module Layers {
  import opened Observations
  import opened Reports
  import opened Intake
  import opened Tape
  import opened TapeUsage

  // ---- heartbeats and ends ----------------------------------------------------

  /** The tape has a heartbeat at offset o. */
  predicate BeatAt(a: seq<Append>, off: nat, o: nat) {
    |a| > 0
    && ((off <= o < off + a[0].delta && (o - off) % HEARTBEAT_SECONDS == 0) || BeatAt(a[1..], off + a[0].delta, o))
  }

  lemma {:induction false} BeatsOffset(r: Reel, app: string, off: nat, delta: nat, k: nat, e: RequestEvent)
    requires e in BeatsFrom(r, app, off, delta, k) && k % HEARTBEAT_SECONDS == 0
    ensures exists o: nat :: off <= o < off + delta && (o - off) % HEARTBEAT_SECONDS == 0 && IsBeat(r, e, app, o)
    decreases delta - k
  {
    hide Beat;
    BeatsCons(r, app, off, delta, k);
    if e == Beat(r, app, off + k) {
      assert (off + k - off) % HEARTBEAT_SECONDS == 0 && IsBeat(r, e, app, off + k);
    } else {
      BeatsOffset(r, app, off, delta, k + HEARTBEAT_SECONDS, e);
    }
  }

  /** An active element of a tape is the heartbeat of the app that shows there. */
  lemma {:induction false} ActiveIsBeat(r: Reel, a: seq<Append>, off: nat, e: RequestEvent) returns (o: nat)
    requires ValidAppends(a) && e in TapeOf(r, a, off) && e.state == "active"
    ensures off <= o < off + Length(a) && e == Beat(r, e.process, o) && BeatAt(a, off, o)
    ensures AppAt(a, off, o) == Some(e.process)
  {
    assert a[0] in a;
    if e in BeatsFrom(r, a[0].app, off, a[0].delta, 0) {
      BeatsOffset(r, a[0].app, off, a[0].delta, 0, e);
      o :| off <= o < off + a[0].delta && (o - off) % HEARTBEAT_SECONDS == 0 && IsBeat(r, e, a[0].app, o);
    } else {
      assert e in TapeOf(r, a[1..], off + a[0].delta);
      o := ActiveIsBeat(r, a[1..], off + a[0].delta, e);
    }
  }

  lemma {:induction false} BeatIsOn(r: Reel, app: string, off: nat, delta: nat, k: nat, o: nat)
    requires off + k <= o < off + delta && (o - off) % HEARTBEAT_SECONDS == 0 && k % HEARTBEAT_SECONDS == 0
    ensures Beat(r, app, o) in BeatsFrom(r, app, off, delta, k)
    decreases delta - k
  {
    hide Beat;
    BeatsCons(r, app, off, delta, k);
    if off + k < o {
      assert k + HEARTBEAT_SECONDS <= o - off;
      BeatIsOn(r, app, off, delta, k + HEARTBEAT_SECONDS, o);
    }
  }

  lemma {:induction false} BeatAtIsOn(r: Reel, a: seq<Append>, off: nat, o: nat) returns (app: string)
    requires BeatAt(a, off, o)
    ensures off <= o < off + Length(a) && AppAt(a, off, o) == Some(app) && Beat(r, app, o) in TapeOf(r, a, off)
  {
    if off <= o < off + a[0].delta && (o - off) % HEARTBEAT_SECONDS == 0 {
      app := a[0].app;
      BeatIsOn(r, app, off, a[0].delta, 0, o);
    } else {
      app := BeatAtIsOn(r, a[1..], off + a[0].delta, o);
    }
  }

  lemma {:induction false} BeatShows(a: seq<Append>, off: nat, o: nat)
    requires BeatAt(a, off, o)
    ensures off <= o < off + Length(a) && AppAt(a, off, o).Some?
  {
    if !(off <= o < off + a[0].delta && (o - off) % HEARTBEAT_SECONDS == 0) {
      BeatShows(a[1..], off + a[0].delta, o);
    }
  }

  /** Every second of a tape has a heartbeat less than 240 s before it. */
  lemma {:induction false} BeatNear(a: seq<Append>, off: nat, x: nat) returns (o: nat)
    requires off <= x < off + Length(a)
    ensures BeatAt(a, off, o) && off <= o <= x < o + HEARTBEAT_SECONDS
  {
    if x < off + a[0].delta {
      o := x - (x - off) % HEARTBEAT_SECONDS;
    } else {
      o := BeatNear(a[1..], off + a[0].delta, x);
    }
  }

  /** The app changes only at a heartbeat or where the tape ends. */
  lemma {:induction false} AppStays(a: seq<Append>, off: nat, x: nat)
    requires off < x && !BeatAt(a, off, x) && x != off + Length(a)
    ensures AppAt(a, off, x) == AppAt(a, off, x - 1)
  {
    if |a| > 0 && x >= off + a[0].delta {
      var next := off + a[0].delta;
      if x == next {
        assert Length(a[1..]) > 0;
        BeginsWithBeat(a[1..], next);
      } else {
        AppStays(a[1..], next, x);
      }
    }
  }

  lemma {:induction false} BeginsWithBeat(a: seq<Append>, off: nat)
    requires Length(a) > 0
    ensures BeatAt(a, off, off)
  {
    if a[0].delta == 0 {
      BeginsWithBeat(a[1..], off);
    }
  }

  /** An idle element of a tape ends it or shares its offset with a heartbeat. */
  lemma {:induction false} IdleIsEnd(r: Reel, a: seq<Append>, off: nat, e: RequestEvent)
    requires ValidAppends(a) && e in TapeOf(r, a, off) && e.state == "idle"
    ensures e.sequence >= 0 && e.sequence % 2 == 0
    ensures e.sequence == 2 * (off + Length(a)) || BeatAt(a, off, e.sequence / 2)
  {
    var next := off + a[0].delta;
    IdleAfter(r, a, off, e);
    if e.sequence == 2 * next {
      if Length(a[1..]) > 0 {
        BeginsWithBeat(a[1..], next);
      }
    } else {
      IdleIsEnd(r, a[1..], next, e);
    }
  }

  lemma {:induction false} TapeLast(r: Reel, a: seq<Append>, off: nat)
    requires |a| > 0
    ensures var t := TapeOf(r, a, off); |t| > 0 && t[|t| - 1] == Terminator(r, off + Length(a))
  {
    hide Terminator, BeatsFrom;
    var rest := TapeOf(r, a[1..], off + a[0].delta);
    if |a| > 1 {
      TapeLast(r, a[1..], off + a[0].delta);
      assert TapeOf(r, a, off)[|Piece(r, a[0], off)| + |rest| - 1] == rest[|rest| - 1];
    } else {
      assert a[1..] == [] && rest == [];
    }
  }

  lemma TapeState(r: Reel, a: seq<Append>, e: RequestEvent)
    requires ValidAppends(a) && e in TapeOf(r, a, 0)
    ensures e.state == "active" || e.state == "idle"
  {
    TapeMember(r, a, 0, e);
  }

  // ---- layers -----------------------------------------------------------------

  /** A tape as far as it was posted: whole, or cut before its last terminator. */
  datatype Layer = Layer(appends: seq<Append>, ended: bool)

  ghost predicate SoundLayer(l: Layer) {
    ValidAppends(l.appends) && (!l.ended ==> |l.appends| > 0)
  }

  function LayerEvents(r: Reel, l: Layer, off: nat): seq<RequestEvent> {
    var t := TapeOf(r, l.appends, off);
    if l.ended || |t| == 0 then t else t[..|t| - 1]
  }

  lemma LayerEvent(r: Reel, l: Layer, e: RequestEvent)
    requires SoundLayer(l)
    ensures e in LayerEvents(r, l, 0)
       <==> e in TapeOf(r, l.appends, 0) && (l.ended || e != Terminator(r, Length(l.appends)))
  {
    hide TapeOf, Terminator;
    var t := TapeOf(r, l.appends, 0);
    if !l.ended {
      TapeLast(r, l.appends, 0);
      TapeClimbs(r, l.appends, 0);
      assert t == t[..|t| - 1] + [t[|t| - 1]];
    }
  }

  predicate BeatsWith(l: Layer, o: nat, app: string) {
    BeatAt(l.appends, 0, o) && AppAt(l.appends, 0, o) == Some(app)
  }

  predicate Beaten(layers: seq<Layer>, o: nat, app: string) {
    exists k :: 0 <= k < |layers| && BeatsWith(layers[k], o, app)
  }

  /** Whose heartbeat decides at offset o: the one posted last, a known one not counting again. */
  function BeatOf(layers: seq<Layer>, o: nat): Option<string> {
    if |layers| == 0 then None
    else
      var front, last := layers[..|layers| - 1], layers[|layers| - 1];
      var app := AppAt(last.appends, 0, o);
      if BeatAt(last.appends, 0, o) && app.Some? && !Beaten(front, o, app.value) then app else BeatOf(front, o)
  }

  /** A whole layer ends at offset o. */
  predicate EndsAt(layers: seq<Layer>, o: nat) {
    exists k :: 0 <= k < |layers| && layers[k].ended && 0 < Length(layers[k].appends) == o
  }

  datatype Mark = Mark(app: string, at: nat)

  /** The layers merged: the heartbeat that second x is credited to, if any. */
  function Merged(layers: seq<Layer>, x: nat): Option<Mark> {
    match BeatOf(layers, x)
    case Some(app) => Some(Mark(app, x))
    case None => if x == 0 || EndsAt(layers, x) then None else Merged(layers, x - 1)
  }

  /** Second x is credited to `who` under the gap cap. */
  predicate Lit(layers: seq<Layer>, x: nat, who: Who, maxGap: int) {
    var m := Merged(layers, x);
    && m.Some? && (who == Everyone || who == Process(m.value.app))
    && (maxGap > 0 ==> (x - m.value.at) * NS_PER_SECOND < maxGap)
  }

  lemma {:induction false} BeatOfRules(layers: seq<Layer>, o: nat)
    ensures BeatOf(layers, o).Some? <==> exists k :: 0 <= k < |layers| && BeatAt(layers[k].appends, 0, o)
    ensures BeatOf(layers, o).Some? ==> Beaten(layers, o, BeatOf(layers, o).value)
  {
    if |layers| > 0 {
      var front, last := layers[..|layers| - 1], layers[|layers| - 1];
      BeatOfRules(front, o);
      assert forall k :: 0 <= k < |front| ==> front[k] == layers[k];
      if BeatAt(last.appends, 0, o) {
        BeatShows(last.appends, 0, o);
        var app := AppAt(last.appends, 0, o).value;
        assert BeatsWith(layers[|layers| - 1], o, app);
        if Beaten(front, o, app) {
          var k :| 0 <= k < |front| && BeatsWith(front[k], o, app);
        }
      }
      if BeatOf(front, o).Some? {
        var k :| 0 <= k < |front| && BeatsWith(front[k], o, BeatOf(front, o).value);
        assert BeatsWith(layers[k], o, BeatOf(front, o).value);
      }
    }
  }

  // ---- the newest event and the merged layers ---------------------------------

  ghost predicate InLayers(r: Reel, layers: seq<Layer>, e: RequestEvent) {
    exists k :: 0 <= k < |layers| && e in LayerEvents(r, layers[k], 0)
  }

  ghost predicate SoundLayers(layers: seq<Layer>) {
    forall k :: 0 <= k < |layers| ==> SoundLayer(layers[k])
  }

  /** At second x the event e is the newest of all layers, and a heartbeat that decides its offset. */
  ghost predicate Newest(r: Reel, layers: seq<Layer>, x: nat, e: RequestEvent) {
    && InLayers(r, layers, e) && 0 <= e.sequence <= 2 * x + 1
    && (forall y {:trigger InLayers(r, layers, y)} ::
          InLayers(r, layers, y) && y.sequence <= 2 * x + 1 ==> y.sequence <= e.sequence)
    && (e.state == "active" ==> BeatOf(layers, e.sequence / 2) == Some(e.process))
  }

  lemma LayerOf(r: Reel, layers: seq<Layer>, e: RequestEvent) returns (k: nat)
    requires SoundLayers(layers) && InLayers(r, layers, e)
    ensures k < |layers| && SoundLayer(layers[k]) && e in TapeOf(r, layers[k].appends, 0)
    ensures e in LayerEvents(r, layers[k], 0)
    ensures layers[k].ended || e != Terminator(r, Length(layers[k].appends))
    ensures e.state == "active" || e.state == "idle"
  {
    hide TapeOf, Terminator, LayerEvents;
    k :| 0 <= k < |layers| && e in LayerEvents(r, layers[k], 0);
    LayerEvent(r, layers[k], e);
    TapeState(r, layers[k].appends, e);
  }

  /** A heartbeat of a layer is one of its events. */
  lemma BeatInLayers(r: Reel, layers: seq<Layer>, k: nat, o: nat) returns (app: string)
    requires SoundLayers(layers) && k < |layers| && BeatAt(layers[k].appends, 0, o)
    ensures AppAt(layers[k].appends, 0, o) == Some(app) && InLayers(r, layers, Beat(r, app, o))
  {
    hide TapeOf;
    app := BeatAtIsOn(r, layers[k].appends, 0, o);
    assert SoundLayer(layers[k]);
    LayerEvent(r, layers[k], Beat(r, app, o));
    assert Beat(r, app, o) in LayerEvents(r, layers[k], 0);
  }

  lemma EndInLayers(r: Reel, layers: seq<Layer>, x: nat)
    requires SoundLayers(layers) && EndsAt(layers, x)
    ensures InLayers(r, layers, Terminator(r, x))
  {
    hide TapeOf, Terminator;
    var k :| 0 <= k < |layers| && layers[k].ended && 0 < Length(layers[k].appends) == x;
    TapeLast(r, layers[k].appends, 0);
    assert Terminator(r, x) in LayerEvents(r, layers[k], 0);
  }

  /** An active event of the layers stands at a heartbeat. */
  lemma ActiveMark(r: Reel, layers: seq<Layer>, e: RequestEvent) returns (o: nat)
    requires SoundLayers(layers) && InLayers(r, layers, e) && e.state == "active"
    ensures e == Beat(r, e.process, o) && e.sequence == 2 * o + 1 && BeatOf(layers, o).Some?
    ensures Beaten(layers, o, e.process)
  {
    hide TapeOf, LayerEvents;
    var k := LayerOf(r, layers, e);
    o := ActiveIsBeat(r, layers[k].appends, 0, e);
    BeatOfRules(layers, o);
    assert BeatsWith(layers[k], o, e.process);
  }

  /** An idle event of the layers ends a whole layer or stands where there is a heartbeat. */
  lemma IdleMark(r: Reel, layers: seq<Layer>, e: RequestEvent) returns (o: nat)
    requires SoundLayers(layers) && InLayers(r, layers, e) && e.state == "idle"
    ensures e.sequence == 2 * o && (EndsAt(layers, o) || BeatOf(layers, o).Some?)
  {
    hide TapeOf, LayerEvents;
    var k := LayerOf(r, layers, e);
    var a := layers[k].appends;
    IdleIsEnd(r, a, 0, e);
    o := e.sequence / 2;
    BeatOfRules(layers, o);
    if !BeatAt(a, 0, o) {
      assert o == Length(a);
      EndOfTape(r, a, e);
    }
  }

  lemma EndOfTape(r: Reel, a: seq<Append>, e: RequestEvent)
    requires ValidAppends(a) && e in TapeOf(r, a, 0) && e.sequence == 2 * Length(a)
    ensures e == Terminator(r, Length(a)) && Length(a) > 0
  {
    hide TapeOf;
    if |a| > 0 {
      assert a[0] in a;
      TapeLast(r, a, 0);
      TapeClimbs(r, a, 0);
      var t := TapeOf(r, a, 0);
      var i :| 0 <= i < |t| && t[i] == e;
    } else {
      TapeEmpty(r, a);
    }
  }

  lemma TapeEmpty(r: Reel, a: seq<Append>)
    requires |a| == 0
    ensures TapeOf(r, a, 0) == []
  {
  }

  /** The merged layers say what the newest event says. */
  lemma {:induction false} NewestIsMerged(r: Reel, layers: seq<Layer>, x: nat, e: RequestEvent)
    requires SoundLayers(layers) && Newest(r, layers, x, e)
    ensures Merged(layers, x) == if e.state == "active" then Some(Mark(e.process, e.sequence / 2)) else None
  {
    hide LayerEvents, InLayers, Beat, Terminator, EndsAt, Beaten, BeatOf, SoundLayers;
    MarkOf(r, layers, e);
    if BeatOf(layers, x).Some? {
      BeatDecides(r, layers, x, e);
    } else if EndsAt(layers, x) {
      EndInLayers(r, layers, x);
      assert Terminator(r, x).sequence == 2 * x by { TerminatorNumber(r, x); }
    } else if x > 0 {
      assert Newest(r, layers, x - 1, e);
      NewestIsMerged(r, layers, x - 1, e);
    }
  }

  lemma TerminatorNumber(r: Reel, x: nat)
    ensures Terminator(r, x).sequence == 2 * x && forall app :: Beat(r, app, x).sequence == 2 * x + 1
  {
  }

  lemma MarkOf(r: Reel, layers: seq<Layer>, e: RequestEvent)
    requires SoundLayers(layers) && InLayers(r, layers, e)
    ensures e.state == "active" || e.state == "idle"
    ensures e.state == "active" ==> e.sequence >= 0 && e.sequence % 2 == 1 && BeatOf(layers, e.sequence / 2).Some?
    ensures e.state == "idle" ==> e.sequence >= 0 && e.sequence % 2 == 0
                                  && (EndsAt(layers, e.sequence / 2) || BeatOf(layers, e.sequence / 2).Some?)
  {
    hide SoundLayers, InLayers;
    var k := LayerOf(r, layers, e);
    if e.state == "active" {
      var o := ActiveMark(r, layers, e);
    } else {
      var o := IdleMark(r, layers, e);
    }
  }

  /** Where there is a heartbeat, the newest event is one. */
  lemma BeatDecides(r: Reel, layers: seq<Layer>, x: nat, e: RequestEvent)
    requires SoundLayers(layers) && Newest(r, layers, x, e) && BeatOf(layers, x).Some?
    ensures e.sequence == 2 * x + 1
  {
    hide InLayers, BeatOf, BeatAt;
    BeatOfRules(layers, x);
    var k :| 0 <= k < |layers| && BeatAt(layers[k].appends, 0, x);
    var app := BeatInLayers(r, layers, k, x);
    assert Beat(r, app, x).sequence == 2 * x + 1;
  }

  // ---- how old a mark is ------------------------------------------------------

  /** The mark of a second is at the last heartbeat before it or later. */
  lemma {:induction false} MergedAfter(layers: seq<Layer>, x: nat, o: nat)
    requires o <= x && (BeatOf(layers, o).Some? || EndsAt(layers, o)) && Merged(layers, x).Some?
    ensures o <= Merged(layers, x).value.at <= x
  {
    hide BeatOf, EndsAt;
    if BeatOf(layers, x).None? && o < x {
      MergedAfter(layers, x - 1, o);
    }
  }

  lemma {:induction false} MergedIsBeat(layers: seq<Layer>, x: nat)
    requires Merged(layers, x).Some?
    ensures var m := Merged(layers, x).value; m.at <= x && BeatOf(layers, m.at) == Some(m.app)
  {
    hide BeatOf, EndsAt;
    if BeatOf(layers, x).None? {
      MergedIsBeat(layers, x - 1);
    }
  }

  /** Where all layers are whole, no second is credited to a heartbeat 240 s old. */
  lemma MergedFresh(layers: seq<Layer>, x: nat)
    requires Merged(layers, x).Some? && forall k :: 0 <= k < |layers| ==> layers[k].ended
    ensures Merged(layers, x).value.at <= x < Merged(layers, x).value.at + HEARTBEAT_SECONDS
  {
    hide BeatOf, Merged, BeatAt;
    var m := Merged(layers, x).value;
    MergedIsBeat(layers, x);
    BeatOfRules(layers, m.at);
    var k :| 0 <= k < |layers| && BeatAt(layers[k].appends, 0, m.at);
    var a := layers[k].appends;
    BeatShows(a, 0, m.at);
    if x < Length(a) {
      var o := BeatNear(a, 0, x);
      BeatOfRules(layers, o);
      MergedAfter(layers, x, o);
    } else {
      assert EndsAt(layers, Length(a));
      MergedAfter(layers, x, Length(a));
    }
  }

  // ---- when the last layer is what shows --------------------------------------

  /** Laying b out over the layers s leaves b showing: every heartbeat that decides belongs to the app
      that b shows there, and where a whole layer of s ends while b runs there is a heartbeat. */
  ghost predicate KeptOver(s: seq<Layer>, b: seq<Append>) {
    var all := s + [Layer(b, true)];
    && (forall o: nat {:trigger BeatOf(all, o)} :: BeatOf(all, o).Some? ==> BeatOf(all, o) == AppAt(b, 0, o))
    && (forall o: nat {:trigger EndsAt(s, o)} :: EndsAt(s, o) && o < Length(b) ==> BeatOf(all, o).Some?)
  }

  lemma LastBeats(s: seq<Layer>, b: seq<Append>, o: nat)
    requires BeatAt(b, 0, o)
    ensures BeatOf(s + [Layer(b, true)], o).Some?
  {
    var all := s + [Layer(b, true)];
    BeatOfRules(all, o);
    assert all[|s|].appends == b;
  }

  lemma LastEnds(s: seq<Layer>, b: seq<Append>, o: nat)
    ensures EndsAt(s + [Layer(b, true)], o) <==> EndsAt(s, o) || 0 < Length(b) == o
  {
    var all := s + [Layer(b, true)];
    assert all[|s|] == Layer(b, true) && forall k :: 0 <= k < |s| ==> all[k] == s[k];
    if EndsAt(all, o) {
      var k :| 0 <= k < |all| && all[k].ended && 0 < Length(all[k].appends) == o;
      if k < |s| {
        assert s[k].ended && 0 < Length(s[k].appends) == o;
      }
    }
    if EndsAt(s, o) {
      var k :| 0 <= k < |s| && s[k].ended && 0 < Length(s[k].appends) == o;
      assert all[k].ended && 0 < Length(all[k].appends) == o;
    }
  }

  function AppOf(m: Option<Mark>): Option<string> {
    if m.Some? then Some(m.value.app) else None
  }

  lemma {:induction false} KeptShows(s: seq<Layer>, b: seq<Append>, x: nat)
    requires KeptOver(s, b)
    ensures AppOf(Merged(s + [Layer(b, true)], x)) == AppAt(b, 0, x)
  {
    hide BeatOf, EndsAt, BeatAt, AppAt, Length;
    var all := s + [Layer(b, true)];
    if BeatOf(all, x).None? {
      LastEnds(s, b, x);
      ShowsWithin(b, 0, x);
      if BeatAt(b, 0, x) {
        LastBeats(s, b, x);
      }
      if x == 0 {
        if Length(b) > 0 { BeginsWithBeat(b, 0); }
      } else if !EndsAt(all, x) {
        KeptShows(s, b, x - 1);
        if x == Length(b) {
        } else {
          AppStays(b, 0, x);
        }
      }
    }
  }

  lemma KeptLit(s: seq<Layer>, b: seq<Append>, x: nat, who: Who, maxGap: int)
    requires KeptOver(s, b) && GapCovers(maxGap)
    ensures Lit(s + [Layer(b, true)], x, who, maxGap) <==> Shows(b, 0, x, who)
  {
    hide KeptOver, Merged, BeatOf;
    var all := s + [Layer(b, true)];
    KeptShows(s, b, x);
    if Merged(all, x).Some? {
      ShowsWithin(b, 0, x);
      var o := BeatNear(b, 0, x);
      LastBeats(s, b, o);
      MergedAfter(all, x, o);
    }
  }

  /** And only then does every second show b. */
  lemma LitKept(s: seq<Layer>, b: seq<Append>, bound: nat, maxGap: int)
    requires Length(b) < bound && forall k :: 0 <= k < |s| ==> Length(s[k].appends) < bound
    requires forall x: nat, who :: x < bound ==> (Lit(s + [Layer(b, true)], x, who, maxGap) <==> Shows(b, 0, x, who))
    ensures KeptOver(s, b)
  {
    var all := s + [Layer(b, true)];
    forall o: nat | BeatOf(all, o).Some? ensures BeatOf(all, o) == AppAt(b, 0, o) {
      BeatOfRules(all, o);
      var k :| 0 <= k < |all| && BeatAt(all[k].appends, 0, o);
      BeatShows(all[k].appends, 0, o);
      assert Lit(all, o, Process(BeatOf(all, o).value), maxGap);
    }
    forall o: nat | EndsAt(s, o) && o < Length(b) ensures BeatOf(all, o).Some? {
      LastEnds(s, b, o);
      ShowsWithin(b, 0, o);
      assert Lit(all, o, Everyone, maxGap) <==> Shows(b, 0, o, Everyone);
    }
  }

  // ---- one stored tape --------------------------------------------------------

  /** For a single stored tape: every heartbeat of it belongs to the app that b shows there or is
      overruled by a heartbeat of b, and where it ends, if it was posted whole, before b does, b has a
      heartbeat. */
  predicate Keeps(a: Layer, b: seq<Append>) {
    && (forall o: nat {:trigger BeatAt(a.appends, 0, o)} :: o < Length(a.appends) && BeatAt(a.appends, 0, o)
          ==> BeatAt(b, 0, o) || AppAt(a.appends, 0, o) == AppAt(b, 0, o))
    && (a.ended && 0 < Length(a.appends) < Length(b) ==> BeatAt(b, 0, Length(a.appends)))
  }

  lemma OnlyOne(a: Layer, o: nat)
    ensures BeatOf([a], o) == if BeatAt(a.appends, 0, o) then AppAt(a.appends, 0, o) else None
    ensures forall app :: Beaten([a], o, app) <==> BeatsWith(a, o, app)
    ensures EndsAt([a], o) <==> a.ended && 0 < Length(a.appends) == o
  {
    var one := [a];
    assert one[..0] == [] && one[0] == a;
    if BeatAt(a.appends, 0, o) { BeatShows(a.appends, 0, o); }
  }

  lemma OverOne(a: Layer, b: seq<Append>, o: nat)
    ensures BeatOf([a, Layer(b, true)], o)
         == if BeatAt(b, 0, o) then AppAt(b, 0, o) else if BeatAt(a.appends, 0, o) then AppAt(a.appends, 0, o) else None
    ensures EndsAt([a], o) <==> a.ended && 0 < Length(a.appends) == o
  {
    hide EndsAt;
    var both := [a, Layer(b, true)];
    assert both[..1] == [a];
    OnlyOne(a, o);
    if BeatAt(b, 0, o) { BeatShows(b, 0, o); }
  }

  /** For one stored tape the condition is the simple one. */
  lemma KeptOverOne(a: Layer, b: seq<Append>)
    ensures KeptOver([a], b) <==> Keeps(a, b)
  {
    hide BeatOf, EndsAt, BeatAt, AppAt, Length;
    assert [a] + [Layer(b, true)] == [a, Layer(b, true)];
    if Keeps(a, b) {
      forall o: nat | BeatOf([a, Layer(b, true)], o).Some? ensures BeatOf([a, Layer(b, true)], o) == AppAt(b, 0, o) {
        OverOne(a, b, o);
        if BeatAt(a.appends, 0, o) { BeatShows(a.appends, 0, o); }
      }
      forall o: nat | EndsAt([a], o) && o < Length(b) ensures BeatOf([a, Layer(b, true)], o).Some? {
        OverOne(a, b, o);
        BeatShows(b, 0, o);
      }
    }
    if KeptOver([a], b) {
      forall o: nat | o < Length(a.appends) && BeatAt(a.appends, 0, o)
        ensures BeatAt(b, 0, o) || AppAt(a.appends, 0, o) == AppAt(b, 0, o)
      {
        OverOne(a, b, o);
        BeatShows(a.appends, 0, o);
      }
      if a.ended && 0 < Length(a.appends) < Length(b) {
        OverOne(a, b, Length(a.appends));
        NoBeatAtEnd(a.appends);
      }
    }
  }

  lemma NoBeatAtEnd(a: seq<Append>)
    ensures !BeatAt(a, 0, Length(a))
  {
    if BeatAt(a, 0, Length(a)) {
      BeatShows(a, 0, Length(a));
    }
  }

  // ---- a tape that is cut -----------------------------------------------------

  function BeatCount(delta: nat): nat {
    if delta == 0 then 0 else (delta - 1) / HEARTBEAT_SECONDS + 1
  }

  /** What the first n events of a tape make up. */
  function CutTape(a: seq<Append>, n: nat): Layer {
    if |a| == 0 || n == 0 then Layer([], true)
    else
      var beats := BeatCount(a[0].delta);
      if n <= beats then Layer([Append(a[0].app, (n - 1) * HEARTBEAT_SECONDS + 1)], false)
      else
        var rest := CutTape(a[1..], n - beats - 1);
        Layer([a[0]] + rest.appends, rest.ended)
  }

  function EventCount(a: seq<Append>): nat {
    if |a| == 0 then 0 else BeatCount(a[0].delta) + 1 + EventCount(a[1..])
  }

  lemma {:induction false} BeatsCount(r: Reel, app: string, off: nat, delta: nat, k: nat)
    requires k <= delta + HEARTBEAT_SECONDS && k % HEARTBEAT_SECONDS == 0
    ensures |BeatsFrom(r, app, off, delta, k)| == if k < delta then BeatCount(delta - k) else 0
    decreases delta + HEARTBEAT_SECONDS - k
  {
    if k < delta {
      BeatsCount(r, app, off, delta, k + HEARTBEAT_SECONDS);
    }
  }

  /** The first beats of an append are the beats of a shorter one. */
  lemma {:induction false} BeatsCut(r: Reel, app: string, off: nat, delta: nat, k: nat, n: nat)
    requires 0 < n <= |BeatsFrom(r, app, off, delta, k)|
    ensures BeatsFrom(r, app, off, delta, k)[..n]
         == BeatsFrom(r, app, off, k + (n - 1) * HEARTBEAT_SECONDS + 1, k)
    decreases n
  {
    hide Beat;
    var all := BeatsFrom(r, app, off, delta, k);
    var next := k + HEARTBEAT_SECONDS;
    var rest := BeatsFrom(r, app, off, delta, next);
    assert all == [Beat(r, app, off + k)] + rest;
    if n == 1 {
      assert BeatsFrom(r, app, off, k + 1, k) == [Beat(r, app, off + k)] + BeatsFrom(r, app, off, k + 1, next);
    } else {
      BeatsCut(r, app, off, delta, next, n - 1);
      assert all[..n] == [Beat(r, app, off + k)] + rest[..n - 1];
    }
  }

  lemma {:induction false} CutTapeEvents(r: Reel, a: seq<Append>, off: nat, n: nat)
    ensures |TapeOf(r, a, off)| == EventCount(a)
    ensures LayerEvents(r, CutTape(a, n), off) == TapeOf(r, a, off)[..Min(n, EventCount(a))]
  {
    hide BeatsFrom, Terminator;
    if |a| > 0 {
      var first, next := a[0], off + a[0].delta;
      var beats := BeatsFrom(r, first.app, off, first.delta, 0);
      var rest := TapeOf(r, a[1..], next);
      BeatsCount(r, first.app, off, first.delta, 0);
      CutTapeEvents(r, a[1..], next, if n > |beats| then n - |beats| - 1 else 0);
      assert TapeOf(r, a, off) == beats + [Terminator(r, next)] + rest;
      if 0 < n <= |beats| {
        BeatsCut(r, first.app, off, first.delta, 0, n);
        var short := Append(first.app, (n - 1) * HEARTBEAT_SECONDS + 1);
        assert [short][1..] == [];
        assert TapeOf(r, [short], off) == beats[..n] + [Terminator(r, off + short.delta)] + [];
        assert TapeOf(r, a, off)[..n] == beats[..n];
      } else if n > 0 {
        CutBehind(r, a, off, n);
      }
    }
  }

  lemma CutBehind(r: Reel, a: seq<Append>, off: nat, n: nat)
    requires |a| > 0 && n > BeatCount(a[0].delta)
             && |BeatsFrom(r, a[0].app, off, a[0].delta, 0)| == BeatCount(a[0].delta)
    requires |TapeOf(r, a[1..], off + a[0].delta)| == EventCount(a[1..])
    requires var m := n - BeatCount(a[0].delta) - 1;
             LayerEvents(r, CutTape(a[1..], m), off + a[0].delta)
             == TapeOf(r, a[1..], off + a[0].delta)[..Min(m, EventCount(a[1..]))]
    ensures LayerEvents(r, CutTape(a, n), off) == TapeOf(r, a, off)[..Min(n, EventCount(a))]
  {
    hide BeatsFrom, Terminator, CutTape, EventCount;
    var m := n - BeatCount(a[0].delta) - 1;
    var piece, next := Piece(r, a[0], off), off + a[0].delta;
    var rest, cut := TapeOf(r, a[1..], next), CutTape(a[1..], m);
    assert CutTape(a, n) == Layer([a[0]] + cut.appends, cut.ended) && EventCount(a) == |piece| + EventCount(a[1..]) by {
      assert |piece| == BeatCount(a[0].delta) + 1;
      CutUnfolds(a, n);
    }
    TapeCons(r, a[0], cut.appends, off);
    assert TapeOf(r, a, off) == piece + rest;
    CutSound(a[1..], m);
    if !cut.ended {
      TapeLast(r, cut.appends, next);
    }
    assert LayerEvents(r, CutTape(a, n), off) == piece + LayerEvents(r, cut, next);
  }

  lemma CutUnfolds(a: seq<Append>, n: nat)
    requires |a| > 0 && n > BeatCount(a[0].delta)
    ensures var rest := CutTape(a[1..], n - BeatCount(a[0].delta) - 1);
            CutTape(a, n) == Layer([a[0]] + rest.appends, rest.ended)
    ensures EventCount(a) == BeatCount(a[0].delta) + 1 + EventCount(a[1..])
  {
  }

  lemma {:induction false} CutSound(a: seq<Append>, n: nat)
    ensures !CutTape(a, n).ended ==> |CutTape(a, n).appends| > 0
    ensures ValidAppends(a) ==> SoundLayer(CutTape(a, n))
    ensures Length(CutTape(a, n).appends) <= Length(a)
  {
    if |a| > 0 && n > 0 {
      var beats := BeatCount(a[0].delta);
      assert a[0] in a;
      if n <= beats {
        assert CutTape(a, n).appends[1..] == [];
        assert (n - 1) * HEARTBEAT_SECONDS <= (beats - 1) * HEARTBEAT_SECONDS <= a[0].delta - 1;
      } else {
        CutSound(a[1..], n - beats - 1);
        CutUnfolds(a, n);
        var rest := CutTape(a[1..], n - beats - 1);
        assert CutTape(a, n).appends[1..] == rest.appends;
        if ValidAppends(a) {
          assert ValidAppends(a[1..]);
        }
      }
    }
  }

  lemma {:induction false} CutWhole(a: seq<Append>, n: nat)
    requires n >= EventCount(a)
    ensures CutTape(a, n) == Layer(a, true)
  {
    if |a| > 0 {
      CutWhole(a[1..], n - BeatCount(a[0].delta) - 1);
    }
  }
}
