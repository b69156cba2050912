/** The collector lays a day's per-app totals out as one contiguous tape of heartbeats
    that starts at local midnight. */
module Tape {
  import opened Decimals
  import opened Observations
  import opened Reports
  import opened Intake
  import opened Names

  const HEARTBEAT_SECONDS: nat := 240

  /** Local midnights in seconds and the ISO names of the days, by day number, for the days that exist. */
  datatype Calendar = Calendar(midnight: int -> int, iso: int -> string, first: int, last: int) {
    predicate Has(day: int) { first <= day <= last }
  }

  /** Within its days the calendar moves on, and names them apart. */
  ghost predicate ValidCalendar(c: Calendar) {
    && (forall d, e :: c.first <= d < e <= c.last + 1 ==> c.midnight(d) < c.midnight(e))
    && (forall d, e :: c.Has(d) && c.Has(e) && c.iso(d) == c.iso(e) ==> d == e)
    && (forall d :: c.Has(d) ==> |c.iso(d)| == 10)
  }

  /** Whose tape it is, on which day. */
  datatype Reel = Reel(member: string, calendar: Calendar, day: int)

  datatype Append = Append(app: string, delta: nat)

  /** "idle" would give a heartbeat the id of a terminator, and the server renames an empty name. */
  predicate ValidApp(app: string) {
    app != "" && app != "idle" && !IsSpace(app[0]) && !IsSpace(app[|app| - 1])
  }

  ghost predicate ValidAppends(a: seq<Append>) {
    forall x :: x in a ==> ValidApp(x.app) && x.delta > 0
  }

  function Stamp(r: Reel, off: nat): int {
    (r.calendar.midnight(r.day) + off) * NS_PER_SECOND
  }

  function Beat(r: Reel, app: string, off: nat): RequestEvent {
    RequestEvent(EventName(r.member, r.calendar.iso(r.day), app, off), ACTIVITY_OBSERVED, Stamp(r, off),
                 "active", app, off * 2 + 1)
  }

  function Terminator(r: Reel, off: nat): RequestEvent {
    RequestEvent(EventName(r.member, r.calendar.iso(r.day), "idle", off), ACTIVITY_OBSERVED, Stamp(r, off),
                 "idle", "", off * 2)
  }

  function BeatsFrom(r: Reel, app: string, off: nat, delta: nat, k: nat): seq<RequestEvent>
    decreases delta - k
  {
    if k >= delta then [] else [Beat(r, app, off + k)] + BeatsFrom(r, app, off, delta, k + HEARTBEAT_SECONDS)
  }

  function Piece(r: Reel, a: Append, off: nat): seq<RequestEvent> {
    BeatsFrom(r, a.app, off, a.delta, 0) + [Terminator(r, off + a.delta)]
  }

  lemma {:induction false} BeatsAt(r: Reel, app: string, off: nat, delta: nat, k: nat)
    ensures |BeatsFrom(r, app, off, delta, k)| == (if k >= delta then 0 else (delta - k + 239) / 240)
    ensures forall i :: 0 <= i < |BeatsFrom(r, app, off, delta, k)| ==>
              BeatsFrom(r, app, off, delta, k)[i] == Beat(r, app, off + k + 240 * i)
    decreases delta - k
  {
    hide Beat;
    if k < delta {
      BeatsAt(r, app, off, delta, k + HEARTBEAT_SECONDS);
    }
  }

  ghost predicate IsName(id: string, r: Reel, tag: string, off: nat) {
    id == "rootaika-ios-screentime|" + r.member + "|" + r.calendar.iso(r.day) + "|" + tag + "|" + Unsigned(off)
  }

  /** An append is laid out as one heartbeat every 240 s and the terminator, each with the time and the
      sequence of its second of the day and an id from member, day, tag and second. */
  lemma PieceElements(r: Reel, a: Append, off: nat)
    ensures var s, n := Piece(r, a, off), (a.delta + 239) / 240;
            && |s| == n + 1
            && (forall i :: 0 <= i < n ==>
                  && IsName(s[i].eventId, r, a.app, off + 240 * i)
                  && s[i].kind == "activity_observed" && s[i].state == "active" && s[i].process == a.app
                  && s[i].at == (r.calendar.midnight(r.day) + off + 240 * i) * NS_PER_SECOND
                  && s[i].sequence == 2 * (off + 240 * i) + 1)
            && IsName(s[n].eventId, r, "idle", off + a.delta)
            && s[n].kind == "activity_observed" && s[n].state == "idle" && s[n].process == ""
            && s[n].at == (r.calendar.midnight(r.day) + off + a.delta) * NS_PER_SECOND
            && s[n].sequence == 2 * (off + a.delta)
  {
    hide EventName, IsName;
    BeatsAt(r, a.app, off, a.delta, 0);
    forall tag, o: nat ensures IsName(EventName(r.member, r.calendar.iso(r.day), tag, o), r, tag, o) {
      NameInFull(r, tag, o);
    }
  }

  lemma NameInFull(r: Reel, tag: string, off: nat)
    ensures IsName(EventName(r.member, r.calendar.iso(r.day), tag, off), r, tag, off)
  {
    var u, day := Unsigned(off), r.calendar.iso(r.day);
    EventNameParts(r.member, day, tag, off);
    assert NAME_PREFIX + ("|" + (r.member + ("|" + (day + ("|" + (tag + ("|" + u)))))))
        == "rootaika-ios-screentime|" + r.member + "|" + day + "|" + tag + "|" + u;
  }

  function TapeOf(r: Reel, appends: seq<Append>, off: nat): seq<RequestEvent> {
    if |appends| == 0 then []
    else Piece(r, appends[0], off) + TapeOf(r, appends[1..], off + appends[0].delta)
  }

  function Length(appends: seq<Append>): nat {
    if |appends| == 0 then 0 else appends[0].delta + Length(appends[1..])
  }

  function Total(appends: seq<Append>, app: string): nat {
    if |appends| == 0 then 0
    else (if appends[0].app == app then appends[0].delta else 0) + Total(appends[1..], app)
  }

  lemma ConcatAssociates<T>(x: seq<T>, y: seq<T>, z: seq<T>)
    ensures x + (y + z) == (x + y) + z
  {
  }

  lemma BeatsCons(r: Reel, app: string, off: nat, delta: nat, k: nat)
    requires k < delta
    ensures BeatsFrom(r, app, off, delta, k)
         == [Beat(r, app, off + k)] + BeatsFrom(r, app, off, delta, k + HEARTBEAT_SECONDS)
  {
  }

  lemma LaidBeat(r: Reel, app: string, off: nat, delta: nat, k: nat, beats: seq<RequestEvent>)
    requires k < delta
    ensures beats + BeatsFrom(r, app, off, delta, k)
         == (beats + [Beat(r, app, off + k)]) + BeatsFrom(r, app, off, delta, k + HEARTBEAT_SECONDS)
  {
    BeatsCons(r, app, off, delta, k);
    ConcatAssociates(beats, [Beat(r, app, off + k)], BeatsFrom(r, app, off, delta, k + HEARTBEAT_SECONDS));
  }

  /** The inner loop: one app's heartbeats. */
  method LayBeats(r: Reel, app: string, off: nat, delta: nat) returns (beats: seq<RequestEvent>)
    ensures beats == BeatsFrom(r, app, off, delta, 0)
  {
    hide Beat;
    beats := [];
    var k: nat := 0;
    while k < delta
      invariant beats + BeatsFrom(r, app, off, delta, k) == BeatsFrom(r, app, off, delta, 0)
      decreases delta - k
    {
      LaidBeat(r, app, off, delta, k, beats);
      beats := beats + [Beat(r, app, off + k)];
      k := k + HEARTBEAT_SECONDS;
    }
  }

  lemma LaidPiece(r: Reel, appends: seq<Append>, i: nat, off: nat, laid: seq<RequestEvent>)
    requires i < |appends|
    ensures laid + TapeOf(r, appends[i..], off)
         == (laid + Piece(r, appends[i], off)) + TapeOf(r, appends[i + 1..], off + appends[i].delta)
  {
    assert appends[i..][0] == appends[i] && appends[i..][1..] == appends[i + 1..];
    ConcatAssociates(laid, Piece(r, appends[i], off), TapeOf(r, appends[i + 1..], off + appends[i].delta));
  }

  method Synthesize(r: Reel, appends: seq<Append>, tapeStart: nat) returns (events: seq<RequestEvent>)
    ensures events == TapeOf(r, appends, tapeStart)
  {
    events := [];
    var off: nat := tapeStart;
    ghost var all := TapeOf(r, appends, tapeStart);
    assert appends[0..] == appends;
    for i := 0 to |appends|
      invariant events + TapeOf(r, appends[i..], off) == all
    {
      LaidPiece(r, appends, i, off, events);
      var beats := LayBeats(r, appends[i].app, off, appends[i].delta);
      ConcatAssociates(events, beats, [Terminator(r, off + appends[i].delta)]);
      off := off + appends[i].delta;
      events := events + beats + [Terminator(r, off)];
    }
    assert appends[|appends|..] == [];
  }

  // ---- growing a tape ---------------------------------------------------------

  lemma TapeCons(r: Reel, a: Append, rest: seq<Append>, off: nat)
    ensures TapeOf(r, [a] + rest, off) == Piece(r, a, off) + TapeOf(r, rest, off + a.delta)
    ensures Length([a] + rest) == a.delta + Length(rest)
  {
    assert ([a] + rest)[1..] == rest;
  }

  lemma {:induction false} TapeConcat(r: Reel, a: seq<Append>, b: seq<Append>, off: nat)
    ensures TapeOf(r, a + b, off) == TapeOf(r, a, off) + TapeOf(r, b, off + Length(a))
  {
    hide Piece;
    if |a| == 0 {
      assert a + b == b;
    } else {
      var first, more := a[0], a[1..];
      assert a == [first] + more && a + b == [first] + (more + b);
      TapeCons(r, first, more, off);
      TapeCons(r, first, more + b, off);
      TapeConcat(r, more, b, off + first.delta);
      ConcatAssociates(Piece(r, first, off), TapeOf(r, more, off + first.delta), TapeOf(r, b, off + Length(a)));
    }
  }

  lemma {:induction false} TotalConcat(a: seq<Append>, b: seq<Append>, app: string)
    ensures Total(a + b, app) == Total(a, app) + Total(b, app)
    ensures Length(a + b) == Length(a) + Length(b)
  {
    if |a| == 0 {
      assert a + b == b;
    } else {
      assert (a + b)[1..] == a[1..] + b;
      TotalConcat(a[1..], b, app);
    }
  }

  /** Sequence numbers strictly increase, the stamps follow them, and they stay within bounds. */
  ghost predicate Climbs(r: Reel, s: seq<RequestEvent>, lo: int, hi: int) {
    && (forall i :: 0 <= i < |s| ==> lo <= s[i].sequence <= hi)
    && (forall i, j :: 0 <= i < j < |s| ==> s[i].sequence < s[j].sequence)
    && (forall i :: 0 <= i < |s| ==> s[i].at == (r.calendar.midnight(r.day) + s[i].sequence / 2) * NS_PER_SECOND)
  }

  lemma BeatClimbs(r: Reel, app: string, off: nat)
    ensures Climbs(r, [Beat(r, app, off)], off * 2 + 1, off * 2 + 1)
  {
  }

  lemma TerminatorClimbs(r: Reel, off: nat)
    ensures Climbs(r, [Terminator(r, off)], off * 2, off * 2)
  {
  }

  lemma ClimbsWider(r: Reel, s: seq<RequestEvent>, lo: int, hi: int, lo': int, hi': int)
    requires Climbs(r, s, lo, hi) && lo' <= lo && hi <= hi'
    ensures Climbs(r, s, lo', hi')
  {
  }

  lemma {:induction false} BeatsClimb(r: Reel, app: string, off: nat, delta: nat, k: nat)
    ensures Climbs(r, BeatsFrom(r, app, off, delta, k), (off + k) * 2 + 1, (off + delta) * 2 - 1)
    decreases delta - k
  {
    hide Beat;
    if k < delta {
      var rest := BeatsFrom(r, app, off, delta, k + HEARTBEAT_SECONDS);
      var at := (off + k) * 2 + 1;
      BeatsClimb(r, app, off, delta, k + HEARTBEAT_SECONDS);
      BeatClimbs(r, app, off + k);
      ClimbsWider(r, rest, (off + k + HEARTBEAT_SECONDS) * 2 + 1, (off + delta) * 2 - 1, at + 1, (off + delta) * 2 - 1);
      ClimbsConcat(r, [Beat(r, app, off + k)], rest, at, at, (off + delta) * 2 - 1);
      BeatsCons(r, app, off, delta, k);
    }
  }

  lemma PieceClimbs(r: Reel, a: Append, off: nat)
    requires a.delta > 0
    ensures Climbs(r, Piece(r, a, off), off * 2 + 1, (off + a.delta) * 2)
  {
    hide Beat, Terminator;
    BeatsClimb(r, a.app, off, a.delta, 0);
    TerminatorClimbs(r, off + a.delta);
    ClimbsConcat(r, BeatsFrom(r, a.app, off, a.delta, 0), [Terminator(r, off + a.delta)],
                 off * 2 + 1, (off + a.delta) * 2 - 1, (off + a.delta) * 2);
  }

  lemma ClimbsConcat(r: Reel, x: seq<RequestEvent>, y: seq<RequestEvent>, lo: int, mid: int, hi: int)
    requires Climbs(r, x, lo, mid) && Climbs(r, y, mid + 1, hi) && lo <= mid <= hi
    ensures Climbs(r, x + y, lo, hi)
  {
  }

  /** Time and sequence strictly increase along the tape. */
  lemma {:induction false} TapeClimbs(r: Reel, appends: seq<Append>, off: nat)
    requires ValidAppends(appends)
    ensures Climbs(r, TapeOf(r, appends, off), off * 2 + 1, (off + Length(appends)) * 2)
  {
    hide Piece;
    if |appends| > 0 {
      var a := appends[0];
      assert a in appends && ValidAppends(appends[1..]);
      var next := off + a.delta;
      var end := (next + Length(appends[1..])) * 2;
      assert end == (off + Length(appends)) * 2;
      PieceClimbs(r, a, off);
      TapeClimbs(r, appends[1..], next);
      ClimbsConcat(r, Piece(r, a, off), TapeOf(r, appends[1..], next), off * 2 + 1, next * 2, end);
    }
  }

  /** What an element of the tape is. */
  predicate IsBeat(r: Reel, e: RequestEvent, app: string, off: nat) { e == Beat(r, app, off) }

  lemma {:induction false} BeatsMember(r: Reel, app: string, off: nat, delta: nat, k: nat, e: RequestEvent)
    requires e in BeatsFrom(r, app, off, delta, k)
    ensures exists x: nat :: off + k <= x < off + delta && IsBeat(r, e, app, x)
    decreases delta - k
  {
    if e == Beat(r, app, off + k) {
      assert IsBeat(r, e, app, off + k);
    } else {
      BeatsMember(r, app, off, delta, k + HEARTBEAT_SECONDS, e);
    }
  }

  /** An element of the tape is a heartbeat of a valid app or a terminator. */
  ghost predicate OnTape(r: Reel, e: RequestEvent) {
    (exists app, off: nat :: ValidApp(app) && IsBeat(r, e, app, off)) || exists off: nat :: e == Terminator(r, off)
  }

  lemma {:induction false} TapeMember(r: Reel, appends: seq<Append>, off: nat, e: RequestEvent)
    requires ValidAppends(appends) && e in TapeOf(r, appends, off)
    ensures OnTape(r, e)
  {
    var a := appends[0];
    if e in BeatsFrom(r, a.app, off, a.delta, 0) {
      BeatsMember(r, a.app, off, a.delta, 0, e);
    } else if e == Terminator(r, off + a.delta) {
    } else {
      TapeMember(r, appends[1..], off + a.delta, e);
    }
  }

  /** Two elements with one id are one element, also across days. */
  lemma SameIdSameEvent(r: Reel, r': Reel, e: RequestEvent, e': RequestEvent)
    requires ValidCalendar(r.calendar) && r.calendar == r'.calendar && r.member == r'.member
    requires r.calendar.Has(r.day) && r.calendar.Has(r'.day) && OnTape(r, e) && OnTape(r', e')
             && e.eventId == e'.eventId
    ensures r == r' && e == e'
  {
    var tag, off := Origin(r, e);
    var tag', off' := Origin(r', e');
    EventNameInjective(r.member, r.calendar.iso(r.day), tag, off, r'.calendar.iso(r'.day), tag', off');
  }

  lemma Origin(r: Reel, e: RequestEvent) returns (tag: string, off: nat)
    requires OnTape(r, e)
    ensures e.eventId == EventName(r.member, r.calendar.iso(r.day), tag, off)
    ensures e == if tag == "idle" then Terminator(r, off) else Beat(r, tag, off)
    ensures tag != "idle" ==> ValidApp(tag)
  {
    if app, x: nat :| ValidApp(app) && IsBeat(r, e, app, x) {
      tag, off := app, x;
    } else {
      off :| e == Terminator(r, off);
      tag := "idle";
    }
  }

  ghost predicate AfterYearOne(r: Reel) { Stamp(r, 0) > ZERO_TIME }

  /** A calendar whose days all come after the zero time, for a member. */
  ghost predicate ValidSetting(member: string, c: Calendar) {
    ValidCalendar(c) && forall d :: c.Has(d) ==> AfterYearOne(Reel(member, c, d))
  }

  lemma OnTapeWellFormed(r: Reel, e: RequestEvent)
    requires AfterYearOne(r) && OnTape(r, e)
    ensures WellFormed(e) && Normalised(e).uuid == e.eventId == Trim(e.eventId)
    ensures Normalised(e).process == e.process && Normalised(e).at == e.at && Normalised(e).sequence == e.sequence
  {
    var tag, off := Origin(r, e);
    EventNameTrimmed(r.member, r.calendar.iso(r.day), tag, off);
    if tag != "idle" {
      TrimIdentity(tag);
    }
  }
}
