/** The batch endpoint: which requests are accepted, and what an accepted event becomes. */
module Intake {
  import opened Observations
  import opened Reports
  import opened EventStore

  const ACTIVITY_OBSERVED: string := "activity_observed"
  const MAX_BATCH: nat := 10000

  /** An event as it stands in the request body. */
  datatype RequestEvent = RequestEvent(
    eventId: string,
    kind: string,
    at: int,
    state: string,
    process: string,
    sequence: int
  )

  datatype BatchError =
    | ClientIdRequired
    | EventsRequired
    | TooManyEvents
    | EventIdRequired(index: nat)
    | EventIdDuplicated(index: nat)
    | TypeInvalid(index: nat)
    | StateInvalid(index: nat)
    | TimeRequired(index: nat)

  datatype Result<T, E> = Success(value: T) | Failure(error: E)

  predicate IsSpace(c: char) {
    var n := c as int;
    9 <= n <= 13 || n == 32 || n == 0x85 || n == 0xA0 || n == 0x1680 || 0x2000 <= n <= 0x200A
    || n == 0x2028 || n == 0x2029 || n == 0x202F || n == 0x205F || n == 0x3000
  }

  function TrimLeft(s: string): string {
    if |s| > 0 && IsSpace(s[0]) then TrimLeft(s[1..]) else s
  }

  function TrimRight(s: string): string {
    if |s| > 0 && IsSpace(s[|s| - 1]) then TrimRight(s[..|s| - 1]) else s
  }

  function Trim(s: string): string { TrimRight(TrimLeft(s)) }

  lemma TrimIdentity(s: string)
    requires |s| > 0 && !IsSpace(s[0]) && !IsSpace(s[|s| - 1])
    ensures Trim(s) == s
  {
  }

  /** The characters with the White_Space property of Unicode. */
  const WHITE: set<int> :=
    {9, 10, 11, 12, 13, 32, 0x85, 0xA0, 0x1680, 0x2000, 0x2001, 0x2002, 0x2003, 0x2004, 0x2005, 0x2006, 0x2007, 0x2008,
     0x2009, 0x200A, 0x2028, 0x2029, 0x202F, 0x205F, 0x3000}

  predicate IsWhite(c: char) { c as int in WHITE }

  lemma SpaceIsWhite(c: char)
    ensures IsSpace(c) <==> IsWhite(c)
  {
  }

  /** Nothing but white space. */
  ghost predicate Blank(s: string) {
    forall i :: 0 <= i < |s| ==> IsWhite(s[i])
  }

  lemma {:induction false} TrimLeftIs(s: string) returns (left: string)
    ensures s == left + TrimLeft(s) && Blank(left)
    ensures TrimLeft(s) != "" ==> !IsWhite(TrimLeft(s)[0])
  {
    hide IsSpace, IsWhite;
    left := "";
    if |s| > 0 {
      SpaceIsWhite(s[0]);
    }
    if |s| > 0 && IsSpace(s[0]) {
      var more := TrimLeftIs(s[1..]);
      left := [s[0]] + more;
      assert s == [s[0]] + s[1..];
    }
  }

  lemma {:induction false} TrimRightIs(s: string) returns (right: string)
    ensures s == TrimRight(s) + right && Blank(right)
    ensures TrimRight(s) != "" ==> !IsWhite(TrimRight(s)[|TrimRight(s)| - 1])
  {
    hide IsSpace, IsWhite;
    right := "";
    if |s| > 0 {
      SpaceIsWhite(s[|s| - 1]);
    }
    if |s| > 0 && IsSpace(s[|s| - 1]) {
      var more := TrimRightIs(s[..|s| - 1]);
      right := more + [s[|s| - 1]];
      assert s == s[..|s| - 1] + [s[|s| - 1]];
    }
  }

  /** Trimming takes white space away at both ends, and all of it. */
  lemma TrimIs(s: string) returns (left: string, right: string)
    ensures s == left + Trim(s) + right && Blank(left) && Blank(right)
    ensures Trim(s) != "" ==> !IsWhite(Trim(s)[0]) && !IsWhite(Trim(s)[|Trim(s)| - 1])
  {
    hide IsSpace, IsWhite;
    left := TrimLeftIs(s);
    right := TrimRightIs(TrimLeft(s));
    assert Trim(s) != "" ==> Trim(s)[0] == TrimLeft(s)[0];
    assert left + (Trim(s) + right) == left + Trim(s) + right;
  }

  function ParseState(s: string): Option<State> {
    if s == "active" then Some(Active)
    else if s == "idle" then Some(Idle)
    else if s == "locked" then Some(Locked)
    else None
  }

  /** An event that is fine on its own. */
  predicate WellFormed(e: RequestEvent) {
    Trim(e.eventId) != "" && e.kind == ACTIVITY_OBSERVED && ParseState(e.state).Some? && e.at != ZERO_TIME
  }

  ghost predicate FreshIds(events: seq<RequestEvent>) {
    forall i, j :: 0 <= i < j < |events| ==> Trim(events[i].eventId) != Trim(events[j].eventId)
  }

  ghost predicate GoodEvents(events: seq<RequestEvent>) {
    (forall e :: e in events ==> WellFormed(e)) && FreshIds(events)
  }

  ghost predicate Acceptable(clientId: string, events: seq<RequestEvent>) {
    Trim(clientId) != "" && 0 < |events| <= MAX_BATCH && GoodEvents(events)
  }

  function Normalised(e: RequestEvent): EventInput
    requires WellFormed(e)
  {
    var state, process := ParseState(e.state).value, Trim(e.process);
    EventInput(Trim(e.eventId), e.at, state,
               if state == Active && process == "" then "unknown" else process, e.sequence)
  }

  function NormalisedAll(events: seq<RequestEvent>): (r: seq<EventInput>)
    requires forall e :: e in events ==> WellFormed(e)
    ensures |r| == |events| && forall i :: 0 <= i < |r| ==> r[i] == Normalised(events[i])
  {
    seq(|events|, i requires 0 <= i < |events| => Normalised(events[i]))
  }

  /** The first event that is refused, all earlier ones being fine. */
  ghost predicate FirstBad(events: seq<RequestEvent>, i: nat) {
    i < |events| && GoodEvents(events[..i]) && !GoodEvents(events[..i + 1])
  }

  /** Another event before number i has its id. */
  ghost predicate Repeated(events: seq<RequestEvent>, i: nat)
    requires i < |events|
  {
    exists j :: 0 <= j < i && Trim(events[j].eventId) == Trim(events[i].eventId)
  }

  /** The request is refused for its client id, then for its size, and otherwise for its first bad event: for
      its id, then for its type, then for its state, and last for its time. */
  ghost predicate Explains(clientId: string, events: seq<RequestEvent>, error: BatchError) {
    if Trim(clientId) == "" then error == ClientIdRequired
    else if events == [] then error == EventsRequired
    else if |events| > 10_000 then error == TooManyEvents
    else exists i: nat :: FirstBad(events, i) && error == FaultOf(events, i)
  }

  ghost function FaultOf(events: seq<RequestEvent>, i: nat): BatchError
    requires i < |events|
  {
    var e := events[i];
    if Trim(e.eventId) == "" then EventIdRequired(i)
    else if Repeated(events, i) then EventIdDuplicated(i)
    else if e.kind != "activity_observed" then TypeInvalid(i)
    else if e.state != "active" && e.state != "idle" && e.state != "locked" then StateInvalid(i)
    else TimeRequired(i)
  }

  lemma Refused(events: seq<RequestEvent>, i: nat)
    requires i < |events| && GoodEvents(events[..i])
    requires !WellFormed(events[i]) || exists j :: 0 <= j < i && Trim(events[j].eventId) == Trim(events[i].eventId)
    ensures FirstBad(events, i) && !GoodEvents(events)
  {
    hide WellFormed, Trim;
    assert events[..i + 1][i] == events[i] && events[i] in events && events[i] in events[..i + 1];
    assert forall j :: 0 <= j < i ==> events[..i + 1][j] == events[j];
  }

  lemma OneMore(events: seq<RequestEvent>, i: nat)
    requires i < |events| && GoodEvents(events[..i]) && WellFormed(events[i])
    requires forall j :: 0 <= j < i ==> Trim(events[j].eventId) != Trim(events[i].eventId)
    ensures GoodEvents(events[..i + 1])
            && NormalisedAll(events[..i + 1]) == NormalisedAll(events[..i]) + [Normalised(events[i])]
  {
    hide WellFormed, Trim;
    assert events[..i + 1] == events[..i] + [events[i]];
  }

  method ValidateBatch(clientId: string, request: seq<RequestEvent>) returns (r: Result<seq<EventInput>, BatchError>)
    ensures r.Success? <==> Acceptable(clientId, request)
    ensures r.Success? <==>
              && Trim(clientId) != "" && 0 < |request| <= 10_000
              && (forall e :: e in request ==>
                    && Trim(e.eventId) != "" && e.kind == "activity_observed" && e.at != ZERO_TIME
                    && (e.state == "active" || e.state == "idle" || e.state == "locked"))
              && forall i, j :: 0 <= i < j < |request| ==> Trim(request[i].eventId) != Trim(request[j].eventId)
    ensures r.Success? ==> r.value == NormalisedAll(request)
    ensures r.Failure? ==> Explains(clientId, request, r.error)
  {
    hide Trim, Normalised, NormalisedAll;
    if Trim(clientId) == "" {
      return Failure(ClientIdRequired);
    }
    if |request| == 0 {
      return Failure(EventsRequired);
    }
    if |request| > MAX_BATCH {
      return Failure(TooManyEvents);
    }
    var events: seq<EventInput> := [];
    var seen: set<string> := {};
    for i := 0 to |request|
      invariant GoodEvents(request[..i]) && events == NormalisedAll(request[..i])
      invariant forall id :: id in seen <==> exists j :: 0 <= j < i && Trim(request[j].eventId) == id
    {
      var event := request[i];
      var eventId := Trim(event.eventId);
      if eventId == "" {
        Refused(request, i);
        return Failure(EventIdRequired(i));
      }
      if eventId in seen {
        Refused(request, i);
        return Failure(EventIdDuplicated(i));
      }
      seen := seen + {eventId};
      if event.kind != ACTIVITY_OBSERVED {
        Refused(request, i);
        return Failure(TypeInvalid(i));
      }
      if ParseState(event.state).None? {
        Refused(request, i);
        return Failure(StateInvalid(i));
      }
      if event.at == ZERO_TIME {
        Refused(request, i);
        return Failure(TimeRequired(i));
      }
      OneMore(request, i);
      events := events + [Normalised(event)];
    }
    assert request[..|request|] == request;
    return Success(events);
  }

  /** The row is what the server makes of the event. */
  ghost predicate RowFrom(row: Event, device: int, e: RequestEvent) {
    WellFormed(e) && row == RowOf(row.id, device, Normalised(e))
  }

  /** The row shows what was posted: the trimmed id, the time, the named state, the sequence, and for an
      active event the trimmed process, a blank one as unknown. */
  predicate ShowsEvent(row: Event, device: int, e: RequestEvent) {
    && row.uuid == Trim(e.eventId) && row.device == device && row.at == e.at && row.sequence == e.sequence
    && (row.state == Active <==> e.state == "active") && (row.state == Idle <==> e.state == "idle")
    && (row.state == Locked <==> e.state == "locked")
    && row.process == if row.state != Active then "" else if Trim(e.process) == "" then "unknown" else Trim(e.process)
  }

  lemma RowShows(row: Event, device: int, e: RequestEvent)
    requires WellFormed(e)
    ensures RowFrom(row, device, e) <==> ShowsEvent(row, device, e)
    ensures Carries(row, device, Normalised(e)) ==> ShowsEvent(row, device, e)
  {
    hide Trim;
  }

  /** The effect of one posted batch on the table. */
  ghost function Accept(rows: seq<Event>, device: int, clientId: string, request: seq<RequestEvent>): seq<Event> {
    if Acceptable(clientId, request) then InsertAll(rows, device, NormalisedAll(request)) else rows
  }
}
