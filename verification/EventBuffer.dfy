/** The client's persistent event buffer: numbering, pending batches, sent marks, purging. */
module EventBuffer {
  import opened Observations
  import opened Reports
  import opened Intake
  import opened TimeText

  const SENT_RETENTION: int := 7 * 24 * 3600 * NS_PER_SECOND
  const DEFAULT_BATCH: nat := 100

  datatype BufferRow = BufferRow(id: nat, event: RequestEvent, sentAt: Option<int>)

  /** The events table with its autoincrement counter, and the sequence counter. */
  datatype Buffer = Buffer(rows: seq<BufferRow>, lastId: nat, counter: nat)

  datatype BufferError = InvalidEventId | UnsupportedType | InvalidState | DuplicateEventId | UnreadableTime

  // ---- event ids --------------------------------------------------------------

  predicate IsHex(c: char) {
    '0' <= c <= '9' || 'a' <= c <= 'f' || 'A' <= c <= 'F'
  }

  /** The form of section 4 of RFC 9562, in which ids are generated. */
  predicate IsUuid(s: string) {
    |s| == 36 && forall i {:trigger s[i]} :: 0 <= i < 36 ==> if i in {8, 13, 18, 23} then s[i] == '-' else IsHex(s[i])
  }

  predicate IsAscii(c: char) { c as int < 128 }

  function LowerCase(c: char): char {
    if 'A' <= c <= 'Z' then (c as int + 32) as char else c
  }

  predicate IsUrn(s: string) {
    |s| == 9 && forall i :: 0 <= i < 9 ==> LowerCase(s[i]) == "urn:uuid:"[i]
  }

  /** What the UUID parser accepts, by length: the plain form, the URN form, hexadecimal digits alone,
      and the plain form between two characters it does not look at. */
  predicate IsEventId(s: string) {
    if |s| == 36 then IsUuid(s)
    else if |s| == 45 then IsUrn(s[..9]) && IsUuid(s[9..])
    else if |s| == 38 then IsAscii(s[0]) && IsUuid(s[1..37]) && IsAscii(s[37])
    else |s| == 32 && forall i :: 0 <= i < 32 ==> IsHex(s[i])
  }

  /** The id begins or ends with white space, which the server cuts off. */
  predicate Spaced(s: string) {
    |s| > 0 && (IsSpace(s[0]) || IsSpace(s[|s| - 1]))
  }

  lemma HexNoSpace(c: char)
    requires IsHex(c)
    ensures !IsSpace(c)
  {
  }

  lemma {:induction false} TrimSome(s: string, k: nat)
    requires k < |s| && !IsSpace(s[k])
    ensures Trim(s) != ""
  {
    if IsSpace(s[0]) {
      assert s[1..][k - 1] == s[k];
      TrimSome(s[1..], k - 1);
    } else {
      TrimRightSome(s, 0);
    }
  }

  lemma {:induction false} TrimRightSome(s: string, k: nat)
    requires k < |s| && !IsSpace(s[k])
    ensures TrimRight(s) != ""
  {
    if IsSpace(s[|s| - 1]) {
      TrimRightSome(s[..|s| - 1], k);
    }
  }

  lemma {:induction false} TrimShrinks(s: string)
    ensures |TrimLeft(s)| <= |s| && |TrimRight(s)| <= |s|
    ensures |s| > 0 && IsSpace(s[0]) ==> |TrimLeft(s)| < |s|
    ensures |s| > 0 && IsSpace(s[|s| - 1]) ==> |TrimRight(s)| < |s|
  {
    if |s| > 0 {
      TrimShrinks(s[1..]);
      TrimShrinks(s[..|s| - 1]);
    }
  }

  /** An accepted id is never blank, and the server keeps it as it is exactly unless white space stands
      at one of its ends, which only the form with two characters around it allows. */
  lemma EventIdTrimmed(s: string)
    requires IsEventId(s)
    ensures Trim(s) != ""
    ensures Trim(s) == s <==> !Spaced(s)
    ensures Spaced(s) ==> |s| == 38
  {
    TrimShrinks(s);
    TrimShrinks(TrimLeft(s));
    if |s| == 38 {
      assert s[1..37][0] == s[1];
      HexNoSpace(s[1]);
      TrimSome(s, 1);
    } else if |s| == 45 {
      assert s[..9][0] == s[0] && s[9..][35] == s[44];
    }
    if !Spaced(s) {
      TrimIdentity(s);
    }
  }

  /** A plain id with a blank on either side is accepted too, as another text for the same id. */
  lemma PaddedId(u: string)
    requires IsUuid(u)
    ensures IsEventId(u) && IsEventId(" " + u + " ") && Trim(u) == u == Trim(" " + u + " ")
  {
    var p := " " + u + " ";
    assert p[1..37] == u && p[0] == ' ' && p[37] == ' ';
    TrimIdentity(u);
    assert p[1..] == u + " " && TrimLeft(p) == TrimLeft(u + " ") == u + " ";
    assert (u + " ")[..36] == u;
  }

  /** The plain form, the URN form in either case, and the plain form in braces are accepted; no text of
      another length than theirs and 32 is. */
  lemma AcceptedForms(u: string, s: string)
    requires IsUuid(u)
    ensures IsEventId(u) && IsEventId("urn:uuid:" + u) && IsEventId("URN:UUID:" + u) && IsEventId("{" + u + "}")
    ensures IsEventId(s) ==> |s| == 32 || |s| == 36 || |s| == 38 || |s| == 45
  {
    assert ("urn:uuid:" + u)[..9] == "urn:uuid:" && ("urn:uuid:" + u)[9..] == u;
    assert ("URN:UUID:" + u)[..9] == "URN:UUID:" && ("URN:UUID:" + u)[9..] == u;
    var b := "{" + u + "}";
    assert b[1..37] == u && b[0] == '{' && b[37] == '}';
  }

  function NormalizeEvent(e: RequestEvent, newId: string, now: int): Result<RequestEvent, BufferError> {
    if e.eventId != "" && !IsEventId(e.eventId) then Failure(InvalidEventId)
    else if e.kind != "" && e.kind != ACTIVITY_OBSERVED then Failure(UnsupportedType)
    else if ParseState(e.state).None? then Failure(InvalidState)
    else Success(e.(eventId := if e.eventId == "" then newId else e.eventId,
                    kind := ACTIVITY_OBSERVED,
                    at := if e.at == ZERO_TIME then now else e.at,
                    process := if e.state == "active" then e.process else ""))
  }

  /** What may be posted to the buffer. */
  predicate Postable(e: RequestEvent) {
    && (e.eventId == "" || IsEventId(e.eventId)) && (e.kind == "" || e.kind == "activity_observed")
    && (e.state == "active" || e.state == "idle" || e.state == "locked")
  }

  /** What is kept of it: its own id, or the new one if it has none, its own time, or now if it has none, its
      state, and its process if it is active. */
  predicate KeptAs(posted: RequestEvent, kept: RequestEvent, newId: string, now: int) {
    && kept.eventId == (if posted.eventId == "" then newId else posted.eventId)
    && kept.kind == "activity_observed" && kept.state == posted.state
    && (posted.at != ZERO_TIME ==> kept.at == posted.at) && (posted.at == ZERO_TIME ==> kept.at == now)
    && (posted.state == "active" ==> kept.process == posted.process)
    && (posted.state != "active" ==> kept.process == "")
  }

  lemma NormalizedKeeps(e: RequestEvent, newId: string, now: int)
    ensures NormalizeEvent(e, newId, now).Success? <==> Postable(e)
    ensures Postable(e) ==> KeptAs(e, NormalizeEvent(e, newId, now).value, newId, now)
    ensures !Postable(e) ==>
              NormalizeEvent(e, newId, now).error
              == if e.eventId != "" && !IsEventId(e.eventId) then InvalidEventId
                 else if e.kind != "" && e.kind != "activity_observed" then UnsupportedType
                 else InvalidState
  {
  }

  // ---- the table --------------------------------------------------------------

  /** What the buffer keeps of every event: on its own fit for the server. */
  ghost predicate Queueable(e: RequestEvent) {
    WellFormed(e) && IsEventId(e.eventId) && (e.state != "active" ==> e.process == "")
  }

  lemma NormalizedQueueable(e: RequestEvent, newId: string, now: int)
    requires IsUuid(newId) && now != ZERO_TIME && NormalizeEvent(e, newId, now).Success?
    ensures Queueable(NormalizeEvent(e, newId, now).value)
  {
    EventIdTrimmed(NormalizeEvent(e, newId, now).value.eventId);
  }

  predicate Holds(b: Buffer, eventId: string) {
    exists i :: 0 <= i < |b.rows| && b.rows[i].event.eventId == eventId
  }

  /** Row ids and sequences grow together, sequences stay within the counter, ids are unique. */
  ghost predicate ValidBuffer(b: Buffer) {
    RowsInOrder(b.rows) && forall r :: r in b.rows ==> ValidRow(b, r)
  }

  ghost predicate ValidRow(b: Buffer, r: BufferRow) {
    r.id <= b.lastId && 1 <= r.event.sequence <= b.counter && Queueable(r.event)
  }

  predicate RowLess(a: BufferRow, b: BufferRow) {
    a.id < b.id && a.event.sequence < b.event.sequence && a.event.eventId != b.event.eventId
  }

  ghost predicate RowsInOrder(rows: seq<BufferRow>) {
    forall i, j :: 0 <= i < j < |rows| ==> RowLess(rows[i], rows[j])
  }

  /** One transaction: the sequence and the row are both kept or both rolled back. */
  function Enqueued(b: Buffer, e: RequestEvent): Buffer {
    Buffer(b.rows + [BufferRow(b.lastId + 1, e.(sequence := b.counter + 1), None)], b.lastId + 1, b.counter + 1)
  }

  function Unsent(rows: seq<BufferRow>): seq<RequestEvent> {
    if |rows| == 0 then []
    else
      var front, r := Unsent(rows[..|rows| - 1]), rows[|rows| - 1];
      if r.sentAt.None? then front + [r.event] else front
  }

  function BatchSize(limit: int): nat {
    if limit <= 0 then DEFAULT_BATCH else limit
  }

  function PendingOf(b: Buffer, limit: int): seq<RequestEvent> {
    var unsent := Unsent(b.rows);
    unsent[..Min(|unsent|, BatchSize(limit))]
  }

  /** Times are kept as text, which can be read back for the years 0 to 9999. */
  ghost predicate Readable(batch: seq<RequestEvent>) {
    forall e :: e in batch ==> InRange(e.at)
  }

  function MarkRow(r: BufferRow, eventIds: seq<string>, now: int): BufferRow {
    if r.event.eventId != "" && r.event.eventId in eventIds then r.(sentAt := Some(now)) else r
  }

  function MarkRows(rows: seq<BufferRow>, eventIds: seq<string>, now: int): seq<BufferRow> {
    if |rows| == 0 then []
    else MarkRows(rows[..|rows| - 1], eventIds, now) + [MarkRow(rows[|rows| - 1], eventIds, now)]
  }

  /** Sent rows past retention are dropped. */
  function Purged(rows: seq<BufferRow>, cutoff: int): seq<BufferRow> {
    if |rows| == 0 then []
    else
      var front, r := Purged(rows[..|rows| - 1], cutoff), rows[|rows| - 1];
      if r.sentAt.Some? && r.sentAt.value < cutoff then front else front + [r]
  }

  function Marked(b: Buffer, eventIds: seq<string>, now: int): Buffer {
    if |eventIds| == 0 then b
    else b.(rows := Purged(MarkRows(b.rows, eventIds, now), now - SENT_RETENTION))
  }

  lemma {:induction false} UnsentElements(rows: seq<BufferRow>)
    ensures forall e :: e in Unsent(rows) <==> exists i :: 0 <= i < |rows| && rows[i].sentAt.None? && rows[i].event == e
  {
    if |rows| > 0 {
      var front := rows[..|rows| - 1];
      UnsentElements(front);
      assert forall i :: 0 <= i < |front| ==> front[i] == rows[i];
    }
  }

  ghost predicate InEnqueueOrder(s: seq<RequestEvent>) {
    forall i, j :: 0 <= i < j < |s| ==> s[i].sequence < s[j].sequence && s[i].eventId != s[j].eventId
  }

  /** Pending events come in order of enqueueing and never twice. */
  lemma {:induction false} UnsentIncreasing(rows: seq<BufferRow>)
    requires RowsInOrder(rows)
    ensures InEnqueueOrder(Unsent(rows))
  {
    if |rows| > 0 {
      var front, last := rows[..|rows| - 1], rows[|rows| - 1];
      UnsentIncreasing(front);
      UnsentElements(front);
      var u := Unsent(front);
      forall i | 0 <= i < |u| ensures u[i].sequence < last.event.sequence && u[i].eventId != last.event.eventId {
        assert u[i] in u;
        var k :| 0 <= k < |front| && front[k].sentAt.None? && front[k].event == u[i];
        assert RowLess(rows[k], rows[|rows| - 1]);
      }
    }
  }

  lemma {:induction false} MarkRowsAt(rows: seq<BufferRow>, eventIds: seq<string>, now: int)
    ensures |MarkRows(rows, eventIds, now)| == |rows|
    ensures forall i :: 0 <= i < |rows| ==> MarkRows(rows, eventIds, now)[i] == MarkRow(rows[i], eventIds, now)
  {
    if |rows| > 0 {
      MarkRowsAt(rows[..|rows| - 1], eventIds, now);
    }
  }

  /** Purging keeps exactly the rows that are unsent or recent. */
  lemma {:induction false} PurgedKeeps(rows: seq<BufferRow>, cutoff: int)
    ensures forall r :: r in Purged(rows, cutoff) <==> r in rows && !(r.sentAt.Some? && r.sentAt.value < cutoff)
  {
    if |rows| > 0 {
      assert rows == rows[..|rows| - 1] + [rows[|rows| - 1]];
      PurgedKeeps(rows[..|rows| - 1], cutoff);
    }
  }

  /** The row as it is once these ids are marked. */
  predicate MarkedAs(r: BufferRow, r': BufferRow, eventIds: seq<string>, now: int) {
    && r'.id == r.id && r'.event == r.event
    && r'.sentAt == if r.event.eventId != "" && r.event.eventId in eventIds then Some(now) else r.sentAt
  }

  ghost predicate MarkedFrom(r': BufferRow, rows: seq<BufferRow>, eventIds: seq<string>, now: int) {
    exists r :: r in rows && MarkedAs(r, r', eventIds, now)
  }

  /** Of any ids, all their rows are marked and then those sent more than seven days ago go; without ids
      nothing happens. */
  lemma MarkedExactly(b: Buffer, eventIds: seq<string>, now: int)
    ensures eventIds == [] ==> Marked(b, eventIds, now) == b
    ensures eventIds != [] ==>
              && Marked(b, eventIds, now).lastId == b.lastId && Marked(b, eventIds, now).counter == b.counter
              && forall r :: r in Marked(b, eventIds, now).rows
                        <==> MarkedFrom(r, b.rows, eventIds, now)
                             && (r.sentAt.None? || r.sentAt.value >= now - 604_800 * NS_PER_SECOND)
  {
    var marked := MarkRows(b.rows, eventIds, now);
    MarkRowsAt(b.rows, eventIds, now);
    PurgedKeeps(marked, now - SENT_RETENTION);
    forall r ensures r in marked <==> MarkedFrom(r, b.rows, eventIds, now) {
      if r in marked {
        var i :| 0 <= i < |marked| && marked[i] == r;
        assert MarkedAs(b.rows[i], r, eventIds, now);
      }
      if MarkedFrom(r, b.rows, eventIds, now) {
        var q :| q in b.rows && MarkedAs(q, r, eventIds, now);
        var i :| 0 <= i < |b.rows| && b.rows[i] == q;
        assert marked[i] == r;
      }
    }
  }

  lemma {:induction false} PurgedInOrder(rows: seq<BufferRow>, cutoff: int)
    requires RowsInOrder(rows)
    ensures RowsInOrder(Purged(rows, cutoff))
  {
    if |rows| > 0 {
      var front, last := rows[..|rows| - 1], rows[|rows| - 1];
      PurgedInOrder(front, cutoff);
      PurgedKeeps(front, cutoff);
      var kept := Purged(front, cutoff);
      forall i | 0 <= i < |kept| ensures RowLess(kept[i], last) {
        assert kept[i] in front;
        var k :| 0 <= k < |front| && front[k] == kept[i];
        assert RowLess(rows[k], rows[|rows| - 1]);
      }
    }
  }

  lemma MarkedInOrder(rows: seq<BufferRow>, eventIds: seq<string>, now: int)
    requires RowsInOrder(rows)
    ensures RowsInOrder(MarkRows(rows, eventIds, now))
  {
    var marked := MarkRows(rows, eventIds, now);
    MarkRowsAt(rows, eventIds, now);
    forall i, j | 0 <= i < j < |marked| ensures RowLess(marked[i], marked[j]) {
      assert RowLess(rows[i], rows[j]);
    }
  }

  lemma MarkedRowsValid(b: Buffer, eventIds: seq<string>, now: int)
    requires forall r :: r in b.rows ==> ValidRow(b, r)
    ensures forall r :: r in MarkRows(b.rows, eventIds, now) ==> ValidRow(b, r)
  {
    hide Queueable;
    var marked := MarkRows(b.rows, eventIds, now);
    MarkRowsAt(b.rows, eventIds, now);
    forall r | r in marked ensures ValidRow(b, r) {
      var i :| 0 <= i < |marked| && marked[i] == r;
      assert ValidRow(b, b.rows[i]);
    }
  }

  lemma MarkedValid(b: Buffer, eventIds: seq<string>, now: int)
    requires ValidBuffer(b)
    ensures ValidBuffer(Marked(b, eventIds, now))
  {
    hide RowsInOrder, MarkRows, Purged, Queueable;
    MarkedInOrder(b.rows, eventIds, now);
    MarkedRowsValid(b, eventIds, now);
    PurgedInOrder(MarkRows(b.rows, eventIds, now), now - SENT_RETENTION);
    PurgedKeeps(MarkRows(b.rows, eventIds, now), now - SENT_RETENTION);
  }

  lemma {:induction false} UnsentPrefix(rows: seq<BufferRow>, i: nat)
    requires i <= |rows|
    ensures Unsent(rows[..i]) <= Unsent(rows)
  {
    if i < |rows| {
      assert rows[..|rows| - 1][..i] == rows[..i];
      UnsentPrefix(rows[..|rows| - 1], i);
    } else {
      assert rows[..i] == rows;
    }
  }

  lemma PendingReached(b: Buffer, i: nat, limit: int)
    requires i <= |b.rows| && |Unsent(b.rows[..i])| <= BatchSize(limit)
    requires i == |b.rows| || |Unsent(b.rows[..i])| == BatchSize(limit)
    ensures PendingOf(b, limit) == Unsent(b.rows[..i])
  {
    UnsentPrefix(b.rows, i);
    assert b.rows[..|b.rows|] == b.rows;
  }

  lemma PendingMember(b: Buffer, i: nat, limit: int)
    requires i < |b.rows| && b.rows[i].sentAt.None? && |Unsent(b.rows[..i])| < BatchSize(limit)
    ensures b.rows[i].event in PendingOf(b, limit)
  {
    var u := Unsent(b.rows[..i]);
    UnsentPrefix(b.rows, i + 1);
    assert b.rows[..i + 1][..i] == b.rows[..i];
    assert Unsent(b.rows)[|u|] == b.rows[i].event && PendingOf(b, limit)[|u|] == Unsent(b.rows)[|u|];
  }

  class EventBuffer {
    var rows: seq<BufferRow>
    var lastId: nat
    var counter: nat

    function State(): Buffer reads this { Buffer(rows, lastId, counter) }

    ghost predicate Valid() reads this { ValidBuffer(State()) }

    constructor ()
      ensures Valid() && State() == Buffer([], 0, 0)
    {
      rows, lastId, counter := [], 0, 0;
    }

    method Enqueue(event: RequestEvent, newId: string, now: int) returns (r: Result<RequestEvent, BufferError>)
      requires Valid() && IsUuid(newId) && now != ZERO_TIME
      modifies this
      ensures Valid()
      ensures r.Success? <==> Postable(event)
                              && !Holds(old(State()), if event.eventId == "" then newId else event.eventId)
      ensures r.Success? ==> KeptAs(event, r.value, newId, now) && r.value.sequence == old(counter) + 1
      ensures r.Success? ==> State() == Buffer(old(rows) + [BufferRow(old(lastId) + 1, r.value, None)],
                                               old(lastId) + 1, old(counter) + 1)
      ensures r.Failure? ==>
                && State() == old(State())
                && r.error == if event.eventId != "" && !IsEventId(event.eventId) then InvalidEventId
                              else if event.kind != "" && event.kind != "activity_observed" then UnsupportedType
                              else if !Postable(event) then InvalidState
                              else DuplicateEventId
    {
      hide NormalizeEvent, IsEventId, IsUuid;
      NormalizedKeeps(event, newId, now);
      var normalised := NormalizeEvent(event, newId, now);
      if normalised.Failure? {
        return normalised;
      }
      NormalizedQueueable(event, newId, now);
      var before := State();
      // the transaction begins
      counter := counter + 1;
      var queued := normalised.value.(sequence := counter);
      if Holds(before, queued.eventId) {
        // the insert violates the unique id: rolled back with the counter
        counter := counter - 1;
        return Failure(DuplicateEventId);
      }
      lastId := lastId + 1;
      forall i | 0 <= i < |rows| ensures RowLess(rows[i], BufferRow(lastId, queued, None)) {
        assert ValidRow(before, rows[i]);
      }
      rows := rows + [BufferRow(lastId, queued, None)];
      return Success(queued);
    }

    method Pending(limit: int) returns (r: Result<seq<RequestEvent>, BufferError>)
      requires Valid()
      ensures r.Success? <==> Readable(PendingOf(State(), limit))
      ensures r == if r.Success? then Success(PendingOf(State(), limit)) else Failure(UnreadableTime)
    {
      hide InRange;
      var n := BatchSize(limit);
      var events: seq<RequestEvent> := [];
      var i := 0;
      while i < |rows| && |events| < n
        invariant 0 <= i <= |rows| && |events| <= n && events == Unsent(rows[..i]) && Readable(events)
      {
        assert rows[..i + 1][..i] == rows[..i];
        if rows[i].sentAt.None? {
          if !InRange(rows[i].event.at) {
            PendingMember(State(), i, limit);
            return Failure(UnreadableTime);
          }
          events := events + [rows[i].event];
        }
        i := i + 1;
      }
      PendingReached(State(), i, limit);
      return Success(events);
    }

    method MarkSent(eventIds: seq<string>, now: int)
      requires Valid()
      modifies this
      ensures Valid() && State() == Marked(old(State()), eventIds, now)
    {
      MarkedValid(State(), eventIds, now);
      if |eventIds| == 0 {
        return;
      }
      var marked: seq<BufferRow> := [];
      for i := 0 to |rows|
        invariant rows == old(rows) && lastId == old(lastId) && counter == old(counter)
        invariant marked == MarkRows(rows[..i], eventIds, now)
      {
        assert rows[..i + 1][..i] == rows[..i];
        marked := marked + [MarkRow(rows[i], eventIds, now)];
      }
      assert rows[..|rows|] == rows;
      rows := Purged(marked, now - SENT_RETENTION);
    }
  }

  lemma PendingQueueable(b: Buffer, limit: int)
    requires ValidBuffer(b)
    ensures forall e :: e in PendingOf(b, limit) ==> Queueable(e)
  {
    UnsentElements(b.rows);
    forall e | e in PendingOf(b, limit) ensures Queueable(e) {
      assert e in Unsent(b.rows);
      var i :| 0 <= i < |b.rows| && b.rows[i].sentAt.None? && b.rows[i].event == e;
      assert ValidRow(b, b.rows[i]);
    }
  }

  /** A batch from a buffer filled only by Enqueue is refused for its size, a blank client id, or two ids
      that differ in outer white space only, and for nothing else. */
  lemma NoPoisonBatch(b: Buffer, limit: int, clientId: string)
    requires ValidBuffer(b)
    ensures Acceptable(clientId, PendingOf(b, limit))
       <==> (Trim(clientId) != "" && 0 < |PendingOf(b, limit)| <= 10_000 && FreshIds(PendingOf(b, limit)))
    ensures var batch := PendingOf(b, limit);
            forall i, j :: 0 <= i < j < |batch| ==> batch[i].sequence < batch[j].sequence
  {
    UnsentIncreasing(b.rows);
    PendingQueueable(b, limit);
  }

  /** So where no id carries outer white space, as none that was generated does, no batch of a proper
      size is ever refused. */
  lemma PlainBatchAccepted(b: Buffer, limit: int, clientId: string)
    requires ValidBuffer(b) && forall r :: r in b.rows ==> !Spaced(r.event.eventId)
    ensures Acceptable(clientId, PendingOf(b, limit))
       <==> (Trim(clientId) != "" && 0 < |PendingOf(b, limit)| <= MAX_BATCH)
  {
    hide Trim, IsEventId, Spaced;
    var batch := PendingOf(b, limit);
    NoPoisonBatch(b, limit, clientId);
    UnsentIncreasing(b.rows);
    UnsentElements(b.rows);
    forall i | 0 <= i < |batch| ensures Trim(batch[i].eventId) == batch[i].eventId {
      assert batch[i] == Unsent(b.rows)[i] && batch[i] in Unsent(b.rows);
      var k :| 0 <= k < |b.rows| && b.rows[k].sentAt.None? && b.rows[k].event == batch[i];
      assert b.rows[k] in b.rows && ValidRow(b, b.rows[k]);
      EventIdTrimmed(batch[i].eventId);
    }
  }

  lemma UuidPlain(u: string)
    requires IsUuid(u)
    ensures !Spaced(u) && Trim(u) == u
  {
    PaddedId(u);
    EventIdTrimmed(u);
  }
}
