/** Delivery from the client's buffer to the server: batches are posted, retried, possibly
    delivered many times and late, acknowledgements get lost, the client crashes anywhere,
    and an event is marked sent only after an acknowledged post. */
module Delivery {
  import opened Observations
  import opened Reports
  import opened EventStore
  import opened Intake
  import opened AgentEmission
  import opened EventBuffer

  /** Where the uploader stands. */
  datatype Phase = Ready | Posting(batch: seq<RequestEvent>) | Acked(batch: seq<RequestEvent>)

  /** The buffer and the server's table; every event ever enqueued; every batch ever put on
      the wire; and every batch the server has answered with success. */
  datatype World = World(
    buffer: Buffer,
    server: seq<Event>,
    enqueued: seq<RequestEvent>,
    wire: set<seq<RequestEvent>>,
    answered: set<seq<RequestEvent>>,
    phase: Phase
  )

  datatype Setting = Setting(device: int, clientId: string)

  datatype Step =
    | Enqueue(event: RequestEvent, newId: string, now: int)
    | StartUpload(limit: int)
    | Deliver(batch: seq<RequestEvent>)
    | Acknowledge
    | LoseAck
    | MarkBatch(now: int)
    | Crash

  function IdsOf(batch: seq<RequestEvent>): seq<string> {
    seq(|batch|, i requires 0 <= i < |batch| => batch[i].eventId)
  }

  ghost predicate Enabled(w: World, step: Step) {
    match step
    case Enqueue(event, newId, now) =>
      && IsUuid(newId) && now != ZERO_TIME && NormalizeEvent(event, newId, now).Success?
      && !Holds(w.buffer, NormalizeEvent(event, newId, now).value.eventId)
    case StartUpload(limit) =>
      w.phase == Ready && PendingOf(w.buffer, limit) != [] && Readable(PendingOf(w.buffer, limit))
    case Deliver(batch) => batch in w.wire
    case Acknowledge => w.phase.Posting? && w.phase.batch in w.answered
    case LoseAck => w.phase.Posting?
    case MarkBatch(now) => w.phase.Acked?
    case Crash => true
  }

  ghost function Next(s: Setting, w: World, step: Step): World
    requires Enabled(w, step)
  {
    match step
    case Enqueue(event, newId, now) =>
      var e := NormalizeEvent(event, newId, now).value;
      w.(buffer := Enqueued(w.buffer, e), enqueued := w.enqueued + [e.(sequence := w.buffer.counter + 1)])
    case StartUpload(limit) =>
      var batch := PendingOf(w.buffer, limit);
      w.(phase := Posting(batch), wire := w.wire + {batch})
    case Deliver(batch) =>
      w.(server := Accept(w.server, s.device, s.clientId, batch),
         answered := if Acceptable(s.clientId, batch) then w.answered + {batch} else w.answered)
    case Acknowledge => w.(phase := Acked(w.phase.batch))
    case LoseAck => w.(phase := Ready)
    case MarkBatch(now) => w.(buffer := Marked(w.buffer, IdsOf(w.phase.batch), now), phase := Ready)
    case Crash => w.(phase := Ready)
  }

  const INITIAL: World := World(Buffer([], 0, 0), [], [], {}, {}, Ready)

  ghost predicate IsRun(s: Setting, worlds: seq<World>, steps: seq<Step>) {
    && |worlds| == |steps| + 1 && worlds[0] == INITIAL
    && forall i :: 0 <= i < |steps| ==> Enabled(worlds[i], steps[i]) && worlds[i + 1] == Next(s, worlds[i], steps[i])
  }

  // ---- what every step keeps --------------------------------------------------

  ghost predicate Waiting(b: Buffer, e: RequestEvent) {
    e in Unsent(b.rows)
  }

  /** Everything enqueued is numbered 1, 2, 3, .. and on its own fit for the server. */
  ghost predicate GoodHistory(w: World) {
    && w.buffer.counter == |w.enqueued|
    && (forall i :: 0 <= i < |w.enqueued| ==> w.enqueued[i].sequence == i + 1 && Queueable(w.enqueued[i]))
  }

  /** The server holds the id of the event. */
  predicate Covered(server: seq<Event>, e: RequestEvent) {
    Known(server, Trim(e.eventId))
  }

  ghost predicate AllCovered(server: seq<Event>, batch: seq<RequestEvent>) {
    forall e :: e in batch ==> Covered(server, e)
  }

  ghost predicate Stored(server: seq<Event>, device: int, e: RequestEvent) {
    exists i :: 0 <= i < |server| && RowFrom(server[i], device, e)
  }

  ghost predicate FromHistory(row: Event, enqueued: seq<RequestEvent>, device: int) {
    exists e :: e in enqueued && RowFrom(row, device, e)
  }

  ghost predicate AllFromHistory(server: seq<Event>, enqueued: seq<RequestEvent>, device: int) {
    forall row {:trigger FromHistory(row, enqueued, device)} :: row in server ==> FromHistory(row, enqueued, device)
  }

  ghost predicate GoodBatch(enqueued: seq<RequestEvent>, batch: seq<RequestEvent>) {
    forall e :: e in batch ==> e in enqueued
  }

  ghost predicate Safe(s: Setting, w: World) {
    && ValidBuffer(w.buffer) && GoodHistory(w) && ValidRows(w.server)
    && (forall r :: r in w.buffer.rows ==> r.event in w.enqueued)
    && (forall r :: r in w.buffer.rows && r.sentAt.Some? ==> Covered(w.server, r.event))
    && (forall e :: e in w.enqueued ==> Waiting(w.buffer, e) || Covered(w.server, e))
    && AllFromHistory(w.server, w.enqueued, s.device)
    && (forall batch :: batch in w.wire ==> GoodBatch(w.enqueued, batch))
    && (forall batch :: batch in w.answered ==> AllCovered(w.server, batch) && Acceptable(s.clientId, batch))
    && (w.phase.Posting? ==> w.phase.batch in w.wire)
    && (w.phase.Acked? ==> w.phase.batch in w.wire && AllCovered(w.server, w.phase.batch))
  }

  lemma SafeEnqueue(s: Setting, w: World, step: Step)
    requires Safe(s, w) && step.Enqueue? && Enabled(w, step)
    ensures Safe(s, Next(s, w, step))
  {
    hide Trim, IsUuid, IsEventId, Acceptable;
    var e := NormalizeEvent(step.event, step.newId, step.now).value;
    var w' := Next(s, w, step);
    var added := e.(sequence := w.buffer.counter + 1);
    var row := BufferRow(w.buffer.lastId + 1, added, None);
    NormalizedQueueable(step.event, step.newId, step.now);
    assert w'.buffer.rows == w.buffer.rows + [row];
    assert w'.buffer.rows[..|w'.buffer.rows| - 1] == w.buffer.rows;
    forall r | r in w.buffer.rows ensures RowLess(r, row) && ValidRow(w'.buffer, r) {
      assert ValidRow(w.buffer, r);
    }
    forall r | r in w'.server ensures FromHistory(r, w'.enqueued, s.device) {
      assert FromHistory(r, w.enqueued, s.device);
      var x :| x in w.enqueued && RowFrom(r, s.device, x);
      assert x in w'.enqueued;
    }
    forall batch | batch in w'.wire ensures GoodBatch(w'.enqueued, batch) {
      assert GoodBatch(w.enqueued, batch);
    }
  }

  lemma SafeStart(s: Setting, w: World, step: Step)
    requires Safe(s, w) && step.StartUpload? && Enabled(w, step)
    ensures Safe(s, Next(s, w, step))
  {
    var batch := PendingOf(w.buffer, step.limit);
    var w' := Next(s, w, step);
    UnsentElements(w.buffer.rows);
    forall e | e in batch ensures e in w.enqueued {
      assert e in Unsent(w.buffer.rows);
    }
    assert GoodBatch(w'.enqueued, batch);
  }

  lemma KnownStays(server: seq<Event>, server': seq<Event>, uuid: string)
    requires Known(server, uuid) && server <= server'
    ensures Known(server', uuid)
  {
    var i :| 0 <= i < |server| && server[i].uuid == uuid;
    assert server'[i] == server[i];
  }

  /** Inserting events of the history brings nothing foreign into the table. */
  lemma {:induction false} InsertFromHistory(s: Setting, w: World, server: seq<Event>, batch: seq<RequestEvent>)
    requires forall e :: e in batch ==> e in w.enqueued && WellFormed(e)
    requires AllFromHistory(server, w.enqueued, s.device)
    ensures AllFromHistory(InsertAll(server, s.device, NormalisedAll(batch)), w.enqueued, s.device)
  {
    if |batch| > 0 {
      var front, e := batch[..|batch| - 1], batch[|batch| - 1];
      assert batch == front + [e];
      InsertFromHistory(s, w, server, front);
      assert NormalisedAll(batch)[..|batch| - 1] == NormalisedAll(front);
      var before := InsertAll(server, s.device, NormalisedAll(front));
      var row := RowOf(|before| + 1, s.device, Normalised(e));
      assert RowFrom(row, s.device, e);
      assert FromHistory(row, w.enqueued, s.device);
    }
  }

  /** An accepted batch is held afterwards, id by id. */
  lemma BatchCovered(server: seq<Event>, device: int, batch: seq<RequestEvent>)
    requires ValidRows(server) && forall e :: e in batch ==> WellFormed(e)
    ensures var server' := InsertAll(server, device, NormalisedAll(batch));
            ValidRows(server') && AllCovered(server', batch)
  {
    InsertAllValid(server, device, NormalisedAll(batch));
    forall e | e in batch ensures Covered(InsertAll(server, device, NormalisedAll(batch)), e) {
      var k :| 0 <= k < |batch| && batch[k] == e;
      assert NormalisedAll(batch)[k].uuid == Trim(e.eventId);
    }
  }

  lemma SafeDeliver(s: Setting, w: World, step: Step)
    requires Safe(s, w) && step.Deliver? && Enabled(w, step)
    ensures Safe(s, Next(s, w, step))
  {
    hide Trim;
    var batch := step.batch;
    assert GoodBatch(w.enqueued, batch);
    if Acceptable(s.clientId, batch) {
      var w' := Next(s, w, step);
      BatchCovered(w.server, s.device, batch);
      InsertFromHistory(s, w, w.server, batch);
      forall e | Covered(w.server, e) ensures Covered(w'.server, e) {
        KnownStays(w.server, w'.server, Trim(e.eventId));
      }
    }
  }

  /** Every row marked for an acknowledged batch is held by the server; marking forgets nothing else. */
  lemma MarkedRows(s: Setting, w: World, batch: seq<RequestEvent>, now: int)
    requires Safe(s, w) && AllCovered(w.server, batch)
    ensures forall r :: r in MarkRows(w.buffer.rows, IdsOf(batch), now) ==>
              r.event in w.enqueued && (r.sentAt.Some? ==> Covered(w.server, r.event))
    ensures forall r :: r in w.buffer.rows && !Covered(w.server, r.event) ==>
              r in MarkRows(w.buffer.rows, IdsOf(batch), now)
  {
    hide Trim, Acceptable;
    var ids := IdsOf(batch);
    var marked := MarkRows(w.buffer.rows, ids, now);
    MarkRowsAt(w.buffer.rows, ids, now);
    forall i | 0 <= i < |marked|
      ensures marked[i].event in w.enqueued && (marked[i].sentAt.Some? ==> Covered(w.server, marked[i].event))
      ensures Covered(w.server, w.buffer.rows[i].event) || marked[i] == w.buffer.rows[i]
    {
      var e := w.buffer.rows[i].event;
      assert w.buffer.rows[i] in w.buffer.rows;
      if e.eventId in ids {
        var k :| 0 <= k < |ids| && ids[k] == e.eventId;
        assert batch[k] in batch && Covered(w.server, batch[k]);
      }
    }
    forall r | r in w.buffer.rows && !Covered(w.server, r.event) ensures r in marked {
      var i :| 0 <= i < |w.buffer.rows| && w.buffer.rows[i] == r;
      assert marked[i] == r;
    }
  }

  lemma SafeBuffer(s: Setting, w: World, b: Buffer)
    requires Safe(s, w) && ValidBuffer(b) && b.counter == w.buffer.counter
    requires forall r :: r in b.rows ==> r.event in w.enqueued && (r.sentAt.Some? ==> Covered(w.server, r.event))
    requires forall e :: e in w.enqueued ==> Waiting(b, e) || Covered(w.server, e)
    ensures Safe(s, w.(buffer := b, phase := Ready))
  {
  }

  lemma MarkedBuffer(s: Setting, w: World, batch: seq<RequestEvent>, now: int)
    requires Safe(s, w) && AllCovered(w.server, batch)
    ensures var b := Marked(w.buffer, IdsOf(batch), now);
            && ValidBuffer(b) && b.counter == w.buffer.counter
            && (forall r :: r in b.rows ==> r.event in w.enqueued && (r.sentAt.Some? ==> Covered(w.server, r.event)))
            && (forall r :: r in w.buffer.rows && r.sentAt.None? && !Covered(w.server, r.event) ==> r in b.rows)
  {
    hide Trim, Acceptable;
    MarkedValid(w.buffer, IdsOf(batch), now);
    MarkedRows(s, w, batch, now);
    PurgedKeeps(MarkRows(w.buffer.rows, IdsOf(batch), now), now - SENT_RETENTION);
  }

  lemma SafeMark(s: Setting, w: World, step: Step)
    requires Safe(s, w) && step.MarkBatch? && Enabled(w, step)
    ensures Safe(s, Next(s, w, step))
  {
    hide Trim, Acceptable;
    var b := Marked(w.buffer, IdsOf(w.phase.batch), step.now);
    MarkedBuffer(s, w, w.phase.batch, step.now);
    forall e | e in w.enqueued ensures Waiting(b, e) || Covered(w.server, e) {
      if !Covered(w.server, e) {
        StillWaiting(w, b, e);
      }
    }
    SafeBuffer(s, w, b);
  }

  lemma StillWaiting(w: World, b: Buffer, e: RequestEvent)
    requires Waiting(w.buffer, e) && !Covered(w.server, e)
    requires forall r :: r in w.buffer.rows && r.sentAt.None? && !Covered(w.server, r.event) ==> r in b.rows
    ensures Waiting(b, e)
  {
    hide Covered;
    UnsentElements(w.buffer.rows);
    UnsentElements(b.rows);
    var i :| 0 <= i < |w.buffer.rows| && w.buffer.rows[i].sentAt.None? && w.buffer.rows[i].event == e;
    assert w.buffer.rows[i] in b.rows;
    var j :| 0 <= j < |b.rows| && b.rows[j] == w.buffer.rows[i];
  }

  lemma SafePhase(s: Setting, w: World, phase: Phase)
    requires Safe(s, w)
    requires phase == Ready || (w.phase.Posting? && w.phase.batch in w.answered && phase == Acked(w.phase.batch))
    ensures Safe(s, w.(phase := phase))
  {
    var w' := w.(phase := phase);
  }

  lemma SafeNext(s: Setting, w: World, step: Step)
    requires Safe(s, w) && Enabled(w, step)
    ensures Safe(s, Next(s, w, step))
  {
    match step
    case Enqueue(_, _, _) => SafeEnqueue(s, w, step);
    case StartUpload(_) => SafeStart(s, w, step);
    case Deliver(_) => SafeDeliver(s, w, step);
    case Acknowledge => SafePhase(s, w, Acked(w.phase.batch));
    case LoseAck => SafePhase(s, w, Ready);
    case MarkBatch(_) => SafeMark(s, w, step);
    case Crash => SafePhase(s, w, Ready);
  }

  lemma {:induction false} SafeAlways(s: Setting, worlds: seq<World>, steps: seq<Step>, n: nat)
    requires IsRun(s, worlds, steps) && n < |worlds|
    ensures Safe(s, worlds[n])
  {
    if n > 0 {
      SafeAlways(s, worlds, steps, n - 1);
      SafeNext(s, worlds[n - 1], steps[n - 1]);
    }
  }

  /** Where no two ids agree once trimmed, the row under an event's id is the event's own. */
  lemma CoveredIsStored(s: Setting, w: World, e: RequestEvent)
    requires Safe(s, w) && FreshIds(w.enqueued) && e in w.enqueued && Covered(w.server, e)
    ensures Stored(w.server, s.device, e)
  {
    hide Trim;
    var i :| 0 <= i < |w.server| && w.server[i].uuid == Trim(e.eventId);
    assert FromHistory(w.server[i], w.enqueued, s.device);
    var x :| x in w.enqueued && RowFrom(w.server[i], s.device, x);
    var j :| 0 <= j < |w.enqueued| && w.enqueued[j] == x;
    var k :| 0 <= k < |w.enqueued| && w.enqueued[k] == e;
    assert Trim(x.eventId) == Trim(e.eventId);
    if j < k {
    } else if k < j {
    }
  }

  /** In every run, at every moment: an enqueued event still waits in the buffer or the server holds its
      id; one marked sent, or no longer in the buffer, has its id on the server; the server holds an id
      once, and every row it has is the normalised payload of an enqueued event; sequence numbers have
      no gaps. */
  lemma AtLeastOnce(s: Setting, worlds: seq<World>, steps: seq<Step>, n: nat)
    requires IsRun(s, worlds, steps) && n < |worlds|
    ensures var w := worlds[n];
            && (forall e :: e in w.enqueued ==> Waiting(w.buffer, e) || Covered(w.server, e))
            && (forall r :: r in w.buffer.rows && r.sentAt.Some? ==> Covered(w.server, r.event))
            && (forall e :: e in w.enqueued && !Holds(w.buffer, e.eventId) ==> Covered(w.server, e))
            && (forall i, j :: 0 <= i < j < |w.server| ==> w.server[i].uuid != w.server[j].uuid)
            && (forall row :: row in w.server ==> FromHistory(row, w.enqueued, s.device))
            && (forall i :: 0 <= i < |w.enqueued| ==> w.enqueued[i].sequence == i + 1)
  {
    SafeAlways(s, worlds, steps, n);
    var w := worlds[n];
    UnsentElements(w.buffer.rows);
    forall e | Waiting(w.buffer, e) ensures Holds(w.buffer, e.eventId) {
      var i :| 0 <= i < |w.buffer.rows| && w.buffer.rows[i].sentAt.None? && w.buffer.rows[i].event == e;
    }
    forall row | row in w.server ensures FromHistory(row, w.enqueued, s.device) {
    }
  }

  /** Where moreover no two ids agree once trimmed, the event itself is on the server. */
  lemma ExactlyOnce(s: Setting, worlds: seq<World>, steps: seq<Step>, n: nat)
    requires IsRun(s, worlds, steps) && n < |worlds| && FreshIds(worlds[n].enqueued)
    ensures var w := worlds[n];
            && (forall e :: e in w.enqueued ==> Waiting(w.buffer, e) || Stored(w.server, s.device, e))
            && (forall r :: r in w.buffer.rows && r.sentAt.Some? ==> Stored(w.server, s.device, r.event))
            && (forall e :: e in w.enqueued && !Holds(w.buffer, e.eventId) ==> Stored(w.server, s.device, e))
  {
    hide FreshIds;
    AtLeastOnce(s, worlds, steps, n);
    SafeAlways(s, worlds, steps, n);
    var w := worlds[n];
    forall e | e in w.enqueued && Covered(w.server, e) ensures Stored(w.server, s.device, e) {
      CoveredIsStored(s, w, e);
    }
  }

  /** And that is the exact condition: once nothing is pending, the server has every enqueued event if
      and only if no two of their ids agree once trimmed. */
  lemma AllArrive(s: Setting, worlds: seq<World>, steps: seq<Step>, n: nat)
    requires IsRun(s, worlds, steps) && n < |worlds| && Unsent(worlds[n].buffer.rows) == []
    ensures (forall e :: e in worlds[n].enqueued ==> Stored(worlds[n].server, s.device, e))
       <==> FreshIds(worlds[n].enqueued)
  {
    hide Trim;
    var w := worlds[n];
    SafeAlways(s, worlds, steps, n);
    if FreshIds(w.enqueued) {
      ExactlyOnce(s, worlds, steps, n);
    }
    if forall e :: e in w.enqueued ==> Stored(w.server, s.device, e) {
      forall i, j | 0 <= i < j < |w.enqueued| ensures Trim(w.enqueued[i].eventId) != Trim(w.enqueued[j].eventId) {
        StoredApart(s, w, i, j);
      }
    }
  }

  /** Two enqueued events in the table have different ids there: the rows differ by their sequence. */
  lemma StoredApart(s: Setting, w: World, i: nat, j: nat)
    requires ValidRows(w.server) && GoodHistory(w) && i < j < |w.enqueued|
    requires Stored(w.server, s.device, w.enqueued[i]) && Stored(w.server, s.device, w.enqueued[j])
    ensures Trim(w.enqueued[i].eventId) != Trim(w.enqueued[j].eventId)
  {
    hide Trim;
    var k :| 0 <= k < |w.server| && RowFrom(w.server[k], s.device, w.enqueued[i]);
    var l :| 0 <= l < |w.server| && RowFrom(w.server[l], s.device, w.enqueued[j]);
    assert w.server[k].sequence == i + 1 && w.server[l].sequence == j + 1;
  }

  // ---- the report once nothing is pending -------------------------------------

  ghost predicate Numbered(enqueued: seq<RequestEvent>) {
    forall k {:trigger enqueued[k]} :: 0 <= k < |enqueued| ==> enqueued[k].sequence == k + 1 && WellFormed(enqueued[k])
  }

  ghost function Entry(enqueued: seq<RequestEvent>, device: int, k: nat): Event
    requires Numbered(enqueued) && k < |enqueued|
  {
    var e := enqueued[k];
    var state := if e.state == "active" then Active else if e.state == "idle" then Idle else Locked;
    Event(k + 1, Trim(e.eventId), device, e.at, state,
          if state != Active then "" else if Trim(e.process) == "" then "unknown" else Trim(e.process), e.sequence)
  }

  /** The enqueued stream as the server is to know it, in order. */
  ghost function Stream(enqueued: seq<RequestEvent>, device: int): seq<Event>
    requires Numbered(enqueued)
  {
    seq(|enqueued|, k requires 0 <= k < |enqueued| => Entry(enqueued, device, k))
  }

  /** The row under its sequence number instead of its arrival number. */
  function Renumbered(e: Event): Event { e.(id := e.sequence) }

  function RenumberedAll(s: seq<Event>): (r: seq<Event>)
    ensures |r| == |s| && forall i :: 0 <= i < |s| ==> r[i] == Renumbered(s[i])
  {
    seq(|s|, i requires 0 <= i < |s| => Renumbered(s[i]))
  }

  /** Rows with different sequence numbers are strictly ordered by time and sequence alone. */
  lemma SortedStrictly(s: seq<Event>)
    requires RowsById(s) && forall x, y :: x in s && y in s && x != y ==> x.sequence != y.sequence
    ensures RowOrdered(RenumberedAll(StableSort(s)))
    ensures forall y :: y in RenumberedAll(StableSort(s)) <==> exists x :: x in s && y == Renumbered(x)
  {
    StableSortRowOrdered(s);
    var r := StableSort(s);
    forall i, j | 0 <= i < j < |r| ensures RowBefore(Renumbered(r[i]), Renumbered(r[j])) {
      assert RowBefore(r[i], r[j]) && r[i] in s && r[j] in s;
    }
    forall x | x in s ensures Renumbered(x) in RenumberedAll(r) {
      var i :| 0 <= i < |r| && r[i] == x;
      assert RenumberedAll(r)[i] == Renumbered(x);
    }
    forall y | y in RenumberedAll(r) ensures exists x :: x in s && y == Renumbered(x) {
      var i :| 0 <= i < |r| && RenumberedAll(r)[i] == y;
      assert r[i] in s;
    }
  }

  ghost predicate HasTwin(x: Event, s: seq<Event>) {
    exists y :: y in s && Renumbered(x) == Renumbered(y)
  }

  ghost predicate Mirrored(a: seq<Event>, b: seq<Event>) {
    forall x {:trigger HasTwin(x, b)} :: x in a ==> HasTwin(x, b)
  }

  /** Two tables that hold the same observations under different row ids give the same report. */
  lemma SameObservationsSameUsage(a: seq<Event>, b: seq<Event>, start: int, end: int, now: int, maxGap: int, who: Who,
                                  unit: int)
    requires unit > 0 && RowsById(a) && RowsById(b)
    requires forall x, y :: x in a && y in a && x != y ==> x.sequence != y.sequence
    requires forall x, y :: x in b && y in b && x != y ==> x.sequence != y.sequence
    requires Mirrored(a, b) && Mirrored(b, a)
    ensures Usage(a, start, end, now, maxGap, who, unit) == Usage(b, start, end, now, maxGap, who, unit)
  {
    var w := Window(start, EffectiveNow(end, now), maxGap);
    SortedStrictly(a);
    SortedStrictly(b);
    forall z ensures z in RenumberedAll(StableSort(a)) <==> z in RenumberedAll(StableSort(b)) {
      if x :| x in a && z == Renumbered(x) { assert HasTwin(x, b); }
      if y :| y in b && z == Renumbered(y) { assert HasTwin(y, a); }
    }
    RowOrderedUnique(RenumberedAll(StableSort(a)), RenumberedAll(StableSort(b)));
    AmountOfRecord(StableSort(a), RenumberedAll(StableSort(a)), who, w, unit);
    AmountOfRecord(StableSort(b), RenumberedAll(StableSort(b)), who, w, unit);
  }

  /** The entry a row comes from: its number is the row's sequence, and its id the row's id. */
  lemma RowNumber(s: Setting, w: World, row: Event) returns (k: nat)
    requires Safe(s, w) && row in w.server
    ensures k < |w.enqueued| && row.sequence == k + 1 && row.uuid == Trim(w.enqueued[k].eventId)
  {
    assert FromHistory(row, w.enqueued, s.device);
    var e :| e in w.enqueued && RowFrom(row, s.device, e);
    k :| 0 <= k < |w.enqueued| && w.enqueued[k] == e;
  }

  lemma ServerSequences(s: Setting, w: World)
    requires Safe(s, w)
    ensures forall x, y :: x in w.server && y in w.server && x != y ==> x.sequence != y.sequence
  {
    hide Trim;
    forall x, y | x in w.server && y in w.server && x != y ensures x.sequence != y.sequence {
      var i :| 0 <= i < |w.server| && w.server[i] == x;
      var j :| 0 <= j < |w.server| && w.server[j] == y;
      assert x.uuid != y.uuid;
      var k := RowNumber(s, w, x);
      var l := RowNumber(s, w, y);
    }
  }

  lemma RowIsEntry(row: Event, enqueued: seq<RequestEvent>, device: int, k: nat)
    requires Numbered(enqueued) && k < |enqueued| && RowFrom(row, device, enqueued[k])
    ensures Renumbered(row) == Entry(enqueued, device, k)
  {
    assert enqueued[k].sequence == k + 1;
  }

  lemma EntryNumbered(enqueued: seq<RequestEvent>, device: int, k: nat)
    requires Numbered(enqueued) && k < |enqueued|
    ensures WellFormed(enqueued[k]) && Entry(enqueued, device, k).id == Entry(enqueued, device, k).sequence == k + 1
    ensures Renumbered(Entry(enqueued, device, k)) == Entry(enqueued, device, k)
  {
    assert enqueued[k].sequence == k + 1;
  }

  lemma StreamNumbers(enqueued: seq<RequestEvent>, device: int)
    requires Numbered(enqueued)
    ensures forall k :: 0 <= k < |Stream(enqueued, device)| ==>
              Stream(enqueued, device)[k].id == Stream(enqueued, device)[k].sequence == k + 1
  {
    forall k | 0 <= k < |enqueued|
      ensures Stream(enqueued, device)[k].id == Stream(enqueued, device)[k].sequence == k + 1
    {
      EntryNumbered(enqueued, device, k);
    }
  }

  lemma NumberedApart(s: seq<Event>)
    requires forall k :: 0 <= k < |s| ==> s[k].id == s[k].sequence == k + 1
    ensures RowsById(s) && forall x, y :: x in s && y in s && x != y ==> x.sequence != y.sequence
  {
  }

  lemma ServerInStream(server: seq<Event>, enqueued: seq<RequestEvent>, device: int)
    requires Numbered(enqueued) && forall row :: row in server ==> FromHistory(row, enqueued, device)
    ensures Mirrored(server, Stream(enqueued, device))
  {
    var stream := Stream(enqueued, device);
    forall x | x in server ensures HasTwin(x, stream) {
      assert FromHistory(x, enqueued, device);
      RowHasTwin(x, enqueued, device);
    }
  }

  lemma RowHasTwin(x: Event, enqueued: seq<RequestEvent>, device: int)
    requires Numbered(enqueued) && FromHistory(x, enqueued, device)
    ensures HasTwin(x, Stream(enqueued, device))
  {
    var e :| e in enqueued && RowFrom(x, device, e);
    var k: nat :| k < |enqueued| && enqueued[k] == e;
    RowIsEntry(x, enqueued, device, k);
    EntryNumbered(enqueued, device, k);
    assert Stream(enqueued, device)[k] == Entry(enqueued, device, k);
  }

  lemma StreamInServer(server: seq<Event>, enqueued: seq<RequestEvent>, device: int)
    requires Numbered(enqueued) && forall e :: e in enqueued ==> Stored(server, device, e)
    ensures Mirrored(Stream(enqueued, device), server)
  {
    var stream := Stream(enqueued, device);
    forall y | y in stream ensures HasTwin(y, server) {
      var k: nat :| k < |stream| && stream[k] == y;
      assert enqueued[k] in enqueued;
      EntryHasTwin(server, enqueued, device, k);
    }
  }

  lemma EntryHasTwin(server: seq<Event>, enqueued: seq<RequestEvent>, device: int, k: nat)
    requires Numbered(enqueued) && k < |enqueued| && Stored(server, device, enqueued[k])
    ensures HasTwin(Entry(enqueued, device, k), server)
  {
    var i :| 0 <= i < |server| && RowFrom(server[i], device, enqueued[k]);
    RowIsEntry(server[i], enqueued, device, k);
    EntryNumbered(enqueued, device, k);
    assert server[i] in server;
  }

  lemma SafeFacts(s: Setting, w: World)
    requires Safe(s, w) && Unsent(w.buffer.rows) == [] && FreshIds(w.enqueued)
    ensures Numbered(w.enqueued) && RowsById(w.server)
    ensures forall e :: e in w.enqueued ==> Stored(w.server, s.device, e)
    ensures forall row :: row in w.server ==> FromHistory(row, w.enqueued, s.device)
  {
    hide Trim;
    forall row | row in w.server ensures FromHistory(row, w.enqueued, s.device) {
    }
    forall e | e in w.enqueued ensures Stored(w.server, s.device, e) {
      CoveredIsStored(s, w, e);
    }
  }

  /** Once nothing is pending, and where no two ids agree once trimmed, the report on what is fetched for the
      device is the report on the stream that was enqueued, over any window and whatever the order of arrival. */
  lemma DeliveredReport(s: Setting, worlds: seq<World>, steps: seq<Step>, n: nat, fetched: seq<Event>,
                        start: int, end: int, now: int, maxGap: int, who: Who, unit: int)
    requires IsRun(s, worlds, steps) && n < |worlds| && unit > 0
    requires Unsent(worlds[n].buffer.rows) == [] && FreshIds(worlds[n].enqueued)
    requires IsFetch(DeviceRows(worlds[n].server, s.device), start, end, fetched)
    ensures Numbered(worlds[n].enqueued)
    ensures Usage(fetched, start, end, now, maxGap, who, unit)
         == Usage(Stream(worlds[n].enqueued, s.device), start, end, now, maxGap, who, unit)
  {
    hide IsFetch, Usage;
    var server := worlds[n].server;
    SafeAlways(s, worlds, steps, n);
    SafeFacts(s, worlds[n]);
    ServerSequences(s, worlds[n]);
    AllOfDevice(server, worlds[n].enqueued, s.device);
    FetchSuffices(server, start, end, fetched, start, end, now, maxGap, who, unit);
    TwoStreams(server, worlds[n].enqueued, s.device, start, end, now, maxGap, who, unit);
  }

  /** Every row is the device's. */
  lemma AllOfDevice(server: seq<Event>, enqueued: seq<RequestEvent>, device: int)
    requires forall row :: row in server ==> FromHistory(row, enqueued, device)
    ensures DeviceRows(server, device) == server
  {
    forall x | x in server ensures x.device == device {
      assert FromHistory(x, enqueued, device);
    }
    AllOfOneDevice(server, device);
  }

  lemma TwoStreams(server: seq<Event>, enqueued: seq<RequestEvent>, device: int,
                   start: int, end: int, now: int, maxGap: int, who: Who, unit: int)
    requires unit > 0 && Numbered(enqueued) && RowsById(server)
    requires forall e :: e in enqueued ==> Stored(server, device, e)
    requires forall row :: row in server ==> FromHistory(row, enqueued, device)
    requires forall x, y :: x in server && y in server && x != y ==> x.sequence != y.sequence
    ensures Usage(server, start, end, now, maxGap, who, unit)
         == Usage(Stream(enqueued, device), start, end, now, maxGap, who, unit)
  {
    StreamNumbers(enqueued, device);
    NumberedApart(Stream(enqueued, device));
    ServerInStream(server, enqueued, device);
    StreamInServer(server, enqueued, device);
    SameObservationsSameUsage(server, Stream(enqueued, device), start, end, now, maxGap, who, unit);
  }

  // ---- draining ---------------------------------------------------------------

  function Without(s: seq<RequestEvent>, eventIds: seq<string>): seq<RequestEvent> {
    if |s| == 0 then []
    else Without(s[..|s| - 1], eventIds) + if s[|s| - 1].eventId in eventIds then [] else [s[|s| - 1]]
  }

  lemma {:induction false} UnsentMarked(rows: seq<BufferRow>, eventIds: seq<string>, now: int)
    requires forall r :: r in rows ==> r.event.eventId != ""
    ensures Unsent(MarkRows(rows, eventIds, now)) == Without(Unsent(rows), eventIds)
  {
    if |rows| > 0 {
      var front, r := rows[..|rows| - 1], rows[|rows| - 1];
      UnsentMarked(front, eventIds, now);
      var marked := MarkRows(rows, eventIds, now);
      assert marked[..|marked| - 1] == MarkRows(front, eventIds, now);
      if r.sentAt.None? {
        assert (Unsent(front) + [r.event])[..|Unsent(front)|] == Unsent(front);
      }
    }
  }

  lemma {:induction false} UnsentPurged(rows: seq<BufferRow>, cutoff: int)
    ensures Unsent(Purged(rows, cutoff)) == Unsent(rows)
  {
    if |rows| > 0 {
      var front, r := rows[..|rows| - 1], rows[|rows| - 1];
      UnsentPurged(front, cutoff);
      assert (Purged(front, cutoff) + [r])[..|Purged(front, cutoff)|] == Purged(front, cutoff);
    }
  }

  lemma {:induction false} WithoutPrefix(s: seq<RequestEvent>, n: nat, eventIds: seq<string>)
    requires n <= |s|
    requires forall i :: 0 <= i < |s| ==> (s[i].eventId in eventIds <==> i < n)
    ensures Without(s, eventIds) == s[n..]
  {
    if |s| > n {
      WithoutPrefix(s[..|s| - 1], n, eventIds);
      assert s[n..] == s[..|s| - 1][n..] + [s[|s| - 1]];
    } else if |s| > 0 {
      WithoutPrefix(s[..|s| - 1], n - 1, eventIds);
      assert s[..|s| - 1][n - 1..] == [] && s[n..] == [];
    }
  }

  /** Every acknowledged upload takes exactly its batch, a non-empty one while anything waits, from the
      front of what is pending: n pending events are gone after n uploads at the latest. */
  lemma UploadDrains(b: Buffer, limit: int, now: int)
    requires ValidBuffer(b)
    ensures var batch := PendingOf(b, limit);
            && |batch| == Min(|Unsent(b.rows)|, if limit > 0 then limit else 100) && batch <= Unsent(b.rows)
            && (Unsent(b.rows) != [] ==> batch != [])
            && Unsent(Marked(b, IdsOf(batch), now).rows) == Unsent(b.rows)[|batch|..]
  {
    var unsent, batch := Unsent(b.rows), PendingOf(b, limit);
    var ids := IdsOf(batch);
    UnsentIncreasing(b.rows);
    forall i | 0 <= i < |unsent| ensures unsent[i].eventId in ids <==> i < |batch| {
      if i < |batch| {
        assert ids[i] == unsent[i].eventId;
      } else {
        forall k | 0 <= k < |ids| ensures ids[k] != unsent[i].eventId {
          assert ids[k] == unsent[k].eventId;
        }
      }
    }
    WithoutPrefix(unsent, |batch|, ids);
    forall r | r in b.rows ensures r.event.eventId != "" {
      assert ValidRow(b, r);
    }
    UnsentMarked(b.rows, ids, now);
    UnsentPurged(MarkRows(b.rows, ids, now), now - SENT_RETENTION);
  }

  // ---- the uploader -----------------------------------------------------------

  /** What becomes of one post: never arrives, arrives but the answer is lost, or is answered. */
  datatype Outcome = NeverArrives | AnswerLost | Answered

  /** One upload: events are marked only after the server's answer, exactly those that were posted. */
  method UploadOnce(buffer: EventBuffer, server: Store, s: Setting, limit: int, outcome: Outcome, now: int)
    returns (ok: bool)
    requires buffer.Valid() && server.Valid()
    modifies buffer, server
    ensures buffer.Valid() && server.Valid()
    ensures var batch := PendingOf(old(buffer.State()), limit);
      if batch == [] then
        ok && server.rows == old(server.rows) && buffer.State() == old(buffer.State())
      else
        && server.rows == (if outcome == NeverArrives || !Readable(batch) then old(server.rows)
                           else Accept(old(server.rows), s.device, s.clientId, batch))
        && (ok <==> outcome == Answered && Readable(batch) && Acceptable(s.clientId, batch))
        && buffer.State() == if ok then Marked(old(buffer.State()), IdsOf(batch), now) else old(buffer.State())
  {
    hide Acceptable;
    var pending := buffer.Pending(limit);
    if pending.Failure? {
      return false;
    }
    var events := pending.value;
    if |events| == 0 {
      return true;
    }
    if outcome == NeverArrives {
      return false;
    }
    var inputs := ValidateBatch(s.clientId, events);
    if inputs.Failure? {
      return false;
    }
    var accepted, ignored := server.InsertEvents(s.device, inputs.value);
    if outcome == AnswerLost {
      return false;
    }
    buffer.MarkSent(IdsOf(events), now);
    return true;
  }
}
