/** When uploads get through: what blocks the front of the buffer, that it blocks it for good, and
    which enqueued ids are lost. */
module Uploads {
  import opened Observations
  import opened Reports
  import opened Intake
  import opened TimeText
  import opened EventBuffer
  import opened Delivery

  // ---- generated ids ----------------------------------------------------------

  /** Every event is posted without an id, and no id is generated twice. */
  ghost predicate NewIds(steps: seq<Step>) {
    && (forall i :: 0 <= i < |steps| && steps[i].Enqueue? ==> steps[i].event.eventId == "")
    && (forall i, j :: 0 <= i < j < |steps| && steps[i].Enqueue? && steps[j].Enqueue? ==>
          steps[i].newId != steps[j].newId)
  }

  ghost predicate Generated(steps: seq<Step>, n: nat, e: RequestEvent)
    requires n <= |steps|
  {
    exists i :: 0 <= i < n && steps[i].Enqueue? && IsUuid(steps[i].newId) && e.eventId == steps[i].newId
  }

  /** Generated ids stay apart on the server. */
  lemma {:induction false} GeneratedFresh(s: Setting, worlds: seq<World>, steps: seq<Step>, n: nat)
    requires IsRun(s, worlds, steps) && n < |worlds| && NewIds(steps)
    ensures FreshIds(worlds[n].enqueued) && forall e :: e in worlds[n].enqueued ==> Generated(steps, n, e)
  {
    hide Trim, IsUuid;
    if n > 0 {
      GeneratedFresh(s, worlds, steps, n - 1);
      var before, step := worlds[n - 1].enqueued, steps[n - 1];
      assert Enabled(worlds[n - 1], step) && worlds[n] == Next(s, worlds[n - 1], step);
      forall e | e in before ensures Generated(steps, n, e) {
        assert Generated(steps, n - 1, e);
      }
      if step.Enqueue? {
        var added := worlds[n].enqueued[|before|];
        assert added.eventId == step.newId && Generated(steps, n, added);
        UuidPlain(step.newId);
        forall i | 0 <= i < |before| ensures Trim(before[i].eventId) != Trim(added.eventId) {
          assert before[i] in before;
          var k :| 0 <= k < n - 1 && steps[k].Enqueue? && IsUuid(steps[k].newId)
                   && before[i].eventId == steps[k].newId;
          UuidPlain(steps[k].newId);
        }
      }
    }
  }

  // ---- what blocks the buffer -------------------------------------------------

  /** The batch at the front cannot be read, or the server refuses it. */
  ghost predicate Blocked(b: Buffer, limit: int, clientId: string) {
    PendingOf(b, limit) != [] && !(Readable(PendingOf(b, limit)) && Acceptable(clientId, PendingOf(b, limit)))
  }

  /** Exactly a blank client id, a batch that is too large, two ids in it that agree once trimmed, or a
      time outside the years 0 to 9999 blocks the buffer. */
  lemma BlockedExactly(b: Buffer, limit: int, clientId: string)
    requires ValidBuffer(b)
    ensures var batch := PendingOf(b, limit);
            Blocked(b, limit, clientId)
            <==> batch != [] && (Trim(clientId) == "" || |batch| > MAX_BATCH || !FreshIds(batch) || !Readable(batch))
  {
    NoPoisonBatch(b, limit, clientId);
  }

  /** While the buffer is not blocked, an upload can go through: it takes its batch from the front. */
  lemma UploadGoesThrough(s: Setting, w: World, limit: int, now: int) returns (worlds: seq<World>, steps: seq<Step>)
    requires Safe(s, w) && w.phase == Ready && PendingOf(w.buffer, limit) != []
    requires !Blocked(w.buffer, limit, s.clientId)
    ensures |steps| == 4 && |worlds| == 5 && worlds[0] == w
    ensures forall i :: 0 <= i < 4 ==> Enabled(worlds[i], steps[i]) && worlds[i + 1] == Next(s, worlds[i], steps[i])
    ensures worlds[4].phase == Ready && worlds[4].enqueued == w.enqueued
    ensures Unsent(worlds[4].buffer.rows) == Unsent(w.buffer.rows)[|PendingOf(w.buffer, limit)|..]
  {
    hide Acceptable, Accept, Marked, PendingOf;
    var batch := PendingOf(w.buffer, limit);
    steps := [StartUpload(limit), Deliver(batch), Acknowledge, MarkBatch(now)];
    var a := Next(s, w, steps[0]);
    var b := Next(s, a, steps[1]);
    var c := Next(s, b, steps[2]);
    worlds := [w, a, b, c, Next(s, c, steps[3])];
    UploadDrains(w.buffer, limit, now);
  }

  lemma FreshFront(batch: seq<RequestEvent>, more: seq<RequestEvent>)
    requires batch <= more && FreshIds(more)
    ensures FreshIds(batch)
  {
    assert forall i :: 0 <= i < |batch| ==> batch[i] == more[i];
  }

  /** Whatever is enqueued later stands behind. */
  lemma EnqueuedBehind(b: Buffer, e: RequestEvent, limit: int, clientId: string)
    requires Blocked(b, limit, clientId) && ValidBuffer(b) && ValidBuffer(Enqueued(b, e))
    ensures Unsent(b.rows) <= Unsent(Enqueued(b, e).rows) && Blocked(Enqueued(b, e), limit, clientId)
  {
    hide Acceptable, FreshIds, Trim, ValidBuffer;
    var b' := Enqueued(b, e);
    assert b'.rows[..|b.rows|] == b.rows;
    BlockedExactly(b, limit, clientId);
    BlockedExactly(b', limit, clientId);
    var batch, more := PendingOf(b, limit), PendingOf(b', limit);
    assert batch <= more;
    if FreshIds(more) {
      FreshFront(batch, more);
    }
    if Readable(more) {
      assert forall x :: x in batch ==> x in more;
    }
  }

  /** No upload of this batch size is under way that could still be answered. */
  ghost predicate Stuck(s: Setting, w: World, limit: int) {
    && Blocked(w.buffer, limit, s.clientId) && !w.phase.Acked?
    && (w.phase.Posting? ==> !Acceptable(s.clientId, w.phase.batch))
  }

  lemma StuckStays(s: Setting, w: World, step: Step, limit: int)
    requires Safe(s, w) && Stuck(s, w, limit) && Enabled(w, step)
    requires step.StartUpload? ==> step.limit == limit
    ensures Stuck(s, Next(s, w, step), limit)
    ensures Unsent(w.buffer.rows) <= Unsent(Next(s, w, step).buffer.rows)
  {
    hide Acceptable, Accept, PendingOf, Readable;
    SafeNext(s, w, step);
    if step.Enqueue? {
      EnqueuedBehind(w.buffer, NormalizeEvent(step.event, step.newId, step.now).value, limit, s.clientId);
    }
  }

  /** Once the buffer is blocked it stays so: of all that was waiting then, nothing is ever marked sent,
      in whatever way the run goes on. */
  lemma {:induction false} BlockedForever(s: Setting, worlds: seq<World>, steps: seq<Step>, n: nat, m: nat, limit: int)
    requires IsRun(s, worlds, steps) && n <= m < |worlds|
    requires worlds[n].phase == Ready && Blocked(worlds[n].buffer, limit, s.clientId)
    requires forall i :: n <= i < m && steps[i].StartUpload? ==> steps[i].limit == limit
    ensures Stuck(s, worlds[m], limit) && Unsent(worlds[n].buffer.rows) <= Unsent(worlds[m].buffer.rows)
  {
    hide Blocked, Enabled, Unsent;
    if n < m {
      BlockedForever(s, worlds, steps, n, m - 1, limit);
      SafeAlways(s, worlds, steps, m - 1);
      StuckStays(s, worlds[m - 1], steps[m - 1], limit);
    }
  }

  // ---- the same id under two texts --------------------------------------------

  function Blanked(u: string): string { " " + u + " " }

  function Posted(eventId: string, at: int): RequestEvent {
    RequestEvent(eventId, ACTIVITY_OBSERVED, at, "idle", "", 0)
  }

  /** An id and the same id between blanks are both taken into the buffer. */
  lemma SameIdTwice(s: Setting, u: string, at: int) returns (worlds: seq<World>, steps: seq<Step>)
    requires IsUuid(u) && at != ZERO_TIME
    ensures IsRun(s, worlds, steps) && |worlds| == 3 && worlds[2].phase == Ready
    ensures Unsent(worlds[2].buffer.rows) == worlds[2].enqueued
         == [Posted(u, at).(sequence := 1), Posted(Blanked(u), at).(sequence := 2)]
    ensures !FreshIds(worlds[2].enqueued)
  {
    hide IsUuid, IsEventId, Trim;
    PaddedId(u);
    steps := [Enqueue(Posted(u, at), u, at), Enqueue(Posted(Blanked(u), at), u, at)];
    var a := Next(s, INITIAL, steps[0]);
    assert NormalizeEvent(Posted(u, at), u, at) == Success(Posted(u, at));
    assert NormalizeEvent(Posted(Blanked(u), at), u, at) == Success(Posted(Blanked(u), at));
    assert a.buffer.rows == [BufferRow(1, Posted(u, at).(sequence := 1), None)];
    assert !Holds(a.buffer, Blanked(u)) by { assert |u| != |Blanked(u)|; }
    worlds := [INITIAL, a, Next(s, a, steps[1])];
    var b := worlds[2].buffer;
    assert b.rows == a.buffer.rows + [BufferRow(2, Posted(Blanked(u), at).(sequence := 2), None)];
    assert b.rows[..1] == a.buffer.rows && a.buffer.rows[..0] == [];
    assert Unsent(a.buffer.rows) == [Posted(u, at).(sequence := 1)];
    assert Unsent(b.rows) == worlds[2].enqueued;
    assert Trim(worlds[2].enqueued[0].eventId) == u == Trim(worlds[2].enqueued[1].eventId);
  }

  /** In one batch they block the buffer, whoever the client is. */
  lemma SameIdBlocks(s: Setting, u: string, at: int, limit: int) returns (worlds: seq<World>, steps: seq<Step>)
    requires IsUuid(u) && at != ZERO_TIME && BatchSize(limit) >= 2
    ensures IsRun(s, worlds, steps) && |worlds| == 3 && worlds[2].phase == Ready
    ensures Blocked(worlds[2].buffer, limit, s.clientId)
  {
    worlds, steps := SameIdTwice(s, u, at);
    SafeAlways(s, worlds, steps, 2);
    assert PendingOf(worlds[2].buffer, limit) == worlds[2].enqueued;
    BlockedExactly(worlds[2].buffer, limit, s.clientId);
  }

  lemma RunGoesOn(s: Setting, worlds: seq<World>, steps: seq<Step>, worlds': seq<World>, steps': seq<Step>)
    requires IsRun(s, worlds, steps) && |worlds'| == |steps'| + 1 && worlds'[0] == worlds[|worlds| - 1]
    requires forall i :: 0 <= i < |steps'| ==>
               Enabled(worlds'[i], steps'[i]) && worlds'[i + 1] == Next(s, worlds'[i], steps'[i])
    ensures IsRun(s, worlds + worlds'[1..], steps + steps')
  {
    var w, t := worlds + worlds'[1..], steps + steps';
    forall i | 0 <= i < |t| ensures Enabled(w[i], t[i]) && w[i + 1] == Next(s, w[i], t[i]) {
      if i < |steps| {
        assert w[i] == worlds[i] && w[i + 1] == worlds[i + 1] && t[i] == steps[i];
      } else {
        var k := i - |steps|;
        assert w[i] == worlds'[k] && w[i + 1] == worlds'[k + 1] && t[i] == steps'[k];
      }
    }
  }

  /** Going on with an upload of the first pending event alone. */
  lemma UploadOne(s: Setting, worlds: seq<World>, steps: seq<Step>, now: int)
    returns (worlds': seq<World>, steps': seq<Step>)
    requires IsRun(s, worlds, steps) && Trim(s.clientId) != ""
    requires var w := worlds[|steps|];
             w.phase == Ready && Unsent(w.buffer.rows) != [] && Readable(Unsent(w.buffer.rows))
    ensures IsRun(s, worlds', steps')
    ensures var w, w' := worlds[|steps|], worlds'[|steps'|];
            && w'.phase == Ready && w'.enqueued == w.enqueued
            && Unsent(w'.buffer.rows) == Unsent(w.buffer.rows)[1..]
  {
    hide InRange, Trim, Enabled;
    var w := worlds[|steps|];
    SafeAlways(s, worlds, steps, |steps|);
    var batch := PendingOf(w.buffer, 1);
    assert batch == [Unsent(w.buffer.rows)[0]];
    assert Unsent(w.buffer.rows)[0] in Unsent(w.buffer.rows);
    BlockedExactly(w.buffer, 1, s.clientId);
    var more, next := UploadGoesThrough(s, w, 1, now);
    RunGoesOn(s, worlds, steps, more, next);
    worlds', steps' := worlds + more[1..], steps + next;
    assert worlds'[|steps'|] == more[4];
  }

  /** Uploaded one by one the second is lost: nothing is pending any more, and not everything enqueued is
      on the server. */
  lemma SameIdLost(s: Setting, u: string, at: int, now: int) returns (worlds: seq<World>, steps: seq<Step>, n: nat)
    requires IsUuid(u) && at != ZERO_TIME && InRange(at) && Trim(s.clientId) != ""
    ensures IsRun(s, worlds, steps) && n < |worlds| && Unsent(worlds[n].buffer.rows) == []
    ensures exists e :: e in worlds[n].enqueued && !Stored(worlds[n].server, s.device, e)
  {
    worlds, steps := SameIdTwice(s, u, at);
    worlds, steps := UploadOne(s, worlds, steps, now);
    worlds, steps := UploadOne(s, worlds, steps, now);
    n := |worlds| - 1;
    AllArrive(s, worlds, steps, n);
  }
}
