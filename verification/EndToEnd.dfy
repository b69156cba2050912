/** From the screen to the report: what the agent observed, what it sent, and what the server counts. */
module EndToEnd {
  import opened Observations
  import opened Reports
  import opened EventStore
  import opened Intake
  import opened AgentEmission
  import opened EventBuffer
  import opened Delivery
  import opened Uploads

  lemma StreamOrdered(stream: seq<Event>, sent: seq<Event>)
    requires Ordered(sent) && SameRecord(stream, sent)
    requires forall k :: 0 <= k < |stream| ==> stream[k].id == stream[k].sequence == k + 1
    ensures Ordered(stream)
  {
    forall i, j | 0 <= i < j < |stream| ensures !Before(stream[j], stream[i]) {
      assert SameCounted(stream[i], sent[i]) && SameCounted(stream[j], sent[j]);
      assert !Before(sent[j], sent[i]);
    }
  }

  // ---- from the agent into the buffer -----------------------------------------

  /** How an observation is posted: with its time, its state by name, and the name of the process in front,
      which is empty when there is none. */
  predicate PostedAs(e: Event, posted: RequestEvent) {
    && posted.at == e.at != ZERO_TIME
    && posted.state == (match e.state case Active => "active" case Idle => "idle" case Locked => "locked")
    && (e.state == Active ==> Trim(posted.process) == e.process)
  }

  ghost predicate AllPosted(sent: seq<Event>, posted: seq<RequestEvent>) {
    |sent| == |posted| && forall i :: 0 <= i < |sent| ==> PostedAs(sent[i], posted[i])
  }

  /** The events of the first n steps that were enqueued, as they were posted. */
  function Posts(steps: seq<Step>, n: nat): seq<RequestEvent>
    requires n <= |steps|
  {
    if n == 0 then []
    else Posts(steps, n - 1) + match steps[n - 1] case Enqueue(event, _, _) => [event] case _ => []
  }

  /** The buffer keeps the id, the time, the state and the process it was posted. */
  predicate KeptSo(posted: RequestEvent, kept: RequestEvent) {
    && (posted.eventId != "" ==> kept.eventId == posted.eventId) && (posted.at != ZERO_TIME ==> kept.at == posted.at)
    && kept.state == posted.state && (posted.state == "active" ==> kept.process == posted.process)
  }

  ghost predicate AllKept(posted: seq<RequestEvent>, kept: seq<RequestEvent>) {
    |posted| == |kept| && forall i :: 0 <= i < |posted| ==> KeptSo(posted[i], kept[i])
  }

  /** In every run of the protocol what is queued is what was posted, in order. */
  lemma {:induction false} EnqueuedAsPosted(s: Setting, worlds: seq<World>, steps: seq<Step>, n: nat)
    requires IsRun(s, worlds, steps) && n < |worlds|
    ensures AllKept(Posts(steps, n), worlds[n].enqueued)
  {
    hide IsEventId, Accept, Marked, Acceptable;
    if n > 0 {
      EnqueuedAsPosted(s, worlds, steps, n - 1);
      var step := steps[n - 1];
      assert Enabled(worlds[n - 1], step) && worlds[n] == Next(s, worlds[n - 1], step);
      if step.Enqueue? {
        NormalizedKeeps(step.event, step.newId, step.now);
      }
    }
  }

  lemma PostedAndKept(sent: seq<Event>, posted: seq<RequestEvent>, kept: seq<RequestEvent>)
    requires AllPosted(sent, posted) && AllKept(posted, kept)
    ensures AllPosted(sent, kept)
  {
    hide Trim;
    forall i | 0 <= i < |sent| ensures PostedAs(sent[i], kept[i]) {
      assert PostedAs(sent[i], posted[i]) && KeptSo(posted[i], kept[i]);
    }
  }

  /** What is posted and stored counts like what was observed, also without a process name. */
  lemma PostedIsRecorded(sent: seq<Event>, enqueued: seq<RequestEvent>, device: int)
    requires Numbered(enqueued) && AllPosted(sent, enqueued)
    ensures SameRecord(Stream(enqueued, device), sent)
  {
    forall i | 0 <= i < |sent| ensures SameCounted(Entry(enqueued, device, i), sent[i]) {
      assert PostedAs(sent[i], enqueued[i]) && WellFormed(enqueued[i]);
    }
  }

  // ---- from the screen to the report ------------------------------------------

  /** An agent filters what it observes and posts it without an id, the buffer names, numbers and keeps
      what it is sent, and an unreliable upload delivers it. Once nothing is pending, the report on what the
      server fetches for the device is above the report on everything observed, except where the post to the
      service failed, by nothing in exact time and by at most one second per observation the filter dropped,
      and below it by at most one heartbeat for every long gap in the window. */
  lemma ObservedUsageReported(made: seq<Event>, ok: seq<bool>, s: Setting, worlds: seq<World>, steps: seq<Step>,
                              n: nat, fetched: seq<Event>, start: int, end: int, now: int, maxGap: int, who: Who,
                              unit: int)
    requires IsRun(s, worlds, steps) && n < |worlds| && unit > 0
    requires Unsent(worlds[n].buffer.rows) == [] && NewIds(steps)
    requires |ok| == |made| && Ordered(made) && AllPosted(Sent(None, made, ok), Posts(steps, n))
    requires IsFetch(DeviceRows(worlds[n].server, s.device), start, end, fetched)
    ensures var w := Window(start, if now == ZERO_TIME then end else Min(now, end), maxGap);
            var observed := Heard(None, made, ok);
            var reported := Usage(fetched, start, end, now, maxGap, who, unit);
            var all := Usage(observed, start, end, now, maxGap, who, unit);
            && reported - all <= (if unit == 1 then 0 else Dropped(observed, who))
            && all - reported <= GapCost(LongGaps(observed, who, w), unit)
            && (CloseEnough(observed, who, w) ==> all <= reported)
  {
    hide IsFetch, DeviceRows, AllPosted, AllKept, FreshIds;
    var observed := Heard(None, made, ok);
    FailedIsUnheard(None, made, ok);
    HeardOrdered(None, made, ok);
    GeneratedFresh(s, worlds, steps, n);
    DeliveredReport(s, worlds, steps, n, fetched, start, end, now, maxGap, who, unit);
    StreamNumbers(worlds[n].enqueued, s.device);
    EnqueuedAsPosted(s, worlds, steps, n);
    PostedAndKept(Emitted(observed), Posts(steps, n), worlds[n].enqueued);
    PostedIsRecorded(Emitted(observed), worlds[n].enqueued, s.device);
    RecordedUsage(observed, Stream(worlds[n].enqueued, s.device), start, end, now, maxGap, who, unit);
  }

  lemma RecordedUsage(observed: seq<Event>, stream: seq<Event>, start: int, end: int, now: int, maxGap: int,
                      who: Who, unit: int)
    requires unit > 0 && Ordered(observed) && SameRecord(stream, Emitted(observed))
    requires forall k :: 0 <= k < |stream| ==> stream[k].id == stream[k].sequence == k + 1
    ensures var w := Window(start, if now == ZERO_TIME then end else Min(now, end), maxGap);
            var reported := Usage(stream, start, end, now, maxGap, who, unit);
            var all := Usage(observed, start, end, now, maxGap, who, unit);
            && reported - all <= (if unit == 1 then 0 else Dropped(observed, who))
            && all - reported <= GapCost(LongGaps(observed, who, w), unit)
            && (CloseEnough(observed, who, w) ==> all <= reported)
  {
    GapCostAdds(0, unit);
    if |observed| > 0 {
      assert observed == [observed[0]] + observed[1..];
      EmittedOrdered(observed[0], observed[1..]);
    }
    StreamOrdered(stream, Emitted(observed));
    EmissionLosesLittle(observed, stream, start, end, now, maxGap, who, unit);
    CloseIsNoGap(observed, who, Window(start, EffectiveNow(end, now), maxGap));
  }
}
