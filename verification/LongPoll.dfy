/** The configuration loop: writers commit and then notify, pollers subscribe and then read
    table by table, and a client polls and applies, all interleaved step by step. */
module LongPoll {
  import opened Observations
  import opened Fingerprint
  import opened ServerConfig

  /** The broadcast: one open channel at a time, numbered; notifying closes it and opens the next. */
  class ConfigNotifier {
    var channel: nat

    constructor ()
      ensures channel == 0
    {
      channel := 0;
    }

    method Subscribe() returns (c: nat)
      ensures c == channel && !IsClosed(c)
    {
      c := channel;
    }

    predicate IsClosed(c: nat) reads this { c < channel }

    method Notify()
      modifies this
      ensures channel == old(channel) + 1
      ensures forall c: nat :: c <= old(channel) ==> IsClosed(c)
    {
      channel := channel + 1;
    }
  }

  /** How many of the six tables a reading takes. */
  const READS: nat := 6

  /** The request reads once; if nothing is new it waits: subscribe, read, compare, block. */
  datatype Phase =
    | FirstRead(done: nat)
    | Subscribing
    | Reading(done: nat)
    | Blocked
    | Answered(config: ClientConfig)

  datatype Poller = Poller(known: string, wait: bool, phase: Phase, sub: nat, seen: Tables, turns: nat, arrived: nat)

  /** `committed` counts writers that have committed and not yet notified; `applied` is the
      configuration whose fingerprint the client keeps as `version`. */
  datatype World = World(
    tables: Tables,
    channel: nat,
    committed: nat,
    pollers: map<int, Poller>,
    client: ClientState,
    version: string,
    applied: Option<ClientConfig>,
    request: Option<int>
  )

  datatype Step =
    | Commit(tables: Tables)
    | Notify
    | Arrive(pid: int, known: string, wait: bool)
    | Subscribe(pid: int)
    | Read(pid: int)
    | Compare(pid: int)
    | Wake(pid: int)
    | TimeOut(pid: int)
    | Leave(pid: int)
    | StartPoll(pid: int, wait: bool)
    | FinishPoll(pid: int)
    | AbandonPoll
    | Restart(saved: ClientState)

  /** Reading table number k. */
  function ReadTable(seen: Tables, t: Tables, k: nat): Tables {
    match k
    case 0 => seen.(device := t.device)
    case 1 => seen.(config := t.config)
    case 2 => seen.(settings := t.settings)
    case 3 => seen.(categories := t.categories)
    case 4 => seen.(versions := t.versions)
    case _ => seen.(warningSound := t.warningSound)
  }

  /** The first n tables agree. */
  predicate SameSoFar(seen: Tables, t: Tables, n: nat) {
    && (n > 0 ==> seen.device == t.device) && (n > 1 ==> seen.config == t.config)
    && (n > 2 ==> seen.settings == t.settings) && (n > 3 ==> seen.categories == t.categories)
    && (n > 4 ==> seen.versions == t.versions) && (n > 5 ==> seen.warningSound == t.warningSound)
  }

  function Version(t: Tables, printable: char -> bool): string {
    FingerprintText(Effective(t), printable)
  }

  function NewPoller(w: World, known: string, wait: bool): Poller {
    Poller(known, wait, FirstRead(0), 0, w.tables, 0, w.channel)
  }

  ghost predicate Enabled(w: World, step: Step) {
    match step
    case Commit(t) => ValidTables(t)
    case Notify => w.committed > 0
    case Arrive(pid, _, _) => pid !in w.pollers
    case Subscribe(pid) => pid in w.pollers && w.pollers[pid].phase == Subscribing
    case Read(pid) =>
      pid in w.pollers && (w.pollers[pid].phase.FirstRead? || w.pollers[pid].phase.Reading?)
          && w.pollers[pid].phase.done < READS
    case Compare(pid) =>
      pid in w.pollers && (w.pollers[pid].phase == FirstRead(READS) || w.pollers[pid].phase == Reading(READS))
    case Wake(pid) => pid in w.pollers && w.pollers[pid].phase == Blocked && w.pollers[pid].sub < w.channel
    case TimeOut(pid) => pid in w.pollers && w.pollers[pid].phase == Blocked
    case Leave(pid) => pid in w.pollers && w.request != Some(pid)
    case StartPoll(pid, _) => w.request.None? && pid !in w.pollers
    case FinishPoll(pid) => w.request == Some(pid) && pid in w.pollers && w.pollers[pid].phase.Answered?
    case AbandonPoll => w.request.Some?
    case Restart(_) => true
  }

  function Moved(p: Poller, w: World, step: Step, printable: char -> bool): Poller {
    match step
    case Subscribe(_) => p.(phase := Reading(0), sub := w.channel, turns := p.turns + 1)
    case Read(_) =>
      (match p.phase
       case FirstRead(n) => p.(phase := FirstRead(n + 1), seen := ReadTable(p.seen, w.tables, n))
       case Reading(n) => p.(phase := Reading(n + 1), seen := ReadTable(p.seen, w.tables, n))
       case _ => p)
    case Compare(_) =>
      if p.phase.FirstRead? then
        if p.wait && p.known != "" && Version(p.seen, printable) == p.known then p.(phase := Subscribing)
        else p.(phase := Answered(Effective(p.seen)))
      else if Version(p.seen, printable) != p.known then p.(phase := Answered(Effective(p.seen)))
      else p.(phase := Blocked)
    case Wake(_) => p.(phase := Subscribing)
    case TimeOut(_) => p.(phase := Answered(Effective(p.seen)))
    case _ => p
  }

  ghost function Next(w: World, step: Step, printable: char -> bool): World
    requires Enabled(w, step)
  {
    match step
    case Commit(t) => w.(tables := t, committed := w.committed + 1)
    case Notify => w.(channel := w.channel + 1, committed := w.committed - 1)
    case Arrive(pid, known, wait) => w.(pollers := w.pollers[pid := NewPoller(w, known, wait)])
    case Leave(pid) => w.(pollers := w.pollers - {pid})
    case StartPoll(pid, wait) =>
      w.(pollers := w.pollers[pid := NewPoller(w, w.version, wait)], request := Some(pid))
    case FinishPoll(pid) =>
      var c := w.pollers[pid].phase.config;
      w.(pollers := w.pollers - {pid}, request := None, version := FingerprintText(c, printable),
         applied := Some(c), client := Applied(w.client, ResponseOf(c)))
    case AbandonPoll => w.(request := None)
    case Restart(saved) => w.(request := None, version := "", applied := None, client := saved)
    case _ => w.(pollers := w.pollers[step.pid := Moved(w.pollers[step.pid], w, step, printable)])
  }

  ghost predicate IsRun(worlds: seq<World>, steps: seq<Step>, printable: char -> bool) {
    && |worlds| == |steps| + 1
    && worlds[0].pollers == map[] && worlds[0].request == None && worlds[0].version == "" && worlds[0].applied == None
    && worlds[0].committed == 0
    && ValidTables(worlds[0].tables)
    && forall i :: 0 <= i < |steps| ==>
         Enabled(worlds[i], steps[i]) && worlds[i + 1] == Next(worlds[i], steps[i], printable)
  }

  // ---- no lost wakeup ---------------------------------------------------------

  /** As long as the poller's channel is open and no writer owes a notification, what it has
      read is still what the tables hold; and its turns are counted by the closed channels. */
  predicate GoodPoller(p: Poller, w: World, printable: char -> bool) {
    && p.arrived <= w.channel && p.sub <= w.channel
    && (p.phase.Reading? || p.phase.Blocked? ==>
          && p.arrived <= p.sub && 1 <= p.turns <= 1 + p.sub - p.arrived
          && (p.sub == w.channel && w.committed == 0 ==>
                SameSoFar(p.seen, w.tables, if p.phase.Reading? then p.phase.done else READS)))
    && (p.phase.Reading? || p.phase.FirstRead? ==> p.phase.done <= READS)
    && (p.phase.FirstRead? ==> p.turns == 0)
    && (p.phase.Blocked? ==> Version(p.seen, printable) == p.known)
    && (p.phase.Subscribing? ==> p.turns <= w.channel - p.arrived)
    && (p.phase.Answered? ==> p.turns <= 1 + w.channel - p.arrived)
  }

  ghost predicate GoodPollers(w: World, printable: char -> bool) {
    forall pid :: pid in w.pollers ==> GoodPoller(w.pollers[pid], w, printable)
  }

  lemma ReadKeepsSame(seen: Tables, t: Tables, n: nat)
    requires n < READS && SameSoFar(seen, t, n)
    ensures SameSoFar(ReadTable(seen, t, n), t, n + 1)
  {
  }

  lemma MovedGood(p: Poller, w: World, step: Step, printable: char -> bool)
    requires GoodPoller(p, w, printable)
             && (step.Subscribe? || step.Read? || step.Compare? || step.Wake? || step.TimeOut?)
    requires step.pid in w.pollers && w.pollers[step.pid] == p && Enabled(w, step)
    ensures GoodPoller(Moved(p, w, step, printable), w, printable)
  {
    if step.Read? && p.phase.Reading? && SameSoFar(p.seen, w.tables, p.phase.done) {
      ReadKeepsSame(p.seen, w.tables, p.phase.done);
    }
  }

  lemma GoodNext(w: World, step: Step, printable: char -> bool)
    requires GoodPollers(w, printable) && Enabled(w, step)
    ensures GoodPollers(Next(w, step, printable), printable)
  {
    var w' := Next(w, step, printable);
    forall pid | pid in w'.pollers ensures GoodPoller(w'.pollers[pid], w', printable) {
      if pid in w.pollers {
        assert GoodPoller(w.pollers[pid], w, printable);
        if (step.Subscribe? || step.Read? || step.Compare? || step.Wake? || step.TimeOut?) && step.pid == pid {
          MovedGood(w.pollers[pid], w, step, printable);
        }
      }
    }
  }

  lemma {:induction false} GoodAlways(worlds: seq<World>, steps: seq<Step>, printable: char -> bool, n: nat)
    requires IsRun(worlds, steps, printable) && n < |worlds|
    ensures GoodPollers(worlds[n], printable)
  {
    if n > 0 {
      GoodAlways(worlds, steps, printable, n - 1);
      GoodNext(worlds[n - 1], steps[n - 1], printable);
    }
  }

  lemma BlockedIsCurrent(p: Poller, w: World, printable: char -> bool)
    requires GoodPoller(p, w, printable) && p.phase.Blocked?
    ensures p.sub == w.channel && w.committed == 0 ==> p.seen == w.tables && p.known == Version(w.tables, printable)
  {
  }

  /** In every interleaving: a blocked poller whose known version is not the current one has a
      closed channel to wake it, or a writer still owes the notification. */
  lemma NoLostWakeup(worlds: seq<World>, steps: seq<Step>, printable: char -> bool, n: nat, pid: int)
    requires IsRun(worlds, steps, printable) && n < |worlds|
    requires pid in worlds[n].pollers && worlds[n].pollers[pid].phase == Blocked
    requires worlds[n].pollers[pid].known != Version(worlds[n].tables, printable)
    ensures Enabled(worlds[n], Wake(pid)) || Enabled(worlds[n], Notify)
  {
    GoodAlways(worlds, steps, printable, n);
    BlockedIsCurrent(worlds[n].pollers[pid], worlds[n], printable);
  }

  /** A poller never takes more turns of its loop than there were notifications since it arrived, plus one. */
  lemma TurnsBounded(worlds: seq<World>, steps: seq<Step>, printable: char -> bool, n: nat, pid: int)
    requires IsRun(worlds, steps, printable) && n < |worlds| && pid in worlds[n].pollers
    ensures worlds[n].pollers[pid].turns <= 1 + worlds[n].channel - worlds[n].pollers[pid].arrived
  {
    GoodAlways(worlds, steps, printable, n);
  }
}
