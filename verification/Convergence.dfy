/** What the configuration loop is for: once the writers are quiet, the next poll brings the client in sync. */
module Convergence {
  import opened Observations
  import opened Fingerprint
  import opened ServerConfig
  import opened LongPoll

  // ---- what the client holds --------------------------------------------------

  /** A configuration a client can take over completely. */
  predicate Sound(c: ClientConfig) {
    && c.idleThreshold > 0 && c.uploadInterval > 0 && c.pollInterval > 0 && c.maxGap > 0
    && (!c.locked ==> c.lockMessage == "" && c.warningSeconds == 0)
  }

  /** The stored version is the fingerprint of the last configuration the client applied, and it
      still runs with that configuration. */
  predicate Holds(w: World, printable: char -> bool) {
    if w.applied.None? then w.version == ""
    else w.version == FingerprintText(w.applied.value, printable) && InSync(w.client, w.applied.value)
  }

  /** Tables read at different moments are each valid, so what is assembled from them is sound;
      and only a request that is willing to wait and names a version is held. */
  ghost predicate SoundPoller(p: Poller) {
    && ValidTables(p.seen)
    && (p.phase.Answered? ==> Sound(p.phase.config))
    && (p.phase.Subscribing? || p.phase.Reading? || p.phase.Blocked? ==> p.wait && p.known != "")
  }

  ghost predicate Consistent(w: World, printable: char -> bool) {
    && ValidTables(w.tables)
    && Holds(w, printable)
    && (forall pid :: pid in w.pollers ==> SoundPoller(w.pollers[pid]))
    && (w.request.Some? ==> w.request.value in w.pollers && w.pollers[w.request.value].known == w.version)
  }

  lemma SoundFinish(w: World, pid: int, printable: char -> bool)
    requires Enabled(w, FinishPoll(pid)) && SoundPoller(w.pollers[pid])
    ensures Holds(Next(w, FinishPoll(pid), printable), printable)
  {
    AppliedInSync(w.client, w.pollers[pid].phase.config);
  }

  /** The steps a held request takes itself. */
  predicate Own(step: Step) {
    step.Subscribe? || step.Read? || step.Compare? || step.Wake? || step.TimeOut?
  }

  lemma SoundMoved(p: Poller, w: World, step: Step, printable: char -> bool)
    requires SoundPoller(p) && ValidTables(w.tables) && Own(step)
    requires Enabled(w, step) && w.pollers[step.pid] == p
    ensures SoundPoller(Moved(p, w, step, printable)) && Moved(p, w, step, printable).known == p.known
  {
  }

  lemma ConsistentNext(w: World, step: Step, printable: char -> bool)
    requires Consistent(w, printable) && Enabled(w, step)
    ensures Consistent(Next(w, step, printable), printable)
  {
    var w' := Next(w, step, printable);
    forall pid | pid in w'.pollers ensures SoundPoller(w'.pollers[pid]) {
      if pid in w.pollers {
        assert SoundPoller(w.pollers[pid]);
        if Own(step) && step.pid == pid {
          SoundMoved(w.pollers[pid], w, step, printable);
        }
      }
    }
    if step.FinishPoll? {
      SoundFinish(w, step.pid, printable);
    }
    if Own(step) && w.request == Some(step.pid) {
      SoundMoved(w.pollers[step.pid], w, step, printable);
    }
  }

  lemma {:induction false} ConsistentAlways(worlds: seq<World>, steps: seq<Step>, printable: char -> bool, n: nat)
    requires IsRun(worlds, steps, printable) && n < |worlds|
    ensures Consistent(worlds[n], printable)
  {
    if n > 0 {
      ConsistentAlways(worlds, steps, printable, n - 1);
      ConsistentNext(worlds[n - 1], steps[n - 1], printable);
    }
  }

  // ---- a poll in quiet times --------------------------------------------------

  /** What the poll `pid` has read so far is what the tables hold, and no writer owes a notification. */
  ghost predicate QuietPoll(w: World, pid: int) {
    && w.committed == 0 && w.request == Some(pid) && pid in w.pollers
    && var p := w.pollers[pid];
       match p.phase
       case FirstRead(n) => SameSoFar(p.seen, w.tables, n)
       case Reading(n) => SameSoFar(p.seen, w.tables, n)
       case Subscribing => true
       case Blocked => p.seen == w.tables
       case Answered(c) => c == Effective(w.tables)
  }

  /** No writer commits, and the client neither restarts nor gives up. */
  predicate Undisturbed(step: Step) {
    !step.Commit? && !step.Restart? && !step.AbandonPoll?
  }

  lemma QuietNext(w: World, step: Step, pid: int, printable: char -> bool)
    requires QuietPoll(w, pid) && GoodPollers(w, printable) && Enabled(w, step) && Undisturbed(step)
    requires step != FinishPoll(pid)
    ensures QuietPoll(Next(w, step, printable), pid) && Next(w, step, printable).tables == w.tables
  {
    var p := w.pollers[pid];
    assert GoodPoller(p, w, printable);
    if step == Read(pid) {
      ReadKeepsSame(p.seen, w.tables, p.phase.done);
    }
  }

  lemma {:induction false} QuietStretch(worlds: seq<World>, steps: seq<Step>, printable: char -> bool,
                                        start: nat, n: nat, pid: int)
    requires IsRun(worlds, steps, printable) && start < n < |worlds|
    requires worlds[start].committed == 0 && steps[start].StartPoll? && steps[start].pid == pid
    requires forall k :: start < k < n ==> Undisturbed(steps[k]) && steps[k] != FinishPoll(pid)
    ensures QuietPoll(worlds[n], pid) && worlds[n].tables == worlds[start].tables
  {
    if n > start + 1 {
      QuietStretch(worlds, steps, printable, start, n - 1, pid);
      GoodAlways(worlds, steps, printable, n - 1);
      QuietNext(worlds[n - 1], steps[n - 1], pid, printable);
    }
  }

  /** The client runs with what the tables say, field by field. */
  predicate Obeys(c: ClientState, t: Tables) {
    && c.locked == t.config.locked
    && c.lockMessage == (if t.config.locked then t.config.lockMessage else "")
    && c.warningSeconds == (if t.config.locked then t.config.warningSeconds else 0)
    && c.idleThreshold == t.config.idleThreshold && c.uploadInterval == t.config.uploadInterval
    && c.pollInterval == t.config.pollInterval && c.maxGap == t.settings.maxGap
    && (c.debugMode <==> t.settings.debugMode || (t.settings.debugUnassigned && !t.device.registered))
  }

  /** Convergence: when every committed change has been notified and no writer commits any more, the
      first poll started from then on, once answered, leaves the client in sync with the server. */
  lemma QuietPollConverges(worlds: seq<World>, steps: seq<Step>, printable: char -> bool,
                           start: nat, finish: nat, pid: int)
    requires IsRun(worlds, steps, printable) && start < finish < |steps|
    requires worlds[start].committed == 0 && steps[start].StartPoll? && steps[start].pid == pid
    requires steps[finish] == FinishPoll(pid)
    requires forall k :: start < k < finish ==> Undisturbed(steps[k]) && steps[k] != FinishPoll(pid)
    ensures InSync(worlds[finish + 1].client, Effective(worlds[finish + 1].tables))
    ensures Obeys(worlds[finish + 1].client, worlds[finish + 1].tables)
    ensures worlds[finish + 1].applied.Some?
            && Tells(ContentsOf(worlds[finish + 1].applied.value), worlds[finish + 1].tables)
    ensures worlds[finish + 1].version == Version(worlds[finish + 1].tables, printable)
  {
    QuietStretch(worlds, steps, printable, start, finish, pid);
    ConsistentAlways(worlds, steps, printable, finish);
    ValidTablesSync(worlds[finish].client, worlds[finish].tables);
    EffectiveTells(worlds[finish].tables);
  }

  /** And where that poll is held instead of answered, there was nothing to learn: in any reachable
      state, a client whose poll is held with its channel open and no notification owed is in sync. */
  lemma HeldPollInSync(worlds: seq<World>, steps: seq<Step>, printable: char -> bool, n: nat, pid: int)
    requires IsRun(worlds, steps, printable) && n < |worlds|
    requires worlds[n].request == Some(pid) && pid in worlds[n].pollers && worlds[n].pollers[pid].phase == Blocked
    requires !Enabled(worlds[n], Wake(pid)) && !Enabled(worlds[n], Notify)
    ensures InSync(worlds[n].client, Effective(worlds[n].tables)) && Obeys(worlds[n].client, worlds[n].tables)
    ensures worlds[n].applied.Some? && Tells(ContentsOf(worlds[n].applied.value), worlds[n].tables)
    ensures worlds[n].version == Version(worlds[n].tables, printable)
  {
    var w := worlds[n];
    GoodAlways(worlds, steps, printable, n);
    ConsistentAlways(worlds, steps, printable, n);
    BlockedIsCurrent(w.pollers[pid], w, printable);
    assert SoundPoller(w.pollers[pid]);
    SyncFollowsFingerprint(w.client, w.applied.value, Effective(w.tables), printable);
    FingerprintDeterminesBody("", w.applied.value, Effective(w.tables), printable);
    EffectiveTells(w.tables);
  }

  // ---- which polls are held ---------------------------------------------------

  lemma {:induction false} WaitKept(worlds: seq<World>, steps: seq<Step>, printable: char -> bool, start: nat, n: nat,
                                    pid: int)
    requires IsRun(worlds, steps, printable) && start < n < |worlds|
    requires worlds[start].committed == 0 && steps[start].StartPoll? && steps[start].pid == pid
    requires forall k :: start < k < n ==> Undisturbed(steps[k]) && steps[k] != FinishPoll(pid)
    ensures worlds[n].request == Some(pid) && pid in worlds[n].pollers
            && worlds[n].pollers[pid].wait == steps[start].wait
  {
    if n > start + 1 {
      WaitKept(worlds, steps, printable, start, n - 1, pid);
      assert Enabled(worlds[n - 1], steps[n - 1]) && worlds[n] == Next(worlds[n - 1], steps[n - 1], printable);
    }
  }

  /** Once a poll in quiet times has read all tables it is held if it is willing to wait and its client has
      the version of these tables already, and otherwise answered at once. */
  lemma HeldExactly(worlds: seq<World>, steps: seq<Step>, printable: char -> bool, start: nat, n: nat, pid: int)
    requires IsRun(worlds, steps, printable) && start < n < |steps|
    requires worlds[start].committed == 0 && steps[start].StartPoll? && steps[start].pid == pid
    requires forall k :: start < k < n ==> Undisturbed(steps[k]) && steps[k] != FinishPoll(pid)
    requires steps[n] == Compare(pid) && worlds[n].pollers[pid].phase.FirstRead?
    ensures pid in worlds[n + 1].pollers
    ensures worlds[n + 1].pollers[pid].phase
         == if steps[start].wait && worlds[n].version != "" && worlds[n].version == Version(worlds[n].tables, printable)
            then Subscribing else Answered(Effective(worlds[n].tables))
  {
    WaitKept(worlds, steps, printable, start, n, pid);
    QuietStretch(worlds, steps, printable, start, n, pid);
    ConsistentAlways(worlds, steps, printable, n);
    assert Enabled(worlds[n], steps[n]) && worlds[n + 1] == Next(worlds[n], steps[n], printable);
  }
}
