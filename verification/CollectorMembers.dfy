/** One run over all members with the state they share: the record of a member is advanced in memory
    before its events are posted, and whoever posts successfully writes everybody's record. */
module CollectorMembers {
  import opened Observations
  import opened Intake
  import opened Tape
  import opened Collector
  import opened CollectorRuns

  type States = map<string, map<int, map<string, nat>>>

  /** A member's turn: what was scraped, if that worked, and how many events the network lets through. */
  datatype MemberRun = MemberRun(member: string, scraped: Option<seq<DayUsage>>, posted: nat)

  function SentOf(s: States, member: string): map<int, map<string, nat>> {
    if member in s then s[member] else map[]
  }

  function PruneAll(s: States, cutoff: int): States {
    map m | m in s :: Prune(s[m], cutoff)
  }

  /** The record in memory and the one in the file. */
  datatype Record = Record(memory: States, file: States)

  ghost function EventsOf(c: Calendar, s: States, run: MemberRun): seq<RequestEvent> {
    if run.scraped.None? then [] else RunEvents(run.member, c, SentOf(s, run.member), run.scraped.value)
  }

  /** The turn ends with writing the state. */
  ghost predicate Saves(c: Calendar, s: States, run: MemberRun) {
    EventsOf(c, s, run) != [] && run.posted >= |EventsOf(c, s, run)|
  }

  ghost function Turn(c: Calendar, r: Record, run: MemberRun, cutoff: int): Record {
    if run.scraped.None? then r
    else
      var advanced := r.memory[run.member := RunSent(SentOf(r.memory, run.member), run.scraped.value)];
      if Saves(c, r.memory, run) then Record(PruneAll(advanced, cutoff), PruneAll(advanced, cutoff))
      else r.(memory := advanced)
  }

  ghost function Turns(c: Calendar, r: Record, runs: seq<MemberRun>, cutoff: int): Record {
    if |runs| == 0 then r
    else Turn(c, Turns(c, r, runs[..|runs| - 1], cutoff), runs[|runs| - 1], cutoff)
  }

  ghost predicate SavesAt(c: Calendar, r: Record, runs: seq<MemberRun>, cutoff: int, k: nat)
    requires k < |runs|
  {
    Saves(c, Turns(c, r, runs[..k], cutoff).memory, runs[k])
  }

  ghost predicate SomebodySaves(c: Calendar, r: Record, runs: seq<MemberRun>, cutoff: int) {
    exists k: nat :: k < |runs| && SavesAt(c, r, runs, cutoff, k)
  }

  ghost predicate OtherMembers(runs: seq<MemberRun>) {
    forall i, j :: 0 <= i < j < |runs| ==> runs[i].member != runs[j].member
  }

  class MemberStates {
    var memory: States
    var file: States

    ghost function State(): Record reads this { Record(memory, file) }

    /** A run begins with what the file holds. */
    constructor (file: States)
      ensures State() == Record(file, file)
    {
      this.memory, this.file := file, file;
    }

    /** The turn of one member; `sent` are the events that got through. */
    method RunMember(c: Calendar, run: MemberRun, cutoff: int) returns (sent: seq<RequestEvent>)
      modifies this
      ensures State() == Turn(c, old(State()), run, cutoff)
      ensures var events := EventsOf(c, old(memory), run);
              if events != [] && run.posted >= |events|
              then file == memory && forall m, d :: m in file && d in file[m] ==> d >= cutoff
              else file == old(file)
      ensures sent == EventsOf(c, old(memory), run)[..Min(run.posted, |EventsOf(c, old(memory), run)|)]
    {
      sent := [];
      if run.scraped.None? {
        return;
      }
      var collector := new MemberCollector();
      collector.saved := SentOf(memory, run.member);
      var record, events := collector.LayOut(run.member, c, run.scraped.value);
      memory := memory[run.member := record];
      sent := events[..Min(run.posted, |events|)];
      if events == [] || run.posted < |events| {
        return;
      }
      memory := PruneAll(memory, cutoff);
      file := memory;
    }

    /** One member's failure does not keep the others from their turn. */
    method RunAll(c: Calendar, runs: seq<MemberRun>, cutoff: int)
      modifies this
      ensures State() == Turns(c, old(State()), runs, cutoff)
    {
      for i := 0 to |runs|
        invariant State() == Turns(c, old(State()), runs[..i], cutoff)
      {
        assert runs[..i + 1][..i] == runs[..i];
        var sent := RunMember(c, runs[i], cutoff);
      }
      assert runs[..|runs|] == runs;
    }
  }

  /** A turn that saves writes the record in memory, and leaves no day before the cutoff to anybody. */
  lemma SaveForgets(c: Calendar, r: Record, run: MemberRun, cutoff: int)
    requires Saves(c, r.memory, run)
    ensures var r' := Turn(c, r, run, cutoff);
            && r'.file == r'.memory
            && (forall m, d :: m in r'.file && d in r'.file[m] ==> d >= cutoff)
            && (forall m :: m in r'.file <==> m in r.memory || m == run.member)
  {
    hide RunEvents, RunSent;
  }

  // ---- what becomes of a failed member ----------------------------------------

  /** Nobody else's turn touches a member's record, except that it may be pruned. */
  ghost predicate Alike(a: map<int, map<string, nat>>, b: map<int, map<string, nat>>, cutoff: int) {
    forall d :: d >= cutoff ==> SentOn(a, d) == SentOn(b, d)
  }

  /** The turn is not the member's, or nothing could be scraped. */
  predicate Passes(run: MemberRun, member: string) { run.member != member || run.scraped.None? }

  lemma OthersTurn(c: Calendar, r: Record, run: MemberRun, cutoff: int, member: string)
    requires Passes(run, member)
    ensures var r' := Turn(c, r, run, cutoff);
            && Alike(SentOf(r'.memory, member), SentOf(r.memory, member), cutoff)
            && (if Saves(c, r.memory, run) then r'.file == r'.memory else r'.file == r.file)
  {
    hide RunEvents, RunSent;
  }

  lemma {:induction false} TurnsBefore(c: Calendar, r: Record, runs: seq<MemberRun>, cutoff: int, member: string)
    requires r.memory == r.file && forall k :: 0 <= k < |runs| ==> Passes(runs[k], member)
    ensures var r' := Turns(c, r, runs, cutoff);
            && Alike(SentOf(r'.memory, member), SentOf(r.memory, member), cutoff)
            && Alike(SentOf(r'.file, member), SentOf(r.file, member), cutoff)
  {
    hide Turn, Saves;
    if |runs| > 0 {
      var front := runs[..|runs| - 1];
      TurnsBefore(c, r, front, cutoff, member);
      OthersTurn(c, Turns(c, r, front, cutoff), runs[|runs| - 1], cutoff, member);
    }
  }

  /** After a member's turn its record in the file is the one in memory as soon as anybody saves. */
  lemma {:induction false} TurnsAfter(c: Calendar, r: Record, runs: seq<MemberRun>, cutoff: int, member: string)
    requires forall k :: 0 <= k < |runs| ==> Passes(runs[k], member)
    ensures var r' := Turns(c, r, runs, cutoff);
            && Alike(SentOf(r'.memory, member), SentOf(r.memory, member), cutoff)
            && Alike(SentOf(r'.file, member),
                     SentOf(if SomebodySaves(c, r, runs, cutoff) then r.memory else r.file, member), cutoff)
  {
    hide Turn, Saves;
    if |runs| > 0 {
      var front, last := runs[..|runs| - 1], runs[|runs| - 1];
      TurnsAfter(c, r, front, cutoff, member);
      OthersTurn(c, Turns(c, r, front, cutoff), last, cutoff, member);
      forall k: nat | k < |front| ensures SavesAt(c, r, front, cutoff, k) <==> SavesAt(c, r, runs, cutoff, k) {
        assert front[..k] == runs[..k];
      }
      assert SavesAt(c, r, runs, cutoff, |front|) <==> Saves(c, Turns(c, r, front, cutoff).memory, last);
    }
  }

  lemma {:induction false} TurnsSplit(c: Calendar, r: Record, a: seq<MemberRun>, b: seq<MemberRun>, cutoff: int)
    ensures Turns(c, r, a + b, cutoff) == Turns(c, Turns(c, r, a, cutoff), b, cutoff)
  {
    if |b| == 0 {
      assert a + b == a;
    } else {
      assert (a + b)[..|a + b| - 1] == a + b[..|b| - 1];
      TurnsSplit(c, r, a, b[..|b| - 1], cutoff);
    }
  }

  /** A run depends on the records of its days only. */
  lemma {:induction false} SameRecords(member: string, c: Calendar, a: map<int, map<string, nat>>,
                                       b: map<int, map<string, nat>>, usage: seq<DayUsage>, horizon: int)
    requires Alike(a, b, horizon) && ValidUsage(c, usage, horizon)
    ensures RunEvents(member, c, a, usage) == RunEvents(member, c, b, usage)
    ensures Alike(RunSent(a, usage), RunSent(b, usage), horizon)
  {
    hide TapeOf, Deltas, Grow;
    if |usage| > 0 {
      var front, u := usage[..|usage| - 1], usage[|usage| - 1];
      ValidUsageFront(c, usage, horizon);
      SameRecords(member, c, a, b, front, horizon);
      var m, n := RunSent(a, front), RunSent(b, front);
      assert SentOn(m, u.day) == SentOn(n, u.day);
      forall d | d >= horizon ensures SentOn(RunSent(a, usage), d) == SentOn(RunSent(b, usage), d) {
        assert SentOn(m, d) == SentOn(n, d);
      }
    }
  }

  /** Nothing scraped exceeds the day's record. */
  ghost predicate Known(daySent: map<string, nat>, apps: seq<Scraped>) {
    forall x :: x in apps ==> x.total <= GetTotal(daySent, x.app)
  }

  lemma {:induction false} KnownAddsNothing(daySent: map<string, nat>, apps: seq<Scraped>)
    requires Known(daySent, apps)
    ensures Grow(daySent, apps) == daySent && Deltas(daySent, apps) == []
  {
    if |apps| > 0 {
      assert apps[|apps| - 1] in apps;
      KnownAddsNothing(daySent, apps[..|apps| - 1]);
    }
  }

  lemma {:induction false} GrowKnows(daySent: map<string, nat>, apps: seq<Scraped>)
    ensures Known(Grow(daySent, apps), apps)
    ensures forall app :: GetTotal(daySent, app) <= GetTotal(Grow(daySent, apps), app)
  {
    if |apps| > 0 {
      GrowKnows(daySent, apps[..|apps| - 1]);
    }
  }

  lemma {:induction false} RunKnows(c: Calendar, sent: map<int, map<string, nat>>, usage: seq<DayUsage>, horizon: int,
                                    k: nat)
    requires ValidUsage(c, usage, horizon) && k < |usage|
    ensures Known(SentOn(RunSent(sent, usage), usage[k].day), usage[k].apps)
  {
    hide Known, Grow;
    var front, u := usage[..|usage| - 1], usage[|usage| - 1];
    ValidUsageFront(c, usage, horizon);
    if k < |front| {
      RunKnows(c, sent, front, horizon, k);
      assert usage[k].day != u.day;
    } else {
      GrowKnows(SentOn(RunSent(sent, front), u.day), u.apps);
    }
  }

  lemma {:induction false} KnownRunIsEmpty(member: string, c: Calendar, sent: map<int, map<string, nat>>,
                                           usage: seq<DayUsage>)
    requires forall k :: 0 <= k < |usage| ==> Known(SentOn(sent, usage[k].day), usage[k].apps)
    ensures RunEvents(member, c, sent, usage) == []
  {
    hide Known;
    if |usage| > 0 {
      var front, u := usage[..|usage| - 1], usage[|usage| - 1];
      assert forall k :: 0 <= k < |front| ==> front[k] == usage[k];
      KnownRunIsEmpty(member, c, sent, front);
      QuietRun(member, c, sent, front);
      KnownAddsNothing(SentOn(sent, u.day), u.apps);
    }
  }

  /** Scraping the same totals again adds nothing to a record that has been advanced. */
  lemma AdvancedIsQuiet(member: string, c: Calendar, sent: map<int, map<string, nat>>, usage: seq<DayUsage>,
                        horizon: int)
    requires ValidUsage(c, usage, horizon)
    ensures RunEvents(member, c, RunSent(sent, usage), usage) == []
  {
    forall k | 0 <= k < |usage| ensures Known(SentOn(RunSent(sent, usage), usage[k].day), usage[k].apps) {
      RunKnows(c, sent, usage, horizon, k);
    }
    KnownRunIsEmpty(member, c, RunSent(sent, usage), usage);
  }

  // ---- whether a failed post is made up for -----------------------------------

  /** Somebody after turn i saves. */
  ghost predicate SavedLater(c: Calendar, r: Record, runs: seq<MemberRun>, cutoff: int, i: nat)
    requires i < |runs|
  {
    SomebodySaves(c, Turns(c, r, runs[..i + 1], cutoff), runs[i + 1..], cutoff)
  }

  /** What the file holds in the end about a member that was scraped. */
  lemma RecordAfter(c: Calendar, file: States, runs: seq<MemberRun>, cutoff: int, i: nat)
    requires OtherMembers(runs) && i < |runs| && runs[i].scraped.Some?
    requires ValidUsage(c, runs[i].scraped.value, cutoff)
    ensures var r, sent := Record(file, file), SentOf(file, runs[i].member);
            Alike(SentOf(Turns(c, r, runs, cutoff).file, runs[i].member),
                  if SavesAt(c, r, runs, cutoff, i) || SavedLater(c, r, runs, cutoff, i)
                  then RunSent(sent, runs[i].scraped.value) else sent, cutoff)
  {
    hide RunEvents, RunSent, ValidUsage, Saves;
    var r, run := Record(file, file), runs[i];
    var before, behind := runs[..i], runs[i + 1..];
    var a := Turns(c, r, before, cutoff);
    TurnsBefore(c, r, before, cutoff, run.member);
    assert runs[..i + 1] == before + [run] && (before + [run])[..i] == before;
    var b := Turns(c, r, runs[..i + 1], cutoff);
    assert b == Turn(c, a, run, cutoff);
    SameRecords(run.member, c, SentOf(a.memory, run.member), SentOf(file, run.member), run.scraped.value, cutoff);
    assert runs == runs[..i + 1] + behind;
    TurnsSplit(c, r, runs[..i + 1], behind, cutoff);
    TurnsAfter(c, b, behind, cutoff, run.member);
  }

  /** A member's post fails. If a later member of the same run saves, the failed member's record is written
      as if everything had been posted: scraping the same totals again posts nothing, and what the failed
      post left out never reaches the server. Otherwise the same events are posted again. */
  lemma FailedPost(c: Calendar, file: States, runs: seq<MemberRun>, cutoff: int, i: nat)
    requires OtherMembers(runs) && i < |runs| && runs[i].scraped.Some?
    requires ValidUsage(c, runs[i].scraped.value, cutoff)
    requires runs[i].posted < |EventsOf(c, file, runs[i])|
    ensures var r := Record(file, file);
            EventsOf(c, Turns(c, r, runs, cutoff).file, runs[i])
            == if SavedLater(c, r, runs, cutoff, i) then [] else EventsOf(c, file, runs[i])
  {
    hide RunEvents, RunSent, ValidUsage;
    var r, run, usage := Record(file, file), runs[i], runs[i].scraped.value;
    var sent := SentOf(file, run.member);
    TurnsBefore(c, r, runs[..i], cutoff, run.member);
    SameRecords(run.member, c, SentOf(Turns(c, r, runs[..i], cutoff).memory, run.member), sent, usage, cutoff);
    RecordAfter(c, file, runs, cutoff, i);
    var later := SavedLater(c, r, runs, cutoff, i);
    SameRecords(run.member, c, SentOf(Turns(c, r, runs, cutoff).file, run.member),
                if later then RunSent(sent, usage) else sent, usage, cutoff);
    AdvancedIsQuiet(run.member, c, sent, usage, cutoff);
  }

  lemma OneAppRun(member: string, c: Calendar, day: int, app: string, x: nat)
    requires x > 0
    ensures RunEvents(member, c, map[], [DayUsage(day, [Scraped(app, x)])]) != []
  {
    var usage, apps := [DayUsage(day, [Scraped(app, x)])], [Scraped(app, x)];
    assert usage[..|usage| - 1] == [] && apps[..|apps| - 1] == [];
    assert Deltas(map[], []) == [] && Grow(map[], []) == map[] && RunSent(map[], []) == map[];
    assert Deltas(map[], apps) == [Append(app, x)];
    assert |Piece(Reel(member, c, day), Append(app, x), SumNat(map[]))| > 0;
  }

  lemma OneTurn(c: Calendar, r: Record, run: MemberRun, cutoff: int)
    ensures Turns(c, r, [run], cutoff) == Turn(c, r, run, cutoff)
  {
    var one := [run];
    assert one[..|one| - 1] == [] && one[|one| - 1] == run;
  }

  /** Two members with the same totals: the first fails to post anything, the second posts it all. */
  function FirstFails(member: string, usage: seq<DayUsage>): MemberRun { MemberRun(member, Some(usage), 0) }

  ghost function SecondPosts(c: Calendar, other: string, usage: seq<DayUsage>): MemberRun {
    MemberRun(other, Some(usage), |RunEvents(other, c, map[], usage)|)
  }

  lemma SecondSaves(c: Calendar, member: string, other: string, usage: seq<DayUsage>, cutoff: int)
    requires member != other && RunEvents(other, c, map[], usage) != []
    ensures var runs, r := [FirstFails(member, usage), SecondPosts(c, other, usage)], Record(map[], map[]);
            SavedLater(c, r, runs, cutoff, 0) && SavesAt(c, r, runs, cutoff, 1)
  {
    hide RunEvents, RunSent;
    var first, second := FirstFails(member, usage), SecondPosts(c, other, usage);
    var runs, r := [first, second], Record(map[], map[]);
    assert runs[..1] == [first] && runs[1..] == [second] && [first][..0] == [] && [second][..0] == [];
    var a := Turns(c, r, [first], cutoff);
    OneTurn(c, r, first, cutoff);
    assert SentOf(a.memory, other) == map[];
    assert SavesAt(c, a, [second], cutoff, 0);
  }

  /** It happens: the second member's saving records the first's events as posted. */
  lemma LostForGood(c: Calendar, member: string, other: string, day: int, app: string, x: nat, cutoff: int)
    requires member != other && x > 0 && c.Has(day) && day >= cutoff && ValidApp(app)
    ensures var usage := [DayUsage(day, [Scraped(app, x)])];
            var first := FirstFails(member, usage);
            && EventsOf(c, map[], first) != []
            && EventsOf(c, Turns(c, Record(map[], map[]), [first, SecondPosts(c, other, usage)], cutoff).file, first)
               == []
  {
    hide RunEvents, RunSent;
    var usage := [DayUsage(day, [Scraped(app, x)])];
    OneAppRun(member, c, day, app, x);
    OneAppRun(other, c, day, app, x);
    SecondSaves(c, member, other, usage, cutoff);
    FailedPost(c, map[], [FirstFails(member, usage), SecondPosts(c, other, usage)], cutoff, 0);
  }
}
