/** The macOS agent's lock warning: an actor whose turns apply the lock order and whose countdown
    tasks run in segments between them. */
module WarningActor {
  import opened Decimals
  import opened LockHistory
  import opened Observations

  // ---- the screen -------------------------------------------------------------

  /** The lock overlay with its message, the warning banner, and the looping sound. */
  datatype Screen = Screen(shown: bool, message: string, debugShown: bool, banner: Option<(string, int)>, audio: bool)

  const BLANK := Screen(false, "", false, None, false)

  function ShowLock(s: Screen, message: string, debug: bool): Screen {
    if s.shown then s.(message := message, debugShown := debug)
    else Screen(true, message, debug, None, s.audio)
  }

  function ShowWarning(s: Screen, message: string, remaining: int): Screen {
    if s.shown then s else s.(banner := Some((message, remaining)))
  }

  function HideWarning(s: Screen): Screen {
    s.(audio := false, banner := None)
  }

  // ---- the actor --------------------------------------------------------------

  datatype Phase = NotStarted | Sleeping(remaining: int) | Done

  datatype Task = Task(seconds: int, message: string, sound: bool, phase: Phase, cancelled: bool)

  /** What the lock signature is made from. */
  datatype Intent = Intent(locked: bool, seconds: int, warned: bool, debug: bool, message: string)

  /** The actor's fields; `tasks` holds every countdown ever started, in order, and `last` the intent
      behind the last signature acted upon. */
  datatype Actor = Actor(
    warned: bool,
    warningTask: Option<nat>,
    last: Option<Intent>,
    debug: bool,
    screen: Screen,
    tasks: seq<Task>
  )

  const START := Actor(false, None, None, false, BLANK, [])

  function Flag(b: bool): string { if b then "true" else "false" }

  function Signature(i: Intent): string {
    Flag(i.locked)
    + ("|" + (Number(i.seconds) + ("|" + (Flag(i.warned) + ("|" + (Flag(i.debug) + ("|" + i.message)))))))
  }

  lemma FlagThen(a: bool, b: bool, x: string, y: string)
    requires Flag(a) + ("|" + x) == Flag(b) + ("|" + y)
    ensures a == b && x == y
  {
    assert (Flag(a) + ("|" + x))[0] == Flag(a)[0] && (Flag(b) + ("|" + y))[0] == Flag(b)[0];
    SplitEqual(Flag(a), Flag(b), "|" + x, "|" + y);
    SplitEqual("|", "|", x, y);
  }

  /** Two intents have the same signature only if they are the same, whatever their messages contain. */
  lemma SignatureInjective(a: Intent, b: Intent)
    requires Signature(a) == Signature(b)
    ensures a == b
  {
    var a3, b3 := Flag(a.debug) + ("|" + a.message), Flag(b.debug) + ("|" + b.message);
    var a2, b2 := Flag(a.warned) + ("|" + a3), Flag(b.warned) + ("|" + b3);
    FlagThen(a.locked, b.locked, Number(a.seconds) + ("|" + a2), Number(b.seconds) + ("|" + b2));
    NumberThen(a.seconds, b.seconds, '|', a2, b2);
    FlagThen(a.warned, b.warned, a3, b3);
    FlagThen(a.debug, b.debug, a.message, b.message);
  }

  predicate Named(s: Actor) {
    s.warningTask.Some? ==> s.warningTask.value < |s.tasks|
  }

  function IntentOf(s: Actor, o: Order): Intent {
    Intent(o.locked, o.seconds, s.warned, o.debug, o.message)
  }

  /** Acting upon the order. */
  function Transition(s: Actor, o: Order): Actor
    requires Named(s)
  {
    if !o.locked then
      var tasks := if s.warningTask.None? then s.tasks
                   else s.tasks[s.warningTask.value := s.tasks[s.warningTask.value].(cancelled := true)];
      s.(warned := false, warningTask := None, tasks := tasks,
         screen := if s.screen.shown then BLANK else HideWarning(s.screen))
    else if o.seconds <= 0 || s.warned then
      s.(screen := ShowLock(HideWarning(s.screen), o.message, o.debug))
    else if s.warningTask.None? then
      s.(warningTask := Some(|s.tasks|), tasks := s.tasks + [Task(o.seconds, o.message, o.sound, NotStarted, false)])
    else s
  }

  /** One turn: an order whose signature was the last one acted upon is skipped. */
  function Applied(s: Actor, o: Order): Actor
    requires Named(s)
  {
    var now := s.(debug := o.debug);
    if s.last == Some(IntentOf(s, o)) then now
    else Transition(now.(last := Some(IntentOf(s, o))), o)
  }

  /** The head of a countdown's loop, reached when it starts and after every second of sleep. */
  function Turn(s: Actor, id: nat, remaining: int): Actor
    requires Named(s) && id < |s.tasks|
  {
    var t := s.tasks[id];
    if t.cancelled then
      s.(tasks := s.tasks[id := t.(phase := Done)], screen := HideWarning(s.screen))
    else if remaining > 0 then
      s.(tasks := s.tasks[id := t.(phase := Sleeping(remaining))],
         screen := ShowWarning(s.screen, t.message, remaining))
    else
      s.(tasks := s.tasks[id := t.(phase := Done)], warned := true, warningTask := None,
         screen := ShowLock(HideWarning(s.screen), t.message, s.debug))
  }

  /** A countdown runs up to its next sleep or its end. */
  function Resumed(s: Actor, id: nat): Actor
    requires Named(s)
  {
    if id >= |s.tasks| then s
    else
      match s.tasks[id].phase
      case NotStarted =>
        Turn(if s.tasks[id].sound then s.(screen := s.screen.(audio := true)) else s, id, s.tasks[id].seconds)
      case Sleeping(remaining) => Turn(s, id, remaining - 1)
      case Done => s
  }

  function Do(s: Actor, step: Step): Actor
    requires Named(s)
  {
    match step
    case Tick(order) => Applied(s, order)
    case Resume(id) => Resumed(s, id)
  }

  class Core {
    var warned: bool
    var warningTask: Option<nat>
    var lastSignature: Option<string>
    var debug: bool
    var screen: Screen
    var tasks: seq<Task>
    ghost var last: Option<Intent>

    ghost function State(): Actor reads this {
      Actor(warned, warningTask, last, debug, screen, tasks)
    }

    ghost predicate Valid() reads this {
      && Named(State())
      && lastSignature == if last.None? then None else Some(Signature(last.value))
    }

    constructor ()
      ensures Valid() && State() == START
    {
      warned, warningTask, lastSignature, debug, screen, tasks := false, None, None, false, BLANK, [];
      last := None;
    }

    method ApplyLockState(o: Order)
      requires Valid()
      modifies this
      ensures Valid() && State() == Applied(old(State()), o)
    {
      ghost var before := State();
      debug := o.debug;
      ghost var intent := IntentOf(before, o);
      var signature := Signature(Intent(o.locked, o.seconds, warned, o.debug, o.message));
      if lastSignature == Some(signature) {
        SignatureInjective(last.value, intent);
      } else {
        assert before.last != Some(intent);
        lastSignature := Some(signature);
        last := Some(intent);
        assert State() == before.(debug := o.debug, last := Some(intent));
        ActUpon(o);
      }
    }

    method ActUpon(o: Order)
      requires Named(State())
      modifies this`warned, this`warningTask, this`tasks, this`screen
      ensures Named(State()) && State() == Transition(old(State()), o)
    {
      if !o.locked {
        if warningTask.Some? {
          tasks := tasks[warningTask.value := tasks[warningTask.value].(cancelled := true)];
        }
        warningTask := None;
        warned := false;
        screen := HideWarning(screen);
        if screen.shown {
          screen := BLANK;
        }
      } else if o.seconds <= 0 || warned {
        screen := HideWarning(screen);
        screen := ShowLock(screen, o.message, o.debug);
      } else if warningTask.None? {
        warningTask := Some(|tasks|);
        tasks := tasks + [Task(o.seconds, o.message, o.sound, NotStarted, false)];
      }
    }

    /** The stretch of a countdown between two sleeps. */
    method RunWarningCountdown(id: nat)
      requires Valid() && id < |tasks| && !tasks[id].phase.Done?
      modifies this
      ensures Valid() && State() == Resumed(old(State()), id)
    {
      var remaining;
      if tasks[id].phase.NotStarted? {
        if tasks[id].sound {
          screen := screen.(audio := true);
        }
        remaining := tasks[id].seconds;
      } else {
        remaining := tasks[id].phase.remaining - 1;
      }
      if tasks[id].cancelled {
        screen := HideWarning(screen);
        tasks := tasks[id := tasks[id].(phase := Done)];
      } else if remaining > 0 {
        screen := ShowWarning(screen, tasks[id].message, remaining);
        tasks := tasks[id := tasks[id].(phase := Sleeping(remaining))];
      } else {
        CompleteWarning(id);
      }
    }

    method CompleteWarning(id: nat)
      requires Valid() && id < |tasks|
      modifies this
      ensures Valid()
      ensures State() == old(State()).(warned := true, warningTask := None,
                           tasks := old(tasks)[id := old(tasks[id]).(phase := Done)],
                           screen := ShowLock(HideWarning(old(screen)), old(tasks[id]).message, old(debug)))
    {
      warned := true;
      warningTask := None;
      screen := HideWarning(screen);
      screen := ShowLock(screen, tasks[id].message, debug);
      tasks := tasks[id := tasks[id].(phase := Done)];
    }
  }

  lemma DoNamed(s: Actor, step: Step)
    requires Named(s)
    ensures Named(Do(s, step))
  {
  }

  function After(steps: seq<Step>, n: nat): (s: Actor)
    requires n <= |steps|
    ensures Named(s)
  {
    if n == 0 then START
    else
      var before := After(steps, n - 1);
      DoNamed(before, steps[n - 1]);
      Do(before, steps[n - 1])
  }

  // ---- what every interleaving keeps ------------------------------------------

  predicate Live(t: Task) { !t.cancelled && !t.phase.Done? }

  ghost predicate GoodTasks(s: Actor) {
    && Named(s)
    && (s.warningTask.Some? ==> s.warningTask.value == |s.tasks| - 1)
    && (forall id :: 0 <= id < |s.tasks| ==> (Live(s.tasks[id]) <==> s.warningTask == Some(id)))
    && (forall id :: 0 <= id < |s.tasks| ==>
          && s.tasks[id].seconds > 0
          && (s.tasks[id].phase.Sleeping? ==> s.tasks[id].phase.remaining > 0))
  }

  /** The screen and the fields agree with the last order acted upon. */
  ghost predicate GoodScreen(s: Actor) {
    && (if s.screen.shown then s.screen.banner.None? else s.screen.message == "" && !s.screen.debugShown)
    && (s.last.None? || !s.last.value.locked ==> s.warningTask.None? && !s.warned && s.screen == BLANK)
    && (s.warned ==> s.warningTask.None? && s.screen.shown)
    && (s.last.Some? && s.last.value.locked ==>
          var l := s.last.value;
          && (l.warned ==> s.warned)
          && (l.warned == s.warned && (l.seconds <= 0 || l.warned) ==>
                s.screen.shown && s.screen.message == l.message && s.screen.debugShown == l.debug)
          && (!l.warned && l.seconds > 0 ==> s.warned || s.warningTask.Some?))
  }

  lemma TransitionGood(s: Actor, o: Order)
    requires GoodTasks(s) && GoodScreen(s) && s.last != Some(IntentOf(s, o))
    ensures GoodTasks(Applied(s, o)) && GoodScreen(Applied(s, o))
  {
  }

  lemma AppliedGood(s: Actor, o: Order)
    requires GoodTasks(s) && GoodScreen(s)
    ensures GoodTasks(Applied(s, o)) && GoodScreen(Applied(s, o))
  {
    if s.last != Some(IntentOf(s, o)) {
      TransitionGood(s, o);
    }
  }

  /** The sound of a countdown that has not been cancelled may already play when it takes its turn. */
  lemma LiveTurnGood(s: Actor, id: nat, audio: bool, remaining: int)
    requires GoodTasks(s) && GoodScreen(s) && id < |s.tasks| && Live(s.tasks[id])
    ensures var now := s.(screen := s.screen.(audio := audio));
            GoodTasks(Turn(now, id, remaining)) && GoodScreen(Turn(now, id, remaining))
  {
    assert s.warningTask == Some(id);
    var s' := Turn(s.(screen := s.screen.(audio := audio)), id, remaining);
    assert forall k :: 0 <= k < |s'.tasks| && k != id ==> s'.tasks[k] == s.tasks[k];
  }

  /** A cancelled countdown only ends, and takes the banner and the sound with it. */
  lemma CancelledTurnGood(s: Actor, id: nat, audio: bool, remaining: int)
    requires GoodTasks(s) && GoodScreen(s) && id < |s.tasks| && s.tasks[id].cancelled
    ensures var now := s.(screen := s.screen.(audio := audio));
            GoodTasks(Turn(now, id, remaining)) && GoodScreen(Turn(now, id, remaining))
  {
    assert s.warningTask != Some(id);
    var s' := Turn(s.(screen := s.screen.(audio := audio)), id, remaining);
    assert forall k :: 0 <= k < |s'.tasks| && k != id ==> s'.tasks[k] == s.tasks[k];
  }

  lemma ResumedGood(s: Actor, id: nat)
    requires GoodTasks(s) && GoodScreen(s)
    ensures GoodTasks(Resumed(s, id)) && GoodScreen(Resumed(s, id))
  {
    if id < |s.tasks| && !s.tasks[id].phase.Done? {
      var t := s.tasks[id];
      var audio := s.screen.audio || (t.phase.NotStarted? && t.sound);
      var remaining := if t.phase.Sleeping? then t.phase.remaining - 1 else t.seconds;
      assert Resumed(s, id) == Turn(s.(screen := s.screen.(audio := audio)), id, remaining);
      if t.cancelled {
        CancelledTurnGood(s, id, audio, remaining);
      } else {
        LiveTurnGood(s, id, audio, remaining);
      }
    }
  }

  lemma {:induction false} GoodAlways(steps: seq<Step>, n: nat)
    requires n <= |steps|
    ensures GoodTasks(After(steps, n)) && GoodScreen(After(steps, n))
  {
    if n > 0 {
      GoodAlways(steps, n - 1);
      var s := After(steps, n - 1);
      match steps[n - 1]
      case Tick(o) => AppliedGood(s, o);
      case Resume(id) => ResumedGood(s, id);
    }
  }

  /** At most one countdown is neither cancelled nor over, and it is the one the actor knows. */
  lemma OneLiveCountdown(steps: seq<Step>, n: nat)
    requires n <= |steps|
    ensures forall i, j :: 0 <= i < |After(steps, n).tasks| && 0 <= j < |After(steps, n).tasks|
                           && Live(After(steps, n).tasks[i]) && Live(After(steps, n).tasks[j])
                           ==> i == j && After(steps, n).warningTask == Some(i)
  {
    GoodAlways(steps, n);
  }

  // ---- skipping a turn --------------------------------------------------------

  /** Skipping an order whose signature has not changed cannot be told from acting upon it again,
      except that acting again would silence a sound still playing under the lock. */
  lemma SkipUnobservable(steps: seq<Step>, n: nat, o: Order)
    requires n <= |steps| && After(steps, n).last == Some(IntentOf(After(steps, n), o))
    ensures var s := After(steps, n);
            var again := Transition(s.(debug := o.debug), o);
            && (Applied(s, o) == again <==> !(o.locked && (o.seconds <= 0 || s.warned) && s.screen.audio))
            && again == Applied(s, o).(screen := again.screen)
            && again.screen == Applied(s, o).screen.(audio := again.screen.audio)
  {
    GoodAlways(steps, n);
  }

  /** A turn that never skips. */
  function Acted(s: Actor, o: Order): Actor
    requires Named(s)
  {
    Transition(s.(debug := o.debug, last := Some(IntentOf(s, o))), o)
  }

  function AfterActing(steps: seq<Step>, n: nat): (s: Actor)
    requires n <= |steps|
    ensures Named(s)
  {
    if n == 0 then START
    else
      match steps[n - 1]
      case Tick(o) => Acted(AfterActing(steps, n - 1), o)
      case Resume(id) =>
        DoNamed(AfterActing(steps, n - 1), steps[n - 1]);
        Resumed(AfterActing(steps, n - 1), id)
  }

  /** The same actor, except that x may be silent where s is not. */
  predicate Quieter(x: Actor, s: Actor) {
    x == s.(screen := s.screen.(audio := x.screen.audio)) && (x.screen.audio ==> s.screen.audio)
  }

  lemma ActedQuieter(x: Actor, s: Actor, o: Order)
    requires GoodTasks(s) && GoodScreen(s) && Quieter(x, s)
    ensures Quieter(Acted(x, o), Applied(s, o))
  {
  }

  lemma TurnQuieter(x: Actor, s: Actor, id: nat, remaining: int)
    requires Named(s) && Quieter(x, s) && id < |s.tasks|
    ensures Quieter(Turn(x, id, remaining), Turn(s, id, remaining))
  {
  }

  lemma ResumedQuieter(x: Actor, s: Actor, id: nat)
    requires Named(s) && Quieter(x, s)
    ensures Quieter(Resumed(x, id), Resumed(s, id))
  {
    hide Turn;
    if id < |s.tasks| {
      var t := s.tasks[id];
      var louder := (a: Actor) => if t.sound then a.(screen := a.screen.(audio := true)) else a;
      match t.phase
      case NotStarted => TurnQuieter(louder(x), louder(s), id, t.seconds);
      case Sleeping(remaining) => TurnQuieter(x, s, id, remaining - 1);
      case Done =>
    }
  }

  /** Over whole runs: without the skip every run has the same tasks, the same fields, the same overlay
      and the same banner, and is at most quieter. */
  lemma {:induction false} SkipChangesOnlySound(steps: seq<Step>, n: nat)
    requires n <= |steps|
    ensures Quieter(AfterActing(steps, n), After(steps, n))
  {
    if n > 0 {
      SkipChangesOnlySound(steps, n - 1);
      GoodAlways(steps, n - 1);
      match steps[n - 1]
      case Tick(o) => ActedQuieter(AfterActing(steps, n - 1), After(steps, n - 1), o);
      case Resume(id) => ResumedQuieter(AfterActing(steps, n - 1), After(steps, n - 1), id);
    }
  }

  /** Step k is skipped under the lock while a sound plays. */
  ghost predicate AudibleSkip(steps: seq<Step>, k: nat)
    requires k < |steps|
  {
    var s := After(steps, k);
    && steps[k].Tick? && s.last == Some(IntentOf(s, steps[k].order)) && s.screen.audio
    && steps[k].order.locked && (steps[k].order.seconds <= 0 || s.warned)
  }

  lemma SkipHeard(steps: seq<Step>, k: nat)
    requires k < |steps| && AfterActing(steps, k) == After(steps, k)
    ensures AfterActing(steps, k + 1) == After(steps, k + 1) <==> !AudibleSkip(steps, k)
  {
    if steps[k].Tick? {
      var s, o := After(steps, k), steps[k].order;
      if s.last == Some(IntentOf(s, o)) {
        SkipUnobservable(steps, k, o);
        assert Acted(s, o) == Transition(s.(debug := o.debug), o);
      }
    }
  }

  ghost predicate SameUntil(steps: seq<Step>, n: nat)
    requires n <= |steps|
  {
    forall m: nat :: m <= n ==> AfterActing(steps, m) == After(steps, m)
  }

  ghost predicate NoAudibleSkip(steps: seq<Step>, n: nat)
    requires n <= |steps|
  {
    forall k: nat :: k < n ==> !AudibleSkip(steps, k)
  }

  lemma OneStepMore(steps: seq<Step>, n: nat)
    requires n < |steps|
    ensures SameUntil(steps, n + 1) <==> SameUntil(steps, n) && AfterActing(steps, n + 1) == After(steps, n + 1)
    ensures NoAudibleSkip(steps, n + 1) <==> NoAudibleSkip(steps, n) && !AudibleSkip(steps, n)
    ensures SameUntil(steps, n) ==> AfterActing(steps, n) == After(steps, n)
  {
    hide After, AfterActing, AudibleSkip;
  }

  lemma SameStart(steps: seq<Step>)
    ensures SameUntil(steps, 0) && NoAudibleSkip(steps, 0)
  {
    hide AudibleSkip, Do, Acted, Resumed;
  }

  /** And a run is the same from beginning to end if and only if no order is skipped under the lock while
      a sound plays. */
  lemma {:induction false} SameRun(steps: seq<Step>, n: nat)
    requires n <= |steps|
    ensures SameUntil(steps, n) <==> NoAudibleSkip(steps, n)
  {
    hide *;
    if n == 0 {
      SameStart(steps);
    } else {
      SameRun(steps, n - 1);
      OneStepMore(steps, n - 1);
      if SameUntil(steps, n - 1) {
        SkipHeard(steps, n - 1);
      }
    }
  }

  /** Such a sound exists: a countdown ordered first and overtaken by an immediate lock starts
      playing after the lock is up, and further equal orders leave it playing. */
  lemma SoundUnderLock()
    ensures var now := Order(true, 0, "", false, true);
            var steps := [Tick(Order(true, 60, "", false, true)), Tick(now), Resume(0), Tick(now)];
            After(steps, 4).screen.shown && After(steps, 4).screen.audio && AudibleSkip(steps, 3)
  {
    var now := Order(true, 0, "", false, true);
    var steps := [Tick(Order(true, 60, "", false, true)), Tick(now), Resume(0), Tick(now)];
    var s1 := Applied(START, steps[0].order);
    assert After(steps, 1) == Do(After(steps, 0), steps[0]) == s1;
    var s2 := Applied(s1, now);
    assert After(steps, 2) == s2 && s2.screen.shown;
    assert After(steps, 3) == Resumed(s2, 0);
    assert After(steps, 4) == Applied(Resumed(s2, 0), now);
  }

  // ---- when the overlay is up -------------------------------------------------

  /** How often the countdown with this number has run within the first n steps. */
  function Resumes(steps: seq<Step>, id: nat, n: nat): nat
    requires n <= |steps|
  {
    if n == 0 then 0
    else Resumes(steps, id, n - 1) + (if steps[n - 1] == Resume(id) && id < Count(steps, n - 1) then 1 else 0)
  }

  lemma {:induction false} ResumesNone(steps: seq<Step>, id: nat, n: nat)
    requires n <= |steps| && Count(steps, n) <= id
    ensures Resumes(steps, id, n) == 0
  {
    if n > 0 {
      CountGrows(steps, n);
      ResumesNone(steps, id, n - 1);
    }
  }

  /** The stretch's countdown has run once to start and once more after each of its seconds. */
  ghost predicate Elapsed(steps: seq<Step>, n: nat)
    requires n <= |steps|
  {
    && OwnCountdown(steps, n) && Count(steps, n) > 0
    && Resumes(steps, Count(steps, n) - 1, n) > steps[FirstAsk(steps, n)].order.seconds
  }

  predicate Progress(t: Task, runs: nat) {
    match t.phase
    case NotStarted => runs == 0
    case Sleeping(remaining) => 1 <= runs <= t.seconds && remaining == t.seconds - runs + 1
    case Done => runs > t.seconds
  }

  ghost predicate Reflects(s: Actor, steps: seq<Step>, n: nat)
    requires n <= |steps|
  {
    && |s.tasks| == Count(steps, n)
    && ((s.warned || s.warningTask.Some?) <==> OwnCountdown(steps, n))
    && (OwnCountdown(steps, n) ==>
          && |s.tasks| > 0
          && var t := s.tasks[|s.tasks| - 1];
             && !t.cancelled && (s.warned <==> t.phase.Done?)
             && t.seconds == steps[FirstAsk(steps, n)].order.seconds
             && Progress(t, Resumes(steps, |s.tasks| - 1, n)))
    && (s.screen.shown <==> Insisted(steps, n) || s.warned)
  }

  lemma UnlockReflects(s: Actor, steps: seq<Step>, n: nat)
    requires n < |steps| && steps[n].Tick? && !steps[n].order.locked
    requires GoodTasks(s) && GoodScreen(s) && Reflects(s, steps, n)
    ensures Reflects(Do(s, steps[n]), steps, n + 1)
  {
    assert Stretch(steps, n + 1) == n + 1;
  }

  lemma LockedTurn(s: Actor, o: Order)
    requires GoodTasks(s) && GoodScreen(s) && o.locked
    ensures var s' := Applied(s, o);
            && s'.warned == s.warned
            && (if o.seconds > 0 && !s.warned && s.warningTask.None?
                then s'.tasks == s.tasks + [Task(o.seconds, o.message, o.sound, NotStarted, false)]
                    && s'.warningTask.Some?
                else s'.tasks == s.tasks && s'.warningTask == s.warningTask)
            && (s'.screen.shown <==> s.screen.shown || o.seconds <= 0)
  {
  }

  lemma LockReflects(s: Actor, steps: seq<Step>, n: nat)
    requires n < |steps| && steps[n].Tick? && steps[n].order.locked
    requires GoodTasks(s) && GoodScreen(s) && Reflects(s, steps, n)
    ensures Reflects(Do(s, steps[n]), steps, n + 1)
  {
    hide Stretch, Insisted, OwnCountdown, Starts, FirstAsk;
    LockedTurnAsks(steps, n);
    LockedTurn(s, steps[n].order);
    if OwnCountdown(steps, n + 1) {
      FirstAskStays(steps, n);
    }
    if Starts(steps, n) {
      ResumesNone(steps, |s.tasks|, n);
    }
  }

  /** A run changes nothing about other countdowns, and engages the overlay only as the live one ends. */
  lemma Ran(s: Actor, id: nat)
    requires GoodTasks(s) && GoodScreen(s)
    ensures var s' := Resumed(s, id);
            && |s'.tasks| == |s.tasks| && (forall k :: 0 <= k < |s.tasks| && k != id ==> s'.tasks[k] == s.tasks[k])
            && (s.warningTask != Some(id) ==>
                  s'.warned == s.warned && s'.warningTask == s.warningTask && s'.screen.shown == s.screen.shown)
  {
    if id < |s.tasks| {
      assert Live(s.tasks[id]) <==> s.warningTask == Some(id);
    }
  }

  lemma LiveRan(s: Actor, id: nat, runs: nat)
    requires GoodTasks(s) && s.warningTask == Some(id) && Progress(s.tasks[id], runs)
    ensures var s' := Resumed(s, id);
            && s'.tasks[id] == s.tasks[id].(phase := s'.tasks[id].phase) && Progress(s'.tasks[id], runs + 1)
            && (if s'.tasks[id].phase.Done? then s'.warned && s'.warningTask.None? && s'.screen.shown
                else s'.warned == s.warned && s'.warningTask == s.warningTask && s'.screen.shown == s.screen.shown)
  {
    assert Live(s.tasks[id]);
  }

  lemma DoneStays(s: Actor, id: nat)
    requires GoodTasks(s) && id < |s.tasks| && s.warningTask != Some(id) && !s.tasks[id].cancelled
    ensures s.tasks[id].phase.Done? && Resumed(s, id) == s
  {
    assert !Live(s.tasks[id]);
  }

  lemma RunReflects(s: Actor, steps: seq<Step>, n: nat)
    requires n < |steps| && steps[n].Resume?
    requires GoodTasks(s) && GoodScreen(s) && Reflects(s, steps, n)
    ensures Reflects(Resumed(s, steps[n].id), steps, n + 1)
  {
    var id := steps[n].id;
    hide Stretch, Insisted, OwnCountdown, Count, FirstAsk, Resumed;
    ResumeAsksNothing(steps, n);
    if OwnCountdown(steps, n + 1) {
      FirstAskStays(steps, n);
    }
    Ran(s, id);
    if s.warningTask == Some(id) {
      LiveRan(s, id, Resumes(steps, id, n));
    } else if OwnCountdown(steps, n) && id == |s.tasks| - 1 {
      DoneStays(s, id);
    }
  }

  lemma DoReflects(s: Actor, steps: seq<Step>, n: nat)
    requires n < |steps| && GoodTasks(s) && GoodScreen(s) && Reflects(s, steps, n)
    ensures Reflects(Do(s, steps[n]), steps, n + 1)
  {
    if steps[n].Resume? {
      RunReflects(s, steps, n);
    } else if steps[n].order.locked {
      LockReflects(s, steps, n);
    } else {
      UnlockReflects(s, steps, n);
    }
  }

  lemma {:induction false} Reflected(steps: seq<Step>, n: nat)
    requires n <= |steps|
    ensures Reflects(After(steps, n), steps, n)
  {
    if n > 0 {
      Reflected(steps, n - 1);
      GoodAlways(steps, n - 1);
      DoReflects(After(steps, n - 1), steps, n - 1);
    }
  }

  /** In every interleaving the overlay, which is also what a turn reports, is up exactly when the
      current stretch has asked for the lock without a warning, or its one countdown, never
      cancelled, has lived through all the seconds it was started with. */
  lemma OverlayIs(steps: seq<Step>, n: nat)
    requires n <= |steps|
    ensures After(steps, n).screen.shown <==> Insisted(steps, n) || Elapsed(steps, n)
    ensures |After(steps, n).tasks| == Count(steps, n)
  {
    Reflected(steps, n);
  }
}
