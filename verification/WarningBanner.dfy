/** What the macOS agent's screen says: when the warning banner is shown, with which message and how many
    seconds left, and which message the lock overlay has, said by the history of orders and countdown runs
    alone. */
module WarningBanner {
  import opened Observations
  import opened LockHistory
  import opened WarningActor
  import opened WarningSound

  predicate RunsAt(steps: seq<Step>, id: nat, j: nat)
    requires j < |steps|
  {
    steps[j] == Resume(id) && id < Count(steps, j)
  }

  /** The last countdown has run, and no countdown of an earlier stretch has ended since. */
  ghost predicate RanUnhushed(steps: seq<Step>, n: nat)
    requires n <= |steps| && Count(steps, n) > 0
  {
    exists j: nat :: j < n && RunsAt(steps, Count(steps, n) - 1, j) && UnhushedSince(steps, j, n)
  }

  /** The stretch's countdown is running, the stretch has not asked for an immediate lock, and nothing has
      taken the banner away since the countdown last showed it. */
  ghost predicate Announced(steps: seq<Step>, n: nat)
    requires n <= |steps|
  {
    OwnCountdown(steps, n) && !Insisted(steps, n) && !Elapsed(steps, n) && Count(steps, n) > 0 && RanUnhushed(steps, n)
  }

  /** The message is that of the order that started the countdown, and every run but the first has taken a
      second from its seconds. */
  ghost function Banner(steps: seq<Step>, n: nat): Option<(string, int)>
    requires n <= |steps|
  {
    if !Announced(steps, n) then None
    else
      var order := steps[FirstAsk(steps, n)].order;
      Some((order.message, order.seconds - (Resumes(steps, Count(steps, n) - 1, n) - 1)))
  }

  // ---- what a step does to the banner -----------------------------------------

  lemma TickBanner(s: Actor, o: Order)
    requires GoodTasks(s) && GoodScreen(s)
    ensures Applied(s, o).screen.banner == if o.locked && !Applied(s, o).screen.shown then s.screen.banner else None
  {
    AppliedGood(s, o);
  }

  lemma RunBanner(s: Actor, id: nat)
    requires GoodTasks(s) && GoodScreen(s) && id < |s.tasks|
    ensures var t, s' := s.tasks[id], Resumed(s, id);
            if t.phase.Done? then s'.screen.banner == s.screen.banner
            else if t.cancelled || s'.screen.shown then s'.screen.banner.None?
            else |s'.tasks| == |s.tasks| && s'.tasks[id].phase.Sleeping?
                 && s'.screen.banner == Some((t.message, s'.tasks[id].phase.remaining))
  {
    ResumedGood(s, id);
    assert Live(s.tasks[id]) <==> s.warningTask == Some(id);
  }

  lemma RanStep(steps: seq<Step>, n: nat)
    requires n < |steps| && Count(steps, n + 1) == Count(steps, n) > 0
    ensures RanUnhushed(steps, n + 1)
       <==> (RanUnhushed(steps, n) && !Hushes(steps, n)) || RunsAt(steps, Count(steps, n) - 1, n)
  {
    hide Hushes, Count;
    var id := Count(steps, n) - 1;
    if RanUnhushed(steps, n) && !Hushes(steps, n) {
      var j: nat :| j < n && RunsAt(steps, id, j) && UnhushedSince(steps, j, n);
      assert RunsAt(steps, id, j) && UnhushedSince(steps, j, n + 1);
    }
    if RanUnhushed(steps, n + 1) {
      var j: nat :| j < n + 1 && RunsAt(steps, id, j) && UnhushedSince(steps, j, n + 1);
      if j < n {
        assert UnhushedSince(steps, j, n) && !Hushes(steps, n);
      }
    }
    if RunsAt(steps, id, n) {
      assert UnhushedSince(steps, n, n + 1);
    }
  }

  lemma NotRunYet(steps: seq<Step>, n: nat)
    requires n < |steps| && Starts(steps, n)
    ensures Count(steps, n + 1) > 0 && !RanUnhushed(steps, n + 1)
  {
    CountGrows(steps, n);
  }

  // ---- locked turns -----------------------------------------------------------

  lemma TickAnnounced(steps: seq<Step>, n: nat)
    requires n < |steps| && steps[n].Tick? && steps[n].order.locked && !Hushes(steps, n)
    requires !Insisted(steps, n + 1) && !Elapsed(steps, n + 1)
    ensures Banner(steps, n + 1) == Banner(steps, n)
  {
    hide Hushes, Stretch, FirstAsk, RanUnhushed;
    LockedTurnAsks(steps, n);
    TickElapses(steps, n);
    if OwnCountdown(steps, n) {
      CountPositive(steps, n);
      FirstAskStays(steps, n);
      RanStep(steps, n);
    } else if OwnCountdown(steps, n + 1) {
      NotRunYet(steps, n);
    }
  }

  lemma TickElapses(steps: seq<Step>, n: nat)
    requires n < |steps| && steps[n].Tick? && steps[n].order.locked
    ensures Elapsed(steps, n) ==> Elapsed(steps, n + 1)
  {
    hide Stretch, FirstAsk;
    LockedTurnAsks(steps, n);
    if OwnCountdown(steps, n) {
      FirstAskStays(steps, n);
    }
  }

  lemma ShownAnnouncesNothing(steps: seq<Step>, n: nat)
    requires n <= |steps| && After(steps, n).screen.shown
    ensures Banner(steps, n).None? && After(steps, n).screen.banner.None?
  {
    hide FirstAsk, Stretch;
    OverlayIs(steps, n);
    GoodAlways(steps, n);
  }

  lemma TickKeepsBanner(steps: seq<Step>, n: nat)
    requires n < |steps| && steps[n].Tick? && After(steps, n).screen.banner == Banner(steps, n)
    ensures After(steps, n + 1).screen.banner == Banner(steps, n + 1)
  {
    hide GoodTasks, GoodScreen, Applied, Hushes, Insisted, Elapsed, FirstAsk, Stretch, Banner;
    WarnedIs(steps, n);
    TickBanner(After(steps, n), steps[n].order);
    if !steps[n].order.locked {
      UnlockedOwnsNothing(steps, n);
      UnlockedAnnouncesNothing(steps, n + 1);
    } else if After(steps, n + 1).screen.shown {
      ShownAnnouncesNothing(steps, n + 1);
    } else {
      OverlayIs(steps, n + 1);
      LockedTurnAsks(steps, n);
      NoHushWithoutInsisting(steps, n);
      TickAnnounced(steps, n);
    }
  }

  lemma UnlockedAnnouncesNothing(steps: seq<Step>, n: nat)
    requires n <= |steps| && !OwnCountdown(steps, n)
    ensures Banner(steps, n).None?
  {
  }

  lemma NoHushWithoutInsisting(steps: seq<Step>, n: nat)
    requires n < |steps| && steps[n].Tick? && steps[n].order.seconds > 0
    ensures !Hushes(steps, n)
  {
  }

  // ---- runs -------------------------------------------------------------------

  /** A run that is not the own countdown's changes the announcement only by ending it. */
  lemma OtherRunAnnounces(steps: seq<Step>, n: nat)
    requires n < |steps| && steps[n].Resume? && steps[n].id != Count(steps, n) - 1
    ensures Banner(steps, n + 1) == if Hushes(steps, n) then None else Banner(steps, n)
  {
    hide Hushes, Stretch, FirstAsk, RanUnhushed, Insisted, Elapsed;
    ResumeAsksNothing(steps, n);
    OtherRunElapsesNothing(steps, n);
    if OwnCountdown(steps, n) {
      CountPositive(steps, n);
      FirstAskStays(steps, n);
      RanStep(steps, n);
    }
  }

  /** The own countdown's run announces itself, unless it elapses or the overlay is up. */
  lemma OwnRunAnnounces(steps: seq<Step>, n: nat)
    requires n < |steps| && Count(steps, n) > 0 && steps[n] == Resume(Count(steps, n) - 1) && OwnCountdown(steps, n)
    ensures Announced(steps, n + 1) <==> !Insisted(steps, n + 1) && !Elapsed(steps, n + 1)
    ensures Elapsed(steps, n) ==> Elapsed(steps, n + 1)
    ensures OwnCountdown(steps, n + 1) && Count(steps, n + 1) == Count(steps, n)
    ensures FirstAsk(steps, n + 1) == FirstAsk(steps, n)
  {
    hide Hushes, Stretch, FirstAsk, RanUnhushed, Insisted;
    ResumeAsksNothing(steps, n);
    FirstAskStays(steps, n);
    RanStep(steps, n);
    ResumesGrow(steps, Count(steps, n) - 1, n, n + 1);
  }

  lemma RunKeepsBanner(steps: seq<Step>, n: nat)
    requires n < |steps| && steps[n].Resume? && After(steps, n).screen.banner == Banner(steps, n)
    ensures After(steps, n + 1).screen.banner == Banner(steps, n + 1)
  {
    hide GoodTasks, GoodScreen, Resumed, Hushes, Insisted, Elapsed, FirstAsk, Stretch, Banner, Over, Reflects,
        OwnCountdown;
    var s, id := After(steps, n), steps[n].id;
    WarnedIs(steps, n);
    if id >= Count(steps, n) || Own(steps, id, n) {
      if id < Count(steps, n) {
        OwnRunBanner(steps, n);
      } else {
        NobodyRuns(steps, n);
        OtherRunAnnounces(steps, n);
      }
    } else {
      OldRunBanner(steps, n);
      OldRunHushes(steps, n);
      LastOwnsNothingElse(steps, id, n);
    }
  }

  /** No such countdown. */
  lemma NobodyRuns(steps: seq<Step>, n: nat)
    requires n < |steps| && steps[n].Resume? && steps[n].id >= Count(steps, n)
    ensures After(steps, n + 1).screen == After(steps, n).screen && !Hushes(steps, n)
  {
    hide Reflects, GoodTasks, GoodScreen;
    WarnedIs(steps, n);
  }

  lemma OldRunHushes(steps: seq<Step>, n: nat)
    requires n < |steps| && steps[n].Resume? && steps[n].id < Count(steps, n) && !Own(steps, steps[n].id, n)
    ensures Hushes(steps, n) <==> !Over(steps, steps[n].id, n)
  {
  }

  /** A countdown of an earlier stretch takes the banner with it when it ends. */
  lemma OldRunBanner(steps: seq<Step>, n: nat)
    requires n < |steps| && steps[n].Resume? && steps[n].id < Count(steps, n) && !Own(steps, steps[n].id, n)
    ensures After(steps, n + 1).screen.banner
         == if Over(steps, steps[n].id, n) then After(steps, n).screen.banner else None
  {
    hide GoodScreen, FirstAsk, Stretch, Insisted, Over, Elapsed, OwnCountdown, Count, Resumed;
    var s, id := After(steps, n), steps[n].id;
    WarnedIs(steps, n);
    RunBanner(s, id);
    OverIs(steps, id, n);
    assert Live(s.tasks[id]) <==> s.warningTask == Some(id);
  }

  /** Where the countdown that runs is not the own one, the announcement is none or another countdown's. */
  lemma LastOwnsNothingElse(steps: seq<Step>, id: nat, n: nat)
    requires n < |steps| && steps[n] == Resume(id) && id < Count(steps, n) && !Own(steps, id, n)
    ensures Banner(steps, n + 1) == if Hushes(steps, n) then None else Banner(steps, n)
  {
    hide Hushes, RanUnhushed, Insisted, Elapsed, FirstAsk, Stretch, OwnCountdown;
    if id == Count(steps, n) - 1 {
      ResumeAsksNothing(steps, n);
      assert !OwnCountdown(steps, n) && !OwnCountdown(steps, n + 1);
    } else {
      OtherRunAnnounces(steps, n);
    }
  }

  lemma OwnRunBanner(steps: seq<Step>, n: nat)
    requires n < |steps| && steps[n].Resume? && steps[n].id < Count(steps, n) && Own(steps, steps[n].id, n)
    requires After(steps, n).screen.banner == Banner(steps, n)
    ensures After(steps, n + 1).screen.banner == Banner(steps, n + 1)
  {
    hide After, FirstAsk, Stretch, Insisted, Over, Elapsed, OwnCountdown, Count, Resumes, RanUnhushed;
    if After(steps, n + 1).screen.shown {
      ShownAnnouncesNothing(steps, n + 1);
    } else {
      NotOverUnshown(steps, n);
      SecondsLeft(steps, n);
      OwnRunAnnounces(steps, n);
      OverlayIs(steps, n + 1);
    }
  }

  lemma NotOverUnshown(steps: seq<Step>, n: nat)
    requires n < |steps| && steps[n].Resume? && steps[n].id < Count(steps, n) && Own(steps, steps[n].id, n)
    requires !After(steps, n + 1).screen.shown
    ensures !Over(steps, steps[n].id, n)
  {
    hide FirstAsk, Stretch, Insisted, Over, Elapsed, OwnCountdown, Count, After;
    if Over(steps, steps[n].id, n) {
      OwnRunAnnounces(steps, n);
      OverElapsed(steps, steps[n].id, n);
      ElapsedIsShown(steps, n + 1);
    }
  }

  /** What the own countdown shows on its run. */
  lemma SecondsLeft(steps: seq<Step>, n: nat)
    requires n < |steps| && steps[n].Resume? && steps[n].id < Count(steps, n) && Own(steps, steps[n].id, n)
    requires !After(steps, n + 1).screen.shown && !Over(steps, steps[n].id, n)
    ensures var order := steps[FirstAsk(steps, n)].order;
            After(steps, n + 1).screen.banner
            == Some((order.message, order.seconds - (Resumes(steps, steps[n].id, n + 1) - 1)))
  {
    hide GoodTasks, GoodScreen, FirstAsk, Stretch, Insisted, Over, OwnCountdown, Count, Resumed, Resumes, Announced;
    var s, id := After(steps, n), steps[n].id;
    GoodAlways(steps, n);
    OwnRunAnnounces(steps, n);
    OwnProgress(steps, n);
    OwnProgress(steps, n + 1);
    RunBanner(s, id);
    OverIs(steps, id, n);
  }

  lemma ElapsedIsShown(steps: seq<Step>, n: nat)
    requires n <= |steps| && Elapsed(steps, n)
    ensures After(steps, n).screen.shown
  {
    OverlayIs(steps, n);
  }

  /** In every interleaving the banner is there exactly when the history says so, with that message and that
      many seconds left. */
  lemma {:induction false} BannerIs(steps: seq<Step>, n: nat)
    requires n <= |steps|
    ensures After(steps, n).screen.banner == Banner(steps, n)
  {
    hide Banner, Do;
    if n == 0 {
      NoBannerFirst(steps);
    } else {
      BannerIs(steps, n - 1);
      if steps[n - 1].Tick? {
        TickKeepsBanner(steps, n - 1);
      } else {
        RunKeepsBanner(steps, n - 1);
      }
    }
  }

  lemma NoBannerFirst(steps: seq<Step>)
    ensures After(steps, 0).screen.banner.None? && Banner(steps, 0).None?
  {
  }

  // ---- what the overlay says --------------------------------------------------

  /** Whether the client was in debug mode at the last turn. */
  function LastDebug(steps: seq<Step>, n: nat): bool
    requires n <= |steps|
  {
    if n == 0 then false else match steps[n - 1] case Tick(o) => o.debug case Resume(_) => LastDebug(steps, n - 1)
  }

  /** The message and the debug button of the overlay: those of the last order that was for an immediate
      lock or came once the warning had elapsed, unless it repeated the one before; or, if the warning has
      elapsed since, those of the order that started it. */
  ghost function LockText(steps: seq<Step>, n: nat): Option<(string, bool)>
    requires n <= |steps|
  {
    if n == 0 then None
    else
      match steps[n - 1]
      case Tick(o) =>
        if !o.locked then None
        else if (o.seconds <= 0 || Elapsed(steps, n - 1)) && !Repeats(steps, n - 1) then Some((o.message, o.debug))
        else LockText(steps, n - 1)
      case Resume(_) =>
        if Elapsed(steps, n) && !Elapsed(steps, n - 1)
        then Some((steps[FirstAsk(steps, n)].order.message, LastDebug(steps, n)))
        else LockText(steps, n - 1)
  }

  function TextOf(s: Screen): Option<(string, bool)> {
    if s.shown then Some((s.message, s.debugShown)) else None
  }

  lemma TickText(s: Actor, o: Order)
    requires GoodTasks(s) && GoodScreen(s)
    ensures TextOf(Applied(s, o).screen)
         == if !o.locked then None
            else if (o.seconds <= 0 || s.warned) && s.last != Some(IntentOf(s, o)) then Some((o.message, o.debug))
            else TextOf(s.screen)
  {
  }

  lemma RunText(s: Actor, id: nat)
    requires GoodTasks(s) && GoodScreen(s)
    ensures var s' := Resumed(s, id);
            if s'.warned && !s.warned
            then |s.tasks| > 0 && TextOf(s'.screen) == Some((s.tasks[|s.tasks| - 1].message, s.debug))
            else TextOf(s'.screen) == TextOf(s.screen)
    ensures s.warned ==> Resumed(s, id).warned
  {
    if id < |s.tasks| {
      assert Live(s.tasks[id]) <==> s.warningTask == Some(id);
    }
  }

  lemma {:induction false} DebugIs(steps: seq<Step>, n: nat)
    requires n <= |steps|
    ensures After(steps, n).debug == LastDebug(steps, n)
  {
    if n > 0 {
      DebugIs(steps, n - 1);
      DebugStep(After(steps, n - 1), steps[n - 1]);
    }
  }

  lemma DebugStep(s: Actor, step: Step)
    requires Named(s)
    ensures Do(s, step).debug == match step case Tick(o) => o.debug case Resume(_) => s.debug
  {
  }

  lemma RunLockText(steps: seq<Step>, n: nat)
    requires n < |steps| && steps[n].Resume? && TextOf(After(steps, n).screen) == LockText(steps, n)
    ensures TextOf(After(steps, n + 1).screen) == LockText(steps, n + 1)
  {
    hide GoodTasks, GoodScreen, Resumed, Reflects, Elapsed, FirstAsk, Stretch, TextOf, Count, Progress, OwnCountdown;
    var s := After(steps, n);
    WarnedIs(steps, n);
    WarnedIs(steps, n + 1);
    RunText(s, steps[n].id);
    DebugIs(steps, n);
    if Elapsed(steps, n + 1) && !Elapsed(steps, n) {
      ElapsedOwn(steps, n + 1);
      ResumeAsksNothing(steps, n);
      FirstAskStays(steps, n);
      OwnProgress(steps, n);
    }
  }

  lemma ElapsedOwn(steps: seq<Step>, n: nat)
    requires n <= |steps| && Elapsed(steps, n)
    ensures OwnCountdown(steps, n) && Count(steps, n) > 0
  {
  }

  lemma TickLockText(steps: seq<Step>, n: nat)
    requires n < |steps| && steps[n].Tick? && TextOf(After(steps, n).screen) == LockText(steps, n)
    ensures TextOf(After(steps, n + 1).screen) == LockText(steps, n + 1)
  {
    hide GoodTasks, GoodScreen, Applied, Reflects, Elapsed, TextOf, Repeats;
    WarnedIs(steps, n);
    SkipIsRepeat(steps, n);
    TickText(After(steps, n), steps[n].order);
  }

  /** In every interleaving the overlay has exactly the message and the debug button the history says, and
      where the history says none it is down. */
  lemma {:induction false} LockTextIs(steps: seq<Step>, n: nat)
    requires n <= |steps|
    ensures var screen := After(steps, n).screen;
            LockText(steps, n) == if screen.shown then Some((screen.message, screen.debugShown)) else None
  {
    hide LockText, Do;
    if n == 0 {
      NoLockFirst(steps);
    } else {
      LockTextIs(steps, n - 1);
      if steps[n - 1].Tick? {
        TickLockText(steps, n - 1);
      } else {
        RunLockText(steps, n - 1);
      }
    }
  }

  lemma NoLockFirst(steps: seq<Step>)
    ensures !After(steps, 0).screen.shown && LockText(steps, 0).None?
  {
  }
}
