/** When the macOS agent's warning sound plays, said by the history of orders and countdown runs alone,
    and with it when skipping an order can be heard. */
module WarningSound {
  import opened Observations
  import opened LockHistory
  import opened WarningActor

  /** The countdown with this number belongs to the stretch reaching to n. */
  ghost predicate Own(steps: seq<Step>, id: nat, n: nat)
    requires n <= |steps|
  {
    OwnCountdown(steps, n) && id == Count(steps, n) - 1
  }

  /** The countdown has come to its end by n: it has lived through its seconds, or has run once more after
      its stretch was over. */
  ghost predicate Over(steps: seq<Step>, id: nat, n: nat)
    requires n <= |steps|
  {
    n > 0 && (|| Over(steps, id, n - 1)
              || (&& steps[n - 1] == Resume(id) && id < Count(steps, n - 1)
                  && (Own(steps, id, n - 1) ==>
                        Resumes(steps, id, n - 1) >= steps[FirstAsk(steps, n - 1)].order.seconds)))
  }

  /** What the last turn before n was asked, and whether the warning had elapsed by then. */
  ghost function LastAsked(steps: seq<Step>, n: nat): Option<Intent>
    requires n <= |steps|
  {
    if n == 0 then None
    else
      match steps[n - 1]
      case Tick(o) => Some(Intent(o.locked, o.seconds, Elapsed(steps, n - 1), o.debug, o.message))
      case Resume(_) => LastAsked(steps, n - 1)
  }

  /** Turn n asks what the turn before it asked, with the warning elapsed at both or at neither. */
  ghost predicate Repeats(steps: seq<Step>, n: nat)
    requires n < |steps|
  {
    steps[n].Tick? && LastAsked(steps, n + 1) == LastAsked(steps, n)
  }

  /** Step i stops the sound: an order for an immediate lock that is not a repetition, or the end of a
      countdown whose stretch is over. */
  ghost predicate Hushes(steps: seq<Step>, i: nat)
    requires i < |steps|
  {
    match steps[i]
    case Tick(o) => o.locked && o.seconds <= 0 && !Repeats(steps, i)
    case Resume(id) => id < Count(steps, i) && !Own(steps, id, i) && !Over(steps, id, i)
  }

  /** Step j is the first run of countdown id. */
  predicate FirstRun(steps: seq<Step>, id: nat, j: nat)
    requires j < |steps|
  {
    steps[j] == Resume(id) && id < Count(steps, j) && Resumes(steps, id, j) == 0
  }

  ghost predicate UnhushedSince(steps: seq<Step>, j: nat, n: nat)
    requires n <= |steps|
  {
    forall i: nat :: j < i < n ==> !Hushes(steps, i)
  }

  /** The last countdown has begun, and nothing has stopped its sound since. */
  ghost predicate Begun(steps: seq<Step>, n: nat)
    requires n <= |steps| && Count(steps, n) > 0
  {
    exists j: nat :: j < n && FirstRun(steps, Count(steps, n) - 1, j) && UnhushedSince(steps, j, n)
  }

  /** The stretch's countdown has begun with its sound, has not elapsed, and nothing has stopped the sound. */
  ghost predicate Sounding(steps: seq<Step>, n: nat)
    requires n <= |steps|
  {
    && OwnCountdown(steps, n) && steps[FirstAsk(steps, n)].order.sound && !Elapsed(steps, n)
    && Count(steps, n) > 0 && Begun(steps, n)
  }

  // ---- the fields the history tells -------------------------------------------

  lemma WarnedIs(steps: seq<Step>, n: nat)
    requires n <= |steps|
    ensures var s := After(steps, n);
            && GoodTasks(s) && GoodScreen(s) && Reflects(s, steps, n)
            && (s.warned <==> Elapsed(steps, n)) && |s.tasks| == Count(steps, n)
  {
    GoodAlways(steps, n);
    Reflected(steps, n);
  }

  lemma {:induction false} LastIs(steps: seq<Step>, n: nat)
    requires n <= |steps|
    ensures After(steps, n).last == LastAsked(steps, n)
  {
    hide Elapsed, Reflects, GoodTasks, GoodScreen;
    if n > 0 {
      LastIs(steps, n - 1);
      WarnedIs(steps, n - 1);
      LastStep(After(steps, n - 1), steps[n - 1]);
    }
  }

  lemma LastStep(s: Actor, step: Step)
    requires Named(s)
    ensures Do(s, step).last == if step.Tick? then Some(IntentOf(s, step.order)) else s.last
  {
  }

  /** A turn is skipped exactly if it repeats the one before. */
  lemma SkipIsRepeat(steps: seq<Step>, n: nat)
    requires n < |steps| && steps[n].Tick?
    ensures After(steps, n).last == Some(IntentOf(After(steps, n), steps[n].order)) <==> Repeats(steps, n)
  {
    hide Elapsed, Reflects, GoodTasks, GoodScreen;
    LastIs(steps, n);
    WarnedIs(steps, n);
  }

  lemma {:induction false} NotOverYet(steps: seq<Step>, id: nat, n: nat)
    requires n <= |steps| && id >= Count(steps, n)
    ensures !Over(steps, id, n)
  {
    if n > 0 {
      CountGrows(steps, n);
      NotOverYet(steps, id, n - 1);
    }
  }

  lemma {:induction false} OverIs(steps: seq<Step>, id: nat, n: nat)
    requires n <= |steps| && id < |After(steps, n).tasks|
    ensures After(steps, n).tasks[id].phase.Done? <==> Over(steps, id, n)
  {
    hide Elapsed, Reflects, GoodTasks, GoodScreen, Over, Do, Count;
    if n > 0 {
      var s := After(steps, n - 1);
      WarnedIs(steps, n - 1);
      if id < |s.tasks| {
        OverIs(steps, id, n - 1);
      } else {
        NotOverYet(steps, id, n - 1);
      }
      OverStep(s, steps, id, n - 1);
    }
  }

  lemma OverStep(s: Actor, steps: seq<Step>, id: nat, n: nat)
    requires n < |steps| && GoodTasks(s) && GoodScreen(s) && Reflects(s, steps, n) && id < |Do(s, steps[n]).tasks|
    requires if id < |s.tasks| then s.tasks[id].phase.Done? <==> Over(steps, id, n) else !Over(steps, id, n)
    ensures Do(s, steps[n]).tasks[id].phase.Done? <==> Over(steps, id, n + 1)
  {
    hide Stretch, Insisted, FirstAsk, Starts, GoodScreen, GoodTasks, Reflects;
    match steps[n]
    case Tick(o) => TickEndsNothing(s, o, id);
    case Resume(k) => ResumeEnds(s, steps, id, n);
  }

  lemma TickEndsNothing(s: Actor, o: Order, id: nat)
    requires GoodTasks(s) && id < |Applied(s, o).tasks|
    ensures Applied(s, o).tasks[id].phase.Done? <==> id < |s.tasks| && s.tasks[id].phase.Done?
  {
  }

  lemma ResumeEnds(s: Actor, steps: seq<Step>, id: nat, n: nat)
    requires n < |steps| && steps[n].Resume? && id < |s.tasks|
    requires GoodTasks(s) && GoodScreen(s) && Reflects(s, steps, n)
    requires s.tasks[id].phase.Done? <==> Over(steps, id, n)
    ensures Resumed(s, steps[n].id).tasks[id].phase.Done? <==> Over(steps, id, n + 1)
  {
    hide Stretch, Insisted, FirstAsk, Starts, GoodScreen;
    if steps[n].id == id {
      assert Live(s.tasks[id]) <==> s.warningTask == Some(id);
    }
  }

  // ---- the sound --------------------------------------------------------------

  lemma TickSound(s: Actor, o: Order)
    requires GoodTasks(s) && GoodScreen(s)
    ensures Applied(s, o).screen.audio
       <==> s.screen.audio && o.locked && (s.last == Some(IntentOf(s, o)) || (o.seconds > 0 && !s.warned))
  {
  }

  /** A countdown of an earlier stretch that runs again ends, and the sound with it; the own one begins it
      and, when it elapses, ends it. */
  lemma ResumeSound(s: Actor, id: nat)
    requires GoodTasks(s) && GoodScreen(s) && id < |s.tasks|
    ensures var t, audio := s.tasks[id], Resumed(s, id).screen.audio;
            if t.phase.Done? then audio == s.screen.audio
            else if t.cancelled then !audio
            else audio <==> !Resumed(s, id).warned && (s.screen.audio || (t.phase.NotStarted? && t.sound))
  {
    assert Live(s.tasks[id]) <==> s.warningTask == Some(id);
  }

  lemma {:induction false} ResumesGrow(steps: seq<Step>, id: nat, j: nat, n: nat)
    requires j <= n <= |steps|
    ensures Resumes(steps, id, j) <= Resumes(steps, id, n)
  {
    if j < n {
      ResumesGrow(steps, id, j, n - 1);
    }
  }

  lemma BegunStep(steps: seq<Step>, n: nat)
    requires n < |steps| && Count(steps, n + 1) == Count(steps, n) > 0
    ensures Begun(steps, n + 1)
       <==> (Begun(steps, n) && !Hushes(steps, n)) || FirstRun(steps, Count(steps, n) - 1, n)
    ensures Begun(steps, n) ==> Resumes(steps, Count(steps, n) - 1, n) > 0
  {
    hide Hushes, Count, Resumes;
    var id := Count(steps, n) - 1;
    if Begun(steps, n) {
      var j: nat :| j < n && FirstRun(steps, id, j) && UnhushedSince(steps, j, n);
      RunCounts(steps, id, j);
      ResumesGrow(steps, id, j + 1, n);
      if !Hushes(steps, n) {
        assert FirstRun(steps, id, j) && UnhushedSince(steps, j, n + 1);
      }
    }
    if Begun(steps, n + 1) {
      var j: nat :| j < n + 1 && FirstRun(steps, id, j) && UnhushedSince(steps, j, n + 1);
      if j < n {
        assert UnhushedSince(steps, j, n) && !Hushes(steps, n);
      }
    }
    if FirstRun(steps, id, n) {
      assert UnhushedSince(steps, n, n + 1);
    }
  }

  lemma RunCounts(steps: seq<Step>, id: nat, j: nat)
    requires j < |steps| && FirstRun(steps, id, j)
    ensures Resumes(steps, id, j + 1) == 1
  {
  }

  lemma {:induction false} CountPositive(steps: seq<Step>, n: nat)
    requires n <= |steps| && OwnCountdown(steps, n)
    ensures Count(steps, n) > 0
  {
    Reflected(steps, n);
  }

  /** A locked turn adds no sound. */
  lemma TickSounding(steps: seq<Step>, n: nat)
    requires n < |steps| && steps[n].Tick?
    ensures Sounding(steps, n + 1) <==> Sounding(steps, n) && steps[n].order.locked && !Hushes(steps, n)
  {
    hide Hushes, FirstAsk, Begun, Stretch;
    if !steps[n].order.locked {
      UnlockedOwnsNothing(steps, n);
    } else {
      LockedTurnAsks(steps, n);
      if OwnCountdown(steps, n) {
        CountPositive(steps, n);
        FirstAskStays(steps, n);
        BegunStep(steps, n);
      } else if OwnCountdown(steps, n + 1) {
        NotBegun(steps, n);
      }
    }
  }

  lemma UnlockedOwnsNothing(steps: seq<Step>, n: nat)
    requires n < |steps| && steps[n].Tick? && !steps[n].order.locked
    ensures !OwnCountdown(steps, n + 1)
  {
    assert Stretch(steps, n + 1) == n + 1;
  }

  lemma NotBegun(steps: seq<Step>, n: nat)
    requires n < |steps| && Starts(steps, n)
    ensures Count(steps, n + 1) > 0 && !Begun(steps, n + 1)
  {
    CountGrows(steps, n);
  }

  /** A run of a countdown begins the sound, ends it, or leaves it. */
  lemma ResumeSounding(steps: seq<Step>, n: nat)
    requires n < |steps| && steps[n].Resume?
    ensures Sounding(steps, n + 1)
       <==> OwnCountdown(steps, n) && steps[FirstAsk(steps, n)].order.sound && !Elapsed(steps, n + 1)
            && Count(steps, n) > 0
            && ((Begun(steps, n) && !Hushes(steps, n)) || FirstRun(steps, Count(steps, n) - 1, n))
    ensures Elapsed(steps, n) ==> Elapsed(steps, n + 1)
  {
    hide Hushes, FirstAsk, Begun, Stretch, Insisted;
    ResumeAsksNothing(steps, n);
    if OwnCountdown(steps, n) {
      CountPositive(steps, n);
      FirstAskStays(steps, n);
      BegunStep(steps, n);
      ResumesGrow(steps, Count(steps, n) - 1, n, n + 1);
    }
  }

  lemma TickHeard(steps: seq<Step>, n: nat)
    requires n < |steps| && steps[n].Tick? && (After(steps, n).screen.audio <==> Sounding(steps, n))
    ensures After(steps, n + 1).screen.audio <==> Sounding(steps, n + 1)
  {
    hide Reflects, GoodTasks, GoodScreen, Applied, Repeats;
    WarnedIs(steps, n);
    SkipIsRepeat(steps, n);
    TickSounding(steps, n);
    TickSound(After(steps, n), steps[n].order);
    assert Sounding(steps, n) ==> !Elapsed(steps, n);
  }

  lemma OwnAfterTurn(steps: seq<Step>, n: nat)
    requires n < |steps| && steps[n].Tick? && OwnCountdown(steps, n + 1)
    ensures steps[n].order.locked
  {
    if !steps[n].order.locked {
      UnlockedOwnsNothing(steps, n);
    }
  }

  /** The last countdown was started by the stretch's first order with a warning, and has its sound and
      its message. */
  ghost predicate SoundKept(s: Actor, steps: seq<Step>, n: nat)
    requires n <= |steps|
  {
    OwnCountdown(steps, n) ==>
      && |s.tasks| > 0 && s.tasks[|s.tasks| - 1].sound == steps[FirstAsk(steps, n)].order.sound
      && s.tasks[|s.tasks| - 1].message == steps[FirstAsk(steps, n)].order.message
  }

  lemma TurnKeepsSound(s: Actor, steps: seq<Step>, n: nat)
    requires n < |steps| && steps[n].Tick?
    requires GoodTasks(s) && GoodScreen(s) && Reflects(s, steps, n) && SoundKept(s, steps, n)
    ensures SoundKept(Do(s, steps[n]), steps, n + 1)
  {
    hide Stretch, Insisted, GoodScreen, GoodTasks, Count, FirstAsk, Starts, OwnCountdown, Applied;
    if OwnCountdown(steps, n + 1) {
      OwnAfterTurn(steps, n);
      LockedTurnAsks(steps, n);
      LockedTurn(s, steps[n].order);
      FirstAskStays(steps, n);
    }
  }

  lemma RunKeepsSound(s: Actor, steps: seq<Step>, n: nat)
    requires n < |steps| && steps[n].Resume? && Named(s) && SoundKept(s, steps, n)
    ensures SoundKept(Do(s, steps[n]), steps, n + 1)
  {
    hide Stretch, Insisted, Count, FirstAsk, OwnCountdown, Resumed;
    ResumeAsksNothing(steps, n);
    SoundStays(s, steps[n].id);
    if OwnCountdown(steps, n + 1) {
      FirstAskStays(steps, n);
    }
  }

  lemma {:induction false} OwnSound(steps: seq<Step>, n: nat)
    requires n <= |steps|
    ensures SoundKept(After(steps, n), steps, n)
  {
    hide GoodTasks, GoodScreen, Reflects, SoundKept, Do, Elapsed;
    if n == 0 {
      NothingAsked(steps);
    } else {
      OwnSound(steps, n - 1);
      WarnedIs(steps, n - 1);
      if steps[n - 1].Tick? {
        TurnKeepsSound(After(steps, n - 1), steps, n - 1);
      } else {
        RunKeepsSound(After(steps, n - 1), steps, n - 1);
      }
    }
  }

  lemma NothingAsked(steps: seq<Step>)
    ensures SoundKept(After(steps, 0), steps, 0)
  {
  }

  lemma SoundStays(s: Actor, id: nat)
    requires Named(s)
    ensures var tasks := Resumed(s, id).tasks;
            && |tasks| == |s.tasks|
            && forall k :: 0 <= k < |tasks| ==>
                 tasks[k].sound == s.tasks[k].sound && tasks[k].message == s.tasks[k].message
  {
  }

  /** How far the stretch's countdown has come. */
  lemma OwnProgress(steps: seq<Step>, n: nat)
    requires n <= |steps| && OwnCountdown(steps, n) && Count(steps, n) > 0
    ensures var tasks := After(steps, n).tasks;
            && |tasks| == Count(steps, n) && !tasks[|tasks| - 1].cancelled
            && tasks[|tasks| - 1].seconds == steps[FirstAsk(steps, n)].order.seconds
            && tasks[|tasks| - 1].message == steps[FirstAsk(steps, n)].order.message
            && tasks[|tasks| - 1].sound == steps[FirstAsk(steps, n)].order.sound
            && Progress(tasks[|tasks| - 1], Resumes(steps, |tasks| - 1, n))
  {
    hide GoodScreen, FirstAsk, Stretch, Insisted, Elapsed, Progress, Resumes, After;
    WarnedIs(steps, n);
    OwnSound(steps, n);
  }

  /** A countdown of an earlier stretch is cancelled or over. */
  lemma OldIsDead(steps: seq<Step>, id: nat, n: nat)
    requires n <= |steps| && id < Count(steps, n) && !Own(steps, id, n)
    ensures id < |After(steps, n).tasks| && !Live(After(steps, n).tasks[id])
  {
    hide GoodScreen, FirstAsk, Stretch, Insisted, Elapsed, Resumes, After, Count, OwnCountdown;
    WarnedIs(steps, n);
    assert Live(After(steps, n).tasks[id]) <==> After(steps, n).warningTask == Some(id);
  }

  /** What a run does to the sound, said by the history. */
  lemma RunHeard(s: Actor, steps: seq<Step>, n: nat)
    requires n < |steps| && steps[n].Resume? && s == After(steps, n)
    ensures var id := steps[n].id; var audio := Resumed(s, id).screen.audio;
            if id >= Count(steps, n) || Over(steps, id, n) then audio == s.screen.audio
            else if !Own(steps, id, n) then !audio
            else audio <==> !Elapsed(steps, n + 1)
                            && (s.screen.audio || (FirstRun(steps, id, n) && steps[FirstAsk(steps, n)].order.sound))
  {
    hide GoodTasks, GoodScreen, Reflects, FirstAsk, Stretch, Insisted, Over, Elapsed, OwnCountdown, Count;
    var id := steps[n].id;
    WarnedIs(steps, n);
    WarnedIs(steps, n + 1);
    if id < |s.tasks| {
      ResumeSound(s, id);
      OverIs(steps, id, n);
      if Own(steps, id, n) {
        OwnProgress(steps, n);
      } else {
        OldIsDead(steps, id, n);
      }
    }
  }

  /** Once the own countdown has come to its end, it has elapsed. */
  lemma OverElapsed(steps: seq<Step>, id: nat, n: nat)
    requires n <= |steps| && Own(steps, id, n) && id < Count(steps, n) && Over(steps, id, n)
    ensures Elapsed(steps, n)
  {
    hide GoodScreen, FirstAsk, Stretch, Insisted, Over, Elapsed, OwnCountdown, Count, Starts;
    WarnedIs(steps, n);
    OverIs(steps, id, n);
  }

  lemma OtherRunElapsesNothing(steps: seq<Step>, n: nat)
    requires n < |steps| && steps[n].Resume? && steps[n].id != Count(steps, n) - 1
    ensures Elapsed(steps, n + 1) <==> Elapsed(steps, n)
  {
    hide FirstAsk, Stretch, OwnCountdown, Count;
    ResumeAsksNothing(steps, n);
    if OwnCountdown(steps, n) {
      FirstAskStays(steps, n);
    }
  }

  lemma ResumeHeard(steps: seq<Step>, n: nat)
    requires n < |steps| && steps[n].Resume? && (After(steps, n).screen.audio <==> Sounding(steps, n))
    ensures After(steps, n + 1).screen.audio <==> Sounding(steps, n + 1)
  {
    hide GoodScreen, GoodTasks, Resumed, Begun, FirstAsk, Stretch, Insisted, Over, Elapsed, OwnCountdown, Count, Starts,
         Resumes, Reflects;
    var s, id := After(steps, n), steps[n].id;
    ResumeSounding(steps, n);
    RunHeard(s, steps, n);
    ResumeAsksNothing(steps, n);
    if Own(steps, id, n) && id < Count(steps, n) && Over(steps, id, n) {
      OverElapsed(steps, id, n);
    }
    if id != Count(steps, n) - 1 {
      OtherRunElapsesNothing(steps, n);
    }
  }

  /** In every interleaving the sound plays exactly when the history says so. */
  lemma {:induction false} SoundIs(steps: seq<Step>, n: nat)
    requires n <= |steps|
    ensures After(steps, n).screen.audio <==> Sounding(steps, n)
  {
    hide Sounding, Do;
    if n == 0 {
      SilentStart(steps);
    } else {
      SoundIs(steps, n - 1);
      if steps[n - 1].Tick? {
        TickHeard(steps, n - 1);
      } else {
        ResumeHeard(steps, n - 1);
      }
    }
  }

  lemma SilentStart(steps: seq<Step>)
    ensures !After(steps, 0).screen.audio && !Sounding(steps, 0)
  {
  }

  /** An order for an immediate lock repeats the one before while the stretch's countdown sounds. */
  ghost predicate HeardSkip(steps: seq<Step>, k: nat)
    requires k < |steps|
  {
    Repeats(steps, k) && steps[k].order.locked && steps[k].order.seconds <= 0 && Sounding(steps, k)
  }

  /** So a skipped order can be heard exactly if an order for an immediate lock repeats the one before
      while the countdown asked for earlier in the stretch is sounding. */
  lemma AudibleSkipIs(steps: seq<Step>, k: nat)
    requires k < |steps|
    ensures AudibleSkip(steps, k)
       <==> HeardSkip(steps, k)
  {
    hide Reflects, GoodTasks, GoodScreen, Repeats, Begun;
    SoundIs(steps, k);
    WarnedIs(steps, k);
    if steps[k].Tick? {
      SkipIsRepeat(steps, k);
    } else {
      OnlyTurnsRepeat(steps, k);
    }
  }

  lemma OnlyTurnsRepeat(steps: seq<Step>, k: nat)
    requires k < |steps| && steps[k].Resume?
    ensures !Repeats(steps, k) && !AudibleSkip(steps, k)
  {
  }

  /** With and without skipping, a run is the same from beginning to end if and only if no immediate lock is
      asked for again while the stretch's countdown sounds. */
  lemma SameRunByHistory(steps: seq<Step>, n: nat)
    requires n <= |steps|
    ensures SameUntil(steps, n) <==> forall k: nat :: k < n ==> !HeardSkip(steps, k)
  {
    hide Repeats, Sounding, AudibleSkip, SameUntil;
    SameRun(steps, n);
    forall k: nat | k < n ensures AudibleSkip(steps, k) <==> HeardSkip(steps, k) {
      AudibleSkipIs(steps, k);
    }
  }
}
