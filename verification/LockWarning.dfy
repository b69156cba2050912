/** The Windows agent's lock warning: every turn of the agent loop looks at the requested lock,
    while the countdowns it has started finish at moments of their own. */
module LockWarning {
  import opened LockHistory
  import opened Observations

  /** A countdown: cancelled through its context; finished once its channel is closed. */
  datatype Countdown = Countdown(cancelled: bool, finished: bool)

  /** The loop's variables. `countdowns` holds every countdown ever started, in order; `done` and
      `cancel` name one of them. `overlay` is what was last asked of the lock overlay, `screenLocked`
      what the last turn reported. */
  datatype Loop = Loop(
    warning: bool,
    warned: bool,
    done: Option<nat>,
    cancel: Option<nat>,
    countdowns: seq<Countdown>,
    overlay: bool,
    screenLocked: bool
  )

  const START := Loop(false, false, None, None, [], false, false)

  predicate Named(s: Loop) {
    && (s.done.Some? ==> s.done.value < |s.countdowns|)
    && (s.cancel.Some? ==> s.cancel.value < |s.countdowns|)
    && (s.warning ==> s.done.Some?)
  }

  function CancelNamed(s: Loop): seq<Countdown>
    requires Named(s)
  {
    if s.cancel.None? then s.countdowns
    else s.countdowns[s.cancel.value := s.countdowns[s.cancel.value].(cancelled := true)]
  }

  /** One turn of the loop with the lock requested, or not, with this many seconds of warning. */
  function Ticked(s: Loop, locked: bool, seconds: int): Loop
    requires Named(s)
  {
    if !locked then
      s.(warning := false, warned := false, cancel := None, countdowns := CancelNamed(s), overlay := false,
         screenLocked := false)
    else if s.warned || seconds <= 0 then
      s.(overlay := true, screenLocked := true)
    else if s.warning then
      if s.countdowns[s.done.value].finished
      then s.(warning := false, warned := true, overlay := true, screenLocked := true)
      else s.(screenLocked := false)
    else
      s.(warning := true, done := Some(|s.countdowns|), cancel := Some(|s.countdowns|),
         countdowns := s.countdowns + [Countdown(false, false)], screenLocked := false)
  }

  /** A countdown ends by itself: elapsed, cancelled or failed. */
  function Ended(s: Loop, id: nat): Loop {
    if id < |s.countdowns| then s.(countdowns := s.countdowns[id := s.countdowns[id].(finished := true)]) else s
  }

  class WarningLoop {
    var warning: bool
    var warned: bool
    var done: Option<nat>
    var cancel: Option<nat>
    var countdowns: seq<Countdown>
    var overlay: bool

    ghost function State(screenLocked: bool): Loop reads this {
      Loop(warning, warned, done, cancel, countdowns, overlay, screenLocked)
    }

    constructor ()
      ensures State(false) == START
    {
      warning, warned, done, cancel, countdowns, overlay := false, false, None, None, [], false;
    }

    method Tick(locked: bool, seconds: int) returns (screenLocked: bool)
      requires Named(State(false))
      modifies this
      ensures State(screenLocked) == Ticked(old(State(false)), locked, seconds)
    {
      screenLocked := false;
      if locked {
        if warned || seconds <= 0 {
          overlay := true;
          screenLocked := true;
        } else if warning {
          if countdowns[done.value].finished {
            warning, warned := false, true;
            overlay := true;
            screenLocked := true;
          }
        } else {
          cancel, done := Some(|countdowns|), Some(|countdowns|);
          countdowns := countdowns + [Countdown(false, false)];
          warning := true;
        }
      } else {
        if cancel.Some? {
          countdowns := countdowns[cancel.value := countdowns[cancel.value].(cancelled := true)];
          cancel := None;
        }
        warning, warned := false, false;
        overlay := false;
      }
    }
  }

  // ---- histories --------------------------------------------------------------

  function Do(s: Loop, step: Step): Loop
    requires Named(s)
  {
    match step
    case Tick(order) => Ticked(s, order.locked, order.seconds)
    case Resume(id) => Ended(s, id)
  }

  lemma DoNamed(s: Loop, step: Step)
    requires Named(s)
    ensures Named(Do(s, step))
  {
  }

  /** The loop's state after the first n steps. */
  function After(steps: seq<Step>, n: nat): (s: Loop)
    requires n <= |steps|
    ensures Named(s)
  {
    if n == 0 then START
    else
      var before := After(steps, n - 1);
      DoNamed(before, steps[n - 1]);
      Do(before, steps[n - 1])
  }

  /** The countdown with this number has ended within the first n steps, after it was started. */
  ghost predicate HasEnded(steps: seq<Step>, id: nat, n: nat)
    requires n <= |steps|
  {
    exists j :: 0 <= j < n && steps[j] == Resume(id) && id < Count(steps, j)
  }

  /** The stretch reaching to n has started its countdown, the latest one of all, and that has ended. */
  ghost predicate OwnCountdownEnded(steps: seq<Step>, n: nat)
    requires n <= |steps|
  {
    OwnCountdown(steps, n) && Count(steps, n) > 0 && HasEnded(steps, Count(steps, n) - 1, n)
  }

  // ---- what the state says about the history ----------------------------------

  /** The state names the stretch's countdown if it has one, and knows which countdowns have ended
      and which were cancelled. */
  ghost predicate Reflects(s: Loop, steps: seq<Step>, n: nat)
    requires n <= |steps|
  {
    && Named(s)
    && |s.countdowns| == Count(steps, n)
    && ((s.warning || s.warned) <==> OwnCountdown(steps, n))
    && !(s.warning && s.warned)
    && (s.warning || s.warned ==> s.done == s.cancel == Some(|s.countdowns| - 1))
    && (!s.warning && !s.warned ==> s.cancel == None)
    && (s.warned ==> s.countdowns[|s.countdowns| - 1].finished)
    && (forall id :: 0 <= id < |s.countdowns| ==> (s.countdowns[id].finished <==> HasEnded(steps, id, n)))
    && (forall id :: 0 <= id < |s.countdowns| ==>
          (s.countdowns[id].cancelled <==> id < |s.countdowns| - 1 || !OwnCountdown(steps, n)))
  }

  lemma EndReflects(s: Loop, steps: seq<Step>, n: nat)
    requires n < |steps| && steps[n].Resume? && Reflects(s, steps, n)
    ensures Reflects(Do(s, steps[n]), steps, n + 1)
  {
    hide Stretch, Count, OwnCountdown;
    var s' := Do(s, steps[n]);
    ResumeAsksNothing(steps, n);
    forall id | 0 <= id < |s'.countdowns| ensures s'.countdowns[id].finished <==> HasEnded(steps, id, n + 1) {
      assert s.countdowns[id].finished <==> HasEnded(steps, id, n);
    }
  }

  lemma UnlockReflects(s: Loop, steps: seq<Step>, n: nat)
    requires n < |steps| && steps[n].Tick? && !steps[n].order.locked && Reflects(s, steps, n)
    ensures Reflects(Do(s, steps[n]), steps, n + 1)
  {
    var s' := Do(s, steps[n]);
    assert Stretch(steps, n + 1) == n + 1 && Count(steps, n + 1) == Count(steps, n);
    hide Stretch, Count;
    forall id | 0 <= id < |s'.countdowns| ensures s'.countdowns[id].finished <==> HasEnded(steps, id, n + 1) {
      assert s.countdowns[id].finished <==> HasEnded(steps, id, n);
    }
  }

  lemma LockReflects(s: Loop, steps: seq<Step>, n: nat)
    requires n < |steps| && steps[n].Tick? && steps[n].order.locked && Reflects(s, steps, n)
    ensures Reflects(Do(s, steps[n]), steps, n + 1)
  {
    var s' := Do(s, steps[n]);
    LockedTurnAsks(steps, n);
    forall id | 0 <= id < |s'.countdowns| ensures s'.countdowns[id].finished <==> HasEnded(steps, id, n + 1) {
      if id < |s.countdowns| {
        assert s.countdowns[id].finished <==> HasEnded(steps, id, n);
      } else {
        CountGrows(steps, n);
      }
    }
  }

  lemma ReflectsStart(steps: seq<Step>)
    ensures Reflects(START, steps, 0)
  {
  }

  lemma {:induction false} Reflected(steps: seq<Step>, n: nat)
    requires n <= |steps|
    ensures Reflects(After(steps, n), steps, n)
  {
    hide Reflects, Do;
    ReflectsStart(steps);
    if n > 0 {
      Reflected(steps, n - 1);
      var s := After(steps, n - 1);
      if steps[n - 1].Resume? {
        EndReflects(s, steps, n - 1);
      } else if steps[n - 1].order.locked {
        LockReflects(s, steps, n - 1);
      } else {
        UnlockReflects(s, steps, n - 1);
      }
    }
  }

  // ---- what a turn reports ----------------------------------------------------

  /** A turn reports the screen locked exactly when the lock is requested and either no warning is
      asked for or the countdown of this very stretch has ended. */
  lemma ReportsLocked(steps: seq<Step>, n: nat)
    requires n < |steps| && steps[n].Tick?
    ensures After(steps, n + 1).screenLocked
       <==> steps[n].order.locked && (steps[n].order.seconds <= 0 || OwnCountdownEnded(steps, n))
  {
    Reflected(steps, n);
  }

  /** A turn starts a countdown exactly when it is the first of its stretch to ask for a warning,
      so a stretch never has two. */
  lemma OneCountdownPerStretch(steps: seq<Step>, n: nat)
    requires n < |steps|
    ensures |After(steps, n + 1).countdowns| == |After(steps, n).countdowns| + (if Starts(steps, n) then 1 else 0)
    ensures forall j, k :: 0 <= j < k <= n && Starts(steps, j) && Starts(steps, k) ==> j < Stretch(steps, k)
  {
    Reflected(steps, n);
    Reflected(steps, n + 1);
  }

  /** Only the countdown of the current stretch is left uncancelled; an unlocked turn cancels it too. */
  lemma UnlockCancels(steps: seq<Step>, n: nat)
    requires n <= |steps|
    ensures var s := After(steps, n);
            forall id :: 0 <= id < |s.countdowns| && !s.countdowns[id].cancelled
                         ==> id == |s.countdowns| - 1 && OwnCountdown(steps, n)
    ensures n > 0 && steps[n - 1].Tick? && !steps[n - 1].order.locked
            ==> forall id :: 0 <= id < |After(steps, n).countdowns| ==> After(steps, n).countdowns[id].cancelled
  {
    Reflected(steps, n);
  }

  // ---- the overlay ------------------------------------------------------------

  /** The overlay stays up from the first turn of a stretch that asked for no warning, or that
      found the stretch's countdown ended. */
  ghost predicate Engaged(steps: seq<Step>, n: nat)
    requires n <= |steps|
  {
    Insisted(steps, n) || (exists k :: Stretch(steps, n) <= k < n && steps[k].Tick? && OwnCountdownEnded(steps, k))
  }

  lemma EngagedStep(steps: seq<Step>, n: nat)
    requires n < |steps|
    ensures Engaged(steps, n + 1)
       <==> if steps[n].Resume? then Engaged(steps, n)
            else steps[n].order.locked
                 && (Engaged(steps, n) || steps[n].order.seconds <= 0 || OwnCountdownEnded(steps, n))
  {
    if steps[n].Resume? || steps[n].order.locked {
      assert Stretch(steps, n + 1) == Stretch(steps, n);
    } else {
      assert Stretch(steps, n + 1) == n + 1;
    }
  }

  lemma NotEngagedYet(steps: seq<Step>)
    ensures !Engaged(steps, 0)
  {
  }

  lemma {:induction false} OverlayIs(steps: seq<Step>, n: nat)
    requires n <= |steps|
    ensures After(steps, n).overlay <==> Engaged(steps, n)
  {
    hide Stretch, HasEnded, Ticked, Count, OwnCountdownEnded, Insisted, Engaged;
    NotEngagedYet(steps);
    if n > 0 {
      OverlayIs(steps, n - 1);
      EngagedStep(steps, n - 1);
      if steps[n - 1].Tick? {
        ReportsLocked(steps, n - 1);
        OverlayTurn(After(steps, n - 1), steps[n - 1]);
      }
    }
  }

  lemma OverlayTurn(s: Loop, step: Step)
    requires Named(s) && step.Tick?
    ensures Do(s, step).overlay <==> step.order.locked && (s.overlay || Do(s, step).screenLocked)
  {
  }

  /** Within a stretch, an ended countdown stays ended and no other takes its place. */
  lemma {:induction false} EndedStays(steps: seq<Step>, k: nat, n: nat)
    requires k <= n <= |steps| && Stretch(steps, k) == Stretch(steps, n) <= k && OwnCountdownEnded(steps, k)
    ensures OwnCountdownEnded(steps, n)
  {
    hide Asks;
    if k < n {
      assert Stretch(steps, n) == Stretch(steps, n - 1);
      EndedStays(steps, k, n - 1);
      assert !Starts(steps, n - 1);
      assert Count(steps, n) == Count(steps, n - 1);
    }
  }

  /** Where report and overlay part: exactly when a warned lock is requested, its countdown has not
      ended, and an earlier turn of the same stretch had asked for the lock without a warning. */
  lemma OverlayDisagrees(steps: seq<Step>, n: nat)
    requires n < |steps| && steps[n].Tick?
    ensures !(After(steps, n + 1).screenLocked && !After(steps, n + 1).overlay)
    ensures After(steps, n + 1).overlay && !After(steps, n + 1).screenLocked
       <==> steps[n].order.locked && steps[n].order.seconds > 0 && !OwnCountdownEnded(steps, n) && Insisted(steps, n)
  {
    ReportsLocked(steps, n);
    OverlayIs(steps, n);
    if steps[n].order.locked && !OwnCountdownEnded(steps, n) {
      forall k | Stretch(steps, n) <= k < n && steps[k].Tick? && OwnCountdownEnded(steps, k) ensures false {
        SameStretch(steps, k, n);
        EndedStays(steps, k, n);
      }
    }
  }

  /** The shortest such history: locked at once, then locked again with a warning. */
  lemma RelockedWithWarning()
    ensures var steps := [Tick(Order(true, 0, "", false, false)), Tick(Order(true, 60, "", false, false))];
            After(steps, 2).overlay && !After(steps, 2).screenLocked && After(steps, 1).screenLocked
  {
    var steps := [Tick(Order(true, 0, "", false, false)), Tick(Order(true, 60, "", false, false))];
    assert After(steps, 1) == Ticked(START, true, 0);
    assert After(steps, 2) == Ticked(After(steps, 1), true, 60);
  }
}
