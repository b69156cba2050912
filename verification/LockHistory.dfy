/** What an agent with a lock warning is asked over time: the turns of its loop, with the lock
    order each of them sees, and in between the moments at which its countdowns run. */
module LockHistory {

  /** The lock requested at a turn, with its message and seconds of warning; whether the client is in
      debug mode; and whether a warning sound can be played. */
  datatype Order = Order(locked: bool, seconds: int, message: string, debug: bool, sound: bool)

  datatype Step = Tick(order: Order) | Resume(id: nat)

  /** Where the locked stretch that reaches to n begins: right after the last unlocked turn. */
  function Stretch(steps: seq<Step>, n: nat): (from: nat)
    requires n <= |steps|
    ensures from <= n
    ensures forall k :: from <= k < n && steps[k].Tick? ==> steps[k].order.locked
    ensures from > 0 ==> steps[from - 1].Tick? && !steps[from - 1].order.locked
  {
    if n == 0 then 0
    else if steps[n - 1].Tick? && !steps[n - 1].order.locked then n
    else Stretch(steps, n - 1)
  }

  /** A turn asking for a lock with a warning. */
  predicate Asks(step: Step) {
    step.Tick? && step.order.locked && step.order.seconds > 0
  }

  /** Turn k is the first of its stretch to ask for a lock with a warning. */
  predicate Starts(steps: seq<Step>, k: nat)
    requires k < |steps|
  {
    Asks(steps[k]) && forall j :: Stretch(steps, k) <= j < k ==> !Asks(steps[j])
  }

  /** How many countdowns the first n steps start; the next one gets this number. */
  function Count(steps: seq<Step>, n: nat): nat
    requires n <= |steps|
  {
    if n == 0 then 0 else Count(steps, n - 1) + (if Starts(steps, n - 1) then 1 else 0)
  }

  /** The stretch reaching to n has started its countdown. */
  ghost predicate OwnCountdown(steps: seq<Step>, n: nat)
    requires n <= |steps|
  {
    exists k :: Stretch(steps, n) <= k < n && Asks(steps[k])
  }

  /** Some turn of the stretch asked for the lock without any warning. */
  ghost predicate Insisted(steps: seq<Step>, n: nat)
    requires n <= |steps|
  {
    exists k :: Stretch(steps, n) <= k < n && steps[k].Tick? && steps[k].order.seconds <= 0
  }

  lemma {:induction false} CountGrows(steps: seq<Step>, n: nat)
    requires n <= |steps|
    ensures forall j :: 0 <= j <= n ==> Count(steps, j) <= Count(steps, n)
  {
    if n > 0 {
      CountGrows(steps, n - 1);
    }
  }

  lemma {:induction false} SameStretch(steps: seq<Step>, k: nat, n: nat)
    requires n <= |steps| && Stretch(steps, n) <= k <= n
    ensures Stretch(steps, k) == Stretch(steps, n)
  {
    if k < n {
      SameStretch(steps, k, n - 1);
    }
  }

  /** The turn that started the stretch's countdown. */
  ghost function FirstAsk(steps: seq<Step>, n: nat): (k: nat)
    requires n <= |steps| && OwnCountdown(steps, n)
    ensures Stretch(steps, n) <= k < n && Asks(steps[k])
    ensures forall j :: Stretch(steps, n) <= j < k ==> !Asks(steps[j])
  {
    if Stretch(steps, n) < n && OwnCountdown(steps, n - 1) then FirstAsk(steps, n - 1) else n - 1
  }

  /** Within a stretch the turn that started its countdown stays the same. */
  lemma FirstAskStays(steps: seq<Step>, n: nat)
    requires n < |steps| && Stretch(steps, n + 1) == Stretch(steps, n) && OwnCountdown(steps, n + 1)
    ensures FirstAsk(steps, n + 1) == if OwnCountdown(steps, n) then FirstAsk(steps, n) else n
  {
  }

  /** A countdown's run changes nothing about what was asked. */
  lemma ResumeAsksNothing(steps: seq<Step>, n: nat)
    requires n < |steps| && steps[n].Resume?
    ensures Stretch(steps, n + 1) == Stretch(steps, n) && Count(steps, n + 1) == Count(steps, n)
    ensures OwnCountdown(steps, n + 1) <==> OwnCountdown(steps, n)
    ensures Insisted(steps, n + 1) <==> Insisted(steps, n)
  {
  }

  /** What a locked turn adds to its stretch. */
  lemma LockedTurnAsks(steps: seq<Step>, n: nat)
    requires n < |steps| && steps[n].Tick? && steps[n].order.locked
    ensures Stretch(steps, n + 1) == Stretch(steps, n)
    ensures Count(steps, n + 1) == Count(steps, n) + (if Starts(steps, n) then 1 else 0)
    ensures Starts(steps, n) <==> steps[n].order.seconds > 0 && !OwnCountdown(steps, n)
    ensures OwnCountdown(steps, n + 1) <==> OwnCountdown(steps, n) || steps[n].order.seconds > 0
    ensures Insisted(steps, n + 1) <==> Insisted(steps, n) || steps[n].order.seconds <= 0
  {
  }
}
