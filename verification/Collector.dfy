/** The agent's collection loop: a mutable interval and two one-slot wake-up channels,
    under any interleaving of callers with the loop. */
module Collector {

  /** Where the Run loop is. Replying is a cycle that has applied the control plane's
      interval but not yet posted its own wake-up. */
  datatype Loop = Arming | Waiting(armed: int) | Collecting | Replying | Stopped

  /** posting counts the SetInterval calls that are between their write and their post. */
  datatype State = State(interval: int, resetTick: bool, collectNow: bool, posting: nat, loop: Loop)

  datatype Step =
    | SetWrite(d: int)
    | SetPost
    | CollectNowCall
    | Arm
    | TakeReset
    | TakeCollect
    | TimerFires
    | CycleFails
    | ReplyWrite(d: int)
    | ReplyPost
    | Cancel

  predicate Can(s: State, x: Step) {
    match x
    case SetWrite(_) => true
    case SetPost => s.posting > 0
    case CollectNowCall => true
    case Arm => s.loop == Arming
    case TakeReset => s.loop.Waiting? && s.resetTick
    case TakeCollect => s.loop.Waiting? && s.collectNow
    case TimerFires => s.loop.Waiting?
    case CycleFails => s.loop == Collecting
    case ReplyWrite(_) => s.loop == Collecting
    case ReplyPost => s.loop == Replying
    case Cancel => s.loop.Waiting?
  }

  function Do(s: State, x: Step): State
    requires Can(s, x)
  {
    match x
    case SetWrite(d) => s.(interval := d, posting := s.posting + 1)
    case SetPost => s.(posting := s.posting - 1, resetTick := true)
    case CollectNowCall => s.(collectNow := true)
    case Arm => s.(loop := Waiting(s.interval))
    case TakeReset => s.(resetTick := false, loop := Arming)
    case TakeCollect => s.(collectNow := false, loop := Collecting)
    case TimerFires => s.(loop := Collecting)
    case CycleFails => s.(loop := Arming)
    case ReplyWrite(d) => s.(interval := d, loop := Replying)
    case ReplyPost => s.(resetTick := true, loop := Arming)
    case Cancel => s.(loop := Stopped)
  }

  /** The shared fields; the two channels hold at most one token each. */
  class Collector {
    var interval: int
    var resetTick: bool
    var collectNow: bool

    constructor (initial: int)
      ensures interval == initial && !resetTick && !collectNow
    {
      interval, resetTick, collectNow := initial, false, false;
    }

    ghost function View(loop: Loop, posting: nat): State
      reads this
    {
      State(interval, resetTick, collectNow, posting, loop)
    }

    /** An uninterrupted call is the write followed by the post. */
    method SetInterval(d: int)
      modifies this
      ensures forall loop, posting ::
                View(loop, posting) == Do(Do(old(View(loop, posting)), SetWrite(d)), SetPost)
      ensures interval == d && resetTick && collectNow == old(collectNow)
    {
      interval := d;
      if !resetTick {
        resetTick := true;
      }
    }

    method CollectNow()
      modifies this
      ensures forall loop, posting :: View(loop, posting) == Do(old(View(loop, posting)), CollectNowCall)
      ensures collectNow && interval == old(interval) && resetTick == old(resetTick)
    {
      if !collectNow {
        collectNow := true;
      }
    }

    method CurrentInterval() returns (d: int)
      ensures forall posting :: Do(View(Arming, posting), Arm) == View(Waiting(d), posting)
    {
      d := interval;
    }
  }

  ghost predicate IsRun(states: seq<State>, steps: seq<Step>) {
    && |states| == |steps| + 1
    && states[0] == State(states[0].interval, false, false, 0, Arming)
    && forall i :: 0 <= i < |steps| ==> Can(states[i], steps[i]) && states[i + 1] == Do(states[i], steps[i])
  }

  predicate IsWrite(x: Step) {
    x.SetWrite? || x.ReplyWrite?
  }

  predicate IsPost(x: Step) {
    x == SetPost || x == ReplyPost
  }

  predicate StartsCycle(x: Step) {
    x == TakeCollect || x == TimerFires
  }

  predicate EndsCycle(x: Step) {
    x == CycleFails || x == ReplyPost
  }

  /** A changed interval is still on its way to the loop. */
  predicate ResetIsDue(s: State) {
    s.resetTick || s.posting > 0 || s.loop == Replying
  }

  /** The interval last asked for in the first n steps, by a caller or by the control plane. */
  function LastRequest(steps: seq<Step>, n: nat, initial: int): int
    requires n <= |steps|
  {
    if n == 0 then initial
    else if IsWrite(steps[n - 1]) then steps[n - 1].d
    else LastRequest(steps, n - 1, initial)
  }

  lemma {:induction false} IntervalIsLastRequest(states: seq<State>, steps: seq<Step>, n: nat)
    requires IsRun(states, steps) && n < |states|
    ensures states[n].interval == LastRequest(steps, n, states[0].interval)
  {
    if n > 0 {
      IntervalIsLastRequest(states, steps, n - 1);
    }
  }

  lemma {:induction false} WaitsOnInterval(states: seq<State>, steps: seq<Step>, n: nat)
    requires IsRun(states, steps) && n < |states| && states[n].loop.Waiting?
    ensures states[n].loop.armed == states[n].interval || states[n].resetTick || states[n].posting > 0
    decreases n
  {
    if states[n - 1].loop.Waiting? {
      WaitsOnInterval(states, steps, n - 1);
    }
  }

  /** While the loop waits, its timer was armed with the interval last asked for, or else a
      wake-up is pending or about to be posted. */
  lemma WaitsOnCurrentInterval(states: seq<State>, steps: seq<Step>, n: nat)
    requires IsRun(states, steps) && n < |states| && states[n].loop.Waiting?
    ensures states[n].interval == LastRequest(steps, n, states[0].interval)
    ensures || states[n].loop.armed == LastRequest(steps, n, states[0].interval)
            || states[n].resetTick || states[n].posting > 0
  {
    IntervalIsLastRequest(states, steps, n);
    WaitsOnInterval(states, steps, n);
  }

  /** A pending wake-up can be taken while the loop waits, and the timer then has the interval
      last asked for. */
  lemma WakesToLastRequest(states: seq<State>, steps: seq<Step>, n: nat)
    requires IsRun(states, steps) && n < |states| && states[n].loop.Waiting? && states[n].resetTick
    ensures Can(states[n], TakeReset) && Can(Do(states[n], TakeReset), Arm)
    ensures Do(Do(states[n], TakeReset), Arm).loop == Waiting(LastRequest(steps, n, states[0].interval))
  {
    IntervalIsLastRequest(states, steps, n);
  }

  /** No change of interval is lost: after each one, a wake-up is due, or the loop is about
      to arm its timer, or it has armed it since. */
  lemma {:induction false} NoLostReset(states: seq<State>, steps: seq<Step>, i: nat, n: nat)
    requires IsRun(states, steps) && i < n < |states| && IsWrite(steps[i])
    ensures ResetIsDue(states[n]) || states[n].loop == Arming || exists k :: i < k < n && steps[k] == Arm
    decreases n
  {
    if i < n - 1 {
      NoLostReset(states, steps, i, n - 1);
      if k :| i < k < n - 1 && steps[k] == Arm {
        assert i < k < n && steps[k] == Arm;
      } else if states[n - 1].loop == Arming && steps[n - 1] == Arm {
        assert i < n - 1 < n;
      }
    }
  }

  /** No request is lost: after each CollectNow a token is pending or a cycle has started since. */
  lemma {:induction false} NoLostCollect(states: seq<State>, steps: seq<Step>, i: nat, n: nat)
    requires IsRun(states, steps) && i < n < |states| && steps[i] == CollectNowCall
    ensures states[n].collectNow || exists k :: i < k < n && steps[k] == TakeCollect
    decreases n
  {
    if i < n - 1 {
      NoLostCollect(states, steps, i, n - 1);
      if k :| i < k < n - 1 && steps[k] == TakeCollect {
        assert i < k < n && steps[k] == TakeCollect;
      } else if steps[n - 1] == TakeCollect {
        assert i < n - 1 < n;
      }
    }
  }

  /** What a step is counted as. */
  datatype Tally = Resets | Posts | Writes | Starts | Ends | Requests | Answers

  predicate Counts(x: Step, t: Tally) {
    match t
    case Resets => x == TakeReset
    case Posts => IsPost(x)
    case Writes => IsWrite(x)
    case Starts => StartsCycle(x)
    case Ends => EndsCycle(x)
    case Requests => x == CollectNowCall
    case Answers => x == TakeCollect
  }

  /** How many of the first n steps count as t. */
  function Count(steps: seq<Step>, n: nat, t: Tally): nat
    requires n <= |steps|
  {
    if n == 0 then 0 else Count(steps, n - 1, t) + if Counts(steps[n - 1], t) then 1 else 0
  }

  /** The loop restarts its timer at most once per change of interval. */
  lemma {:induction false} ResetsAreBounded(states: seq<State>, steps: seq<Step>, n: nat)
    requires IsRun(states, steps) && n < |states|
    ensures Count(steps, n, Resets) + (if states[n].resetTick then 1 else 0) <= Count(steps, n, Posts)
    ensures Count(steps, n, Posts) + states[n].posting + (if states[n].loop == Replying then 1 else 0)
         == Count(steps, n, Writes)
    ensures Count(steps, n, Resets) <= Count(steps, n, Writes)
  {
    if n > 0 {
      ResetsAreBounded(states, steps, n - 1);
    }
  }

  /** Cycles never overlap, and requests are coalesced rather than multiplied: a cycle starts
      only when the previous one has ended, and at most one per CollectNow besides the timer's. */
  lemma {:induction false} CyclesDoNotOverlap(states: seq<State>, steps: seq<Step>, n: nat)
    requires IsRun(states, steps) && n < |states|
    ensures Count(steps, n, Starts)
         == Count(steps, n, Ends) + if states[n].loop in {Collecting, Replying} then 1 else 0
    ensures Count(steps, n, Answers) + (if states[n].collectNow then 1 else 0) <= Count(steps, n, Requests)
  {
    if n > 0 {
      CyclesDoNotOverlap(states, steps, n - 1);
    }
  }

  /** No caller is ever made to wait, and the loop takes whatever is ready. */
  lemma NobodyWaitsForTheLoop(s: State, d: int)
    ensures Can(s, SetWrite(d)) && Can(s, CollectNowCall) && (s.posting > 0 ==> Can(s, SetPost))
    ensures s.loop == Arming ==> Can(s, Arm)
    ensures s.loop == Collecting ==> Can(s, CycleFails) && Can(s, ReplyWrite(d))
    ensures s.loop == Replying ==> Can(s, ReplyPost)
    ensures s.loop.Waiting? ==> Can(s, TimerFires) && Can(s, Cancel)
    ensures s.loop.Waiting? ==> (Can(s, TakeReset) <==> s.resetTick) && (Can(s, TakeCollect) <==> s.collectNow)
  {
  }

  /** After a cancellation no cycle starts and no timer is armed. */
  lemma {:induction false} CancelledForGood(states: seq<State>, steps: seq<Step>, i: nat, n: nat)
    requires IsRun(states, steps) && i < n < |states| && steps[i] == Cancel
    ensures states[n].loop == Stopped
    ensures n < |steps| ==> steps[n] != Arm && !StartsCycle(steps[n])
    decreases n
  {
    if i < n - 1 {
      CancelledForGood(states, steps, i, n - 1);
    }
  }
}
