/**
 The optimisation loop of pso/swarm.go and pso/workflow.go, which is chopped into child-workflow runs by
 continue-as-new: the chain of runs does what one uninterrupted loop would do.

 One iteration over the swarm is a parameter: it may fail, and otherwise gives the next swarm.
 */
module SwarmLoop {
  import opened Wrappers
  import opened Ranges

  const CONTINUE_AS_NEW := "CONTINUEASNEW"

  // The settings that the loop reads.
  datatype Limits = Limits(steps: int, printEvery: int, continueAsNewEvery: int)

  // `Panicked` is a division by zero.
  datatype RunResult<S> = Stopped(swarm: S, step: int) | Failed(swarm: S, step: int, message: string) | Panicked

  type Iterate<!S> = (S, int) -> Result<S, string>

  // ---------- One run ----------

  // A run of the loop from `step` on.
  function Run<S>(l: Limits, iterate: Iterate<S>, goal: S -> bool, swarm: S, step: int): RunResult<S>
    decreases l.steps - step
  {
    if step > l.steps then Stopped(swarm, step)
    else
      match iterate(swarm, step)
      case Err(message) => Failed(swarm, step, message)
      case Ok(next) =>
        if goal(next) then Stopped(next, step)
        else if l.printEvery == 0 then Panicked
        else if step == l.steps then Stopped(next, step)
        else if l.continueAsNewEvery == 0 then Panicked
        else if step % l.continueAsNewEvery == 0 then Failed(next, step, CONTINUE_AS_NEW)
        else Run(l, iterate, goal, next, step + 1)
  }

  // The number of iterations that a run carries out.
  function Iterations<S>(l: Limits, iterate: Iterate<S>, goal: S -> bool, swarm: S, step: int): nat
    decreases l.steps - step
  {
    if step > l.steps then 0
    else
      match iterate(swarm, step)
      case Err(_) => 1
      case Ok(next) =>
        if goal(next) || l.printEvery == 0 || step == l.steps || l.continueAsNewEvery == 0 || step % l.continueAsNewEvery == 0 then 1
        else 1 + Iterations(l, iterate, goal, next, step + 1)
  }

  // A run carries out the iterations from its first step to the one it reports, without a gap.
  lemma {:induction false} IterationsOfRun<S>(l: Limits, iterate: Iterate<S>, goal: S -> bool, swarm: S, step: int)
    ensures var r, n := Run(l, iterate, goal, swarm, step), Iterations(l, iterate, goal, swarm, step);
      if step > l.steps then n == 0 && r == Stopped(swarm, step)
      else n >= 1 && (!r.Panicked? ==> r.step == step + n - 1)
    decreases l.steps - step
  {
    if step <= l.steps && iterate(swarm, step).Ok? {
      IterationsOfRun(l, iterate, goal, iterate(swarm, step).value, step + 1);
    }
  }

  // Swarm.Run: the loop changes the swarm in place.
  class Optimizer<S> {
    var swarm: S

    constructor (swarm: S)
      ensures this.swarm == swarm
    {
      this.swarm := swarm;
    }

    // `executed` are the steps it carries out.
    method Optimize(l: Limits, iterate: Iterate<S>, goal: S -> bool, startingStep: int)
      returns (r: RunResult<S>, executed: seq<int>)
      modifies this
      ensures r == Run(l, iterate, goal, old(swarm), startingStep)
      ensures !r.Panicked? ==> r.swarm == swarm
      ensures executed == Range(startingStep, startingStep + Iterations(l, iterate, goal, old(swarm), startingStep))
    {
      var step := startingStep;
      executed := [];
      while step <= l.steps
        invariant startingStep <= step && executed == Range(startingStep, step)
        invariant step + Iterations(l, iterate, goal, swarm, step)
               == startingStep + Iterations(l, iterate, goal, old(swarm), startingStep)
        invariant Run(l, iterate, goal, swarm, step) == Run(l, iterate, goal, old(swarm), startingStep)
        decreases l.steps - step
      {
        var next := iterate(swarm, step);
        executed := executed + [step];
        assert executed == Range(startingStep, step + 1);
        if next.Err? {
          return Failed(swarm, step, next.error), executed;
        }
        swarm := next.value;
        if goal(swarm) {
          return Stopped(swarm, step), executed;
        }
        if l.printEvery == 0 {
          return Panicked, executed;
        }
        if step == l.steps {
          break;
        }
        if l.continueAsNewEvery == 0 {
          return Panicked, executed;
        }
        if step % l.continueAsNewEvery == 0 {
          return Failed(swarm, step, CONTINUE_AS_NEW), executed;
        }
        step := step + 1;
      }
      return Stopped(swarm, step), executed;
    }
  }

  // ---------- The chain of runs and the whole loop ----------

  datatype Verdict<S> = Success(swarm: S, step: int) | NoSuccess(swarm: S, step: int) | Broken(message: string) | Crashed

  function VerdictOn<S>(goal: S -> bool, swarm: S, step: int): Verdict<S> {
    if goal(swarm) then Success(swarm, step) else NoSuccess(swarm, step)
  }

  lemma {:induction false} RunsAdvance<S>(l: Limits, iterate: Iterate<S>, goal: S -> bool, swarm: S, step: int)
    ensures var r := Run(l, iterate, goal, swarm, step);
      r.Failed? ==> step <= r.step <= l.steps
    decreases l.steps - step
  {
    if step <= l.steps && iterate(swarm, step).Ok? {
      RunsAdvance(l, iterate, goal, iterate(swarm, step).value, step + 1);
    }
  }

  // PSOChildWorkflow: a run whose error is the continue-as-new mark is followed by a run from the next step.
  function Chain<S>(l: Limits, iterate: Iterate<S>, goal: S -> bool, swarm: S, step: int): Verdict<S>
    decreases l.steps - step
  {
    RunsAdvance(l, iterate, goal, swarm, step);
    match Run(l, iterate, goal, swarm, step)
    case Panicked => Crashed
    case Failed(next, at, message) =>
      if message == CONTINUE_AS_NEW then Chain(l, iterate, goal, next, at + 1) else Broken(message)
    case Stopped(end, at) => VerdictOn(goal, end, at)
  }

  // The loop without interruptions.
  function Whole<S>(l: Limits, iterate: Iterate<S>, goal: S -> bool, swarm: S, step: int): Verdict<S>
    decreases l.steps - step
  {
    if step > l.steps then VerdictOn(goal, swarm, step)
    else
      match iterate(swarm, step)
      case Err(message) => Broken(message)
      case Ok(next) =>
        if goal(next) || step == l.steps then VerdictOn(goal, next, step)
        else Whole(l, iterate, goal, next, step + 1)
  }

  // No activity fails with the text that marks continue-as-new.
  ghost predicate Unmarked<S(!new)>(iterate: Iterate<S>) {
    forall swarm: S, step: int :: iterate(swarm, step) != Err(CONTINUE_AS_NEW)
  }

  /** The chain of runs stops at the same step, with the same swarm and the same verdict as the whole loop. */
  lemma {:induction false} ChainIsWhole<S(!new)>(l: Limits, iterate: Iterate<S>, goal: S -> bool, swarm: S, step: int)
    requires l.printEvery != 0 && l.continueAsNewEvery != 0 && Unmarked(iterate)
    ensures Chain(l, iterate, goal, swarm, step) == Whole(l, iterate, goal, swarm, step)
    decreases l.steps - step
  {
    if step <= l.steps && iterate(swarm, step).Ok? {
      var next := iterate(swarm, step).value;
      if !goal(next) && step != l.steps {
        ChainIsWhole(l, iterate, goal, next, step + 1);
      }
    }
  }

  // A run reaches the next multiple of continueAsNewEvery at the latest.
  lemma {:induction false} RunsEndAtMultiples<S>(l: Limits, iterate: Iterate<S>, goal: S -> bool, swarm: S, step: int, m: nat)
    requires l.continueAsNewEvery >= 1 && m >= 1 && (step + m - 1) % l.continueAsNewEvery == 0
    ensures Iterations(l, iterate, goal, swarm, step) <= m
    decreases m
  {
    if step <= l.steps && iterate(swarm, step).Ok? && m > 1 {
      RunsEndAtMultiples(l, iterate, goal, iterate(swarm, step).value, step + 1, m - 1);
    }
  }

  /** A run carries out at most continueAsNewEvery iterations, and fewer when it starts between two multiples of it. */
  lemma RunsAreShort<S>(l: Limits, iterate: Iterate<S>, goal: S -> bool, swarm: S, step: int)
    requires l.continueAsNewEvery >= 1
    ensures var most := l.continueAsNewEvery - (step - 1) % l.continueAsNewEvery;
      && Iterations(l, iterate, goal, swarm, step) <= most
      && var r := Run(l, iterate, goal, swarm, step);
         (!r.Panicked? && step <= l.steps ==> step <= r.step < step + most)
  {
    IterationsOfRun(l, iterate, goal, swarm, step);
    var every := l.continueAsNewEvery;
    NextMultiple(step - 1, every);
    RunsEndAtMultiples(l, iterate, goal, swarm, step, every - (step - 1) % every);
  }

  lemma NextMultiple(n: int, every: int)
    requires every >= 1
    ensures 0 <= n % every < every && (n + (every - n % every)) % every == 0
  {
    var q := n / every;
    assert n == q * every + n % every;
    assert n + (every - n % every) == q * every + every;
    MultipleHasNoRemainder(q, every);
  }

  lemma MultipleHasNoRemainder(q: int, every: int)
    requires every >= 1
    ensures (q * every + every) % every == 0
  {
    var n := q * every + every;
    QuotientAndRemainder(n, every);
    SmallMultipleIsZero(q + 1 - n / every, every, n % every);
  }

  lemma QuotientAndRemainder(n: int, every: int)
    requires every >= 1
    ensures n == (n / every) * every + n % every && 0 <= n % every < every
  {}

  lemma SmallMultipleIsZero(k: int, every: int, r: int)
    requires every >= 1 && k * every == r && 0 <= r < every
    ensures r == 0
  {
    ProductIsFarFromZero(k, every);
  }

  lemma ProductIsFarFromZero(k: int, every: int)
    requires every >= 1
    ensures (k >= 1 ==> k * every >= every) && (k <= -1 ==> k * every <= -every)
  {}

  /** A run continues as new at the first multiple of continueAsNewEvery that it reaches, before the last step. */
  lemma {:induction false} ContinuesAtFirstMultiple<S(!new)>(l: Limits, iterate: Iterate<S>, goal: S -> bool, swarm: S, step: int)
    requires Unmarked(iterate)
    ensures var r := Run(l, iterate, goal, swarm, step);
      r.Failed? && r.message == CONTINUE_AS_NEW ==>
        && step <= r.step < l.steps && l.continueAsNewEvery != 0 && r.step % l.continueAsNewEvery == 0
        && forall k | step <= k < r.step :: k % l.continueAsNewEvery != 0
    ensures var r := Run(l, iterate, goal, swarm, step);
      r.Stopped? && l.continueAsNewEvery != 0 ==> forall k | step <= k < r.step :: k % l.continueAsNewEvery != 0
    decreases l.steps - step
  {
    if step <= l.steps && iterate(swarm, step).Ok? {
      ContinuesAtFirstMultiple(l, iterate, goal, iterate(swarm, step).value, step + 1);
    }
  }

  // ---------- Where the loop stops ----------

  // The swarm after n iterations from this step, or the first failure.
  function Trace<S>(iterate: Iterate<S>, swarm: S, step: int, n: nat): Result<S, string>
    decreases n
  {
    if n == 0 then Ok(swarm)
    else
      match iterate(swarm, step)
      case Err(message) => Err(message)
      case Ok(next) => Trace(iterate, next, step + 1, n - 1)
  }

  // The iterations before the n-th one were well and did not reach the goal.
  predicate NoGoalBefore<S>(iterate: Iterate<S>, goal: S -> bool, swarm: S, step: int, n: nat) {
    forall k | 1 <= k < n :: Trace(iterate, swarm, step, k).Ok? && !goal(Trace(iterate, swarm, step, k).value)
  }

  /**
   The loop, whole or chopped into runs, ends in success after the first iteration that reaches the goal, without
   success after the last step if none does, and with an error at the first iteration that fails before that.
   */
  lemma WholeStopsAtGoal<S>(l: Limits, iterate: Iterate<S>, goal: S -> bool, swarm: S, step: int)
    requires step <= l.steps
    ensures match Whole(l, iterate, goal, swarm, step)
      case Success(end, at) =>
        && step <= at <= l.steps && Trace(iterate, swarm, step, at - step + 1) == Ok(end) && goal(end)
        && NoGoalBefore(iterate, goal, swarm, step, at - step + 1)
      case NoSuccess(end, at) =>
        && at == l.steps && Trace(iterate, swarm, step, at - step + 1) == Ok(end)
        && NoGoalBefore(iterate, goal, swarm, step, at - step + 2)
      case Broken(message) =>
        exists n: nat | 1 <= n <= l.steps - step + 1 ::
          Trace(iterate, swarm, step, n) == Err(message) && NoGoalBefore(iterate, goal, swarm, step, n)
      case Crashed => false
    decreases l.steps - step
  {
    match iterate(swarm, step)
    case Err(message) =>
      assert Trace(iterate, swarm, step, 1) == Err(message) && NoGoalBefore(iterate, goal, swarm, step, 1);
    case Ok(next) =>
      assert Trace(iterate, swarm, step, 1) == Ok(next);
      if !goal(next) && step != l.steps {
        WholeStopsAtGoal(l, iterate, goal, next, step + 1);
        assert forall n: nat | n >= 1 :: Trace(iterate, swarm, step, n) == Trace(iterate, next, step + 1, n - 1);
        match Whole(l, iterate, goal, next, step + 1)
        case Success(end, at) => OneIterationMore(iterate, goal, swarm, step, at - step);
        case NoSuccess(end, at) => OneIterationMore(iterate, goal, swarm, step, at - step + 1);
        case Broken(message) =>
          var n: nat :| 1 <= n <= l.steps - step && Trace(iterate, next, step + 1, n) == Err(message)
            && NoGoalBefore(iterate, goal, next, step + 1, n);
          OneIterationMore(iterate, goal, swarm, step, n);
          assert Trace(iterate, swarm, step, n + 1) == Err(message);
        case Crashed =>
      }
  }

  lemma OneIterationMore<S>(iterate: Iterate<S>, goal: S -> bool, swarm: S, step: int, n: nat)
    requires iterate(swarm, step).Ok? && !goal(iterate(swarm, step).value)
    requires NoGoalBefore(iterate, goal, iterate(swarm, step).value, step + 1, n)
    ensures NoGoalBefore(iterate, goal, swarm, step, n + 1)
  {
    var next := iterate(swarm, step).value;
    forall k | 1 <= k < n + 1 ensures Trace(iterate, swarm, step, k).Ok? && !goal(Trace(iterate, swarm, step, k).value) {
      assert Trace(iterate, swarm, step, k) == Trace(iterate, next, step + 1, k - 1);
      if k == 1 { assert Trace(iterate, next, step + 1, 0) == Ok(next); }
    }
  }

  // ---------- Division by zero ----------

  // The limits let an iteration of this step pass both divisions.
  predicate SafeStep(l: Limits, step: int) {
    l.printEvery != 0 && (l.continueAsNewEvery != 0 || step == l.steps)
  }

  /**
   The settings say that zero turns the progress messages off; the loop divides by it. A run from this step
   cannot crash, whatever its iterations do, exactly when there is nothing to do or both numbers are not zero,
   the second one only if more than the last step is left.
   */
  lemma SafeLimitsNeverPanic<S(!new)>(l: Limits, swarm: S, step: int)
    ensures (forall iterate: Iterate<S>, goal: S -> bool :: !Run(l, iterate, goal, swarm, step).Panicked?)
       <==> step > l.steps || SafeStep(l, step)
  {
    var same: Iterate<S> := (s, k) => Ok(s);
    var never: S -> bool := s => false;
    PanicsAtFirst(l, same, never, swarm, step);
    forall iterate: Iterate<S>, goal: S -> bool
      ensures Run(l, iterate, goal, swarm, step).Panicked? ==> step <= l.steps && !SafeStep(l, step)
    {
      PanicsAtFirst(l, iterate, goal, swarm, step);
    }
  }

  // With such a zero the first iteration decides; without one no later iteration crashes.
  lemma {:induction false} PanicsAtFirst<S>(l: Limits, iterate: Iterate<S>, goal: S -> bool, swarm: S, step: int)
    ensures Run(l, iterate, goal, swarm, step).Panicked? <==>
      step <= l.steps && !SafeStep(l, step) && iterate(swarm, step).Ok? && !goal(iterate(swarm, step).value)
    decreases l.steps - step
  {
    if step <= l.steps && iterate(swarm, step).Ok? {
      PanicsAtFirst(l, iterate, goal, iterate(swarm, step).value, step + 1);
    }
  }

  /** The chain of runs cannot crash either, under exactly the same limits. */
  lemma SafeLimitsNeverCrash<S(!new)>(l: Limits, swarm: S, step: int)
    ensures (forall iterate: Iterate<S>, goal: S -> bool | Unmarked(iterate) :: Chain(l, iterate, goal, swarm, step) != Crashed)
       <==> step > l.steps || SafeStep(l, step)
  {
    var same: Iterate<S> := (s, k) => Ok(s);
    var never: S -> bool := s => false;
    PanicsAtFirst(l, same, never, swarm, step);
    assert Unmarked(same);
    assert step <= l.steps && !SafeStep(l, step) ==> Chain(l, same, never, swarm, step) == Crashed;
    forall iterate: Iterate<S>, goal: S -> bool | Unmarked(iterate) && (step > l.steps || SafeStep(l, step))
      ensures Chain(l, iterate, goal, swarm, step) != Crashed
    {
      if step < l.steps {
        ChainIsWhole(l, iterate, goal, swarm, step);
        WholeNeverCrashes(l, iterate, goal, swarm, step);
      }
    }
  }

  lemma {:induction false} WholeNeverCrashes<S>(l: Limits, iterate: Iterate<S>, goal: S -> bool, swarm: S, step: int)
    ensures Whole(l, iterate, goal, swarm, step) != Crashed
    decreases l.steps - step
  {
    if step <= l.steps && iterate(swarm, step).Ok? {
      WholeNeverCrashes(l, iterate, goal, iterate(swarm, step).value, step + 1);
    }
  }
}
