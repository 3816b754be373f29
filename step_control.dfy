/**
 * The step-size and convergence controller of the GLRM driver. Each iteration proposes a
 * candidate (X, Y) pair whose objective value is an input here. The controller accepts the
 * candidate when the objective decreased, growing the step, and rejects it otherwise,
 * shrinking the step. It stops on cancellation, on the iteration budget, on a step below
 * the minimum, or once progress per observation falls under a tolerance after a long
 * enough run of accepted steps.
 */
module StepControl {

  /** Average decrease of the objective per observation below which the fit has converged. */
  const Tolerance: real := 0.000001

  /** Growth factor of the step after an accepted iteration. */
  const Growth: real := 1.05

  /** Smallest divisor of the step after a rejected iteration. */
  const MinShrink: real := 1.5

  /**
   * The controller state: the step size, the signed run-length counter (positive: that many
   * accepted steps in a row; zero or negative: rejections), the number of iterations, the
   * objective of the committed solution, its last average change, and whether the last
   * candidate X replaced the committed one.
   */
  datatype Controller = Controller(
    step: real,
    stepsInRow: int,
    iterations: nat,
    objective: real,
    avgChangeObj: real,
    overwriteX: bool)

  function Abs(x: real): (a: real) {
    if x < 0.0 then -x else x
  }

  /**
   * The tolerance test of the stopping rule: more than 10 iterations, steps_in_row > 3 (that
   * is, the last four iterations were all accepted), and a small average change.
   */
  predicate ToleranceReached(c: Controller) {
    c.iterations > 10 && c.stepsInRow > 3 && Abs(c.avgChangeObj) < Tolerance
  }

  /**
   * The state before the first iteration. The average change starts at twice the tolerance
   * so that the tolerance test cannot stop the loop before it has run once.
   */
  function Start(initStep: real, objective: real): (c: Controller)
    ensures !ToleranceReached(c)
    ensures c.iterations == 0 && c.stepsInRow == 0 && !c.overwriteX
  {
    Controller(initStep, 0, 0, objective, 2.0 * Tolerance, false)
  }

  /**
   * The new run-length counter after an accepted or rejected iteration: positive exactly after
   * an acceptance, one longer when it continues a run of the same kind, and restarted at 1 or 0
   * when it breaks one.
   */
  function NextRun(s: int, accepted: bool): (s': int)
    ensures accepted <==> s' > 0
    ensures accepted ==> s' == (if s > 0 then s + 1 else 1)
    ensures !accepted ==> s' == (if s <= 0 then s - 1 else 0)
  {
    if accepted then (if s + 1 > 1 then s + 1 else 1) else (if s - 1 < 0 then s - 1 else 0)
  }

  /** Divisor of the step after a rejection: max(1.5, -s). */
  function Shrink(s: int): (d: real)
    ensures d >= MinShrink
  {
    if MinShrink >= (-s) as real then MinShrink else (-s) as real
  }

  /**
   * One iteration: compare the candidate objective with the committed one, averaged over
   * `nobs` observations. A decrease accepts the candidate; anything else rejects it.
   */
  function Transition(c: Controller, objNew: real, nobs: real): (d: Controller)
    requires nobs > 0.0
    ensures d.iterations == c.iterations + 1
    ensures d.overwriteX <==> objNew < c.objective
    ensures d.overwriteX <==> d.stepsInRow > 0
    ensures d.overwriteX ==> d.objective == objNew
    ensures !d.overwriteX ==> d.objective == c.objective
    ensures d.objective <= c.objective
    ensures d.stepsInRow == NextRun(c.stepsInRow, d.overwriteX)
  {
    var avg := (c.objective - objNew) / nobs;
    if avg > 0.0 then
      Controller(c.step * Growth, NextRun(c.stepsInRow, true), c.iterations + 1, objNew, avg, true)
    else
      Controller(c.step / Shrink(c.stepsInRow), NextRun(c.stepsInRow, false), c.iterations + 1, c.objective, avg, false)
  }

  /**
   * An accepted iteration multiplies the step by 1.05, a rejected one divides it by
   * max(1.5, -steps_in_row); a positive step stays positive, grows on acceptance and
   * shrinks on rejection.
   */
  lemma TransitionStep(c: Controller, objNew: real, nobs: real)
    requires nobs > 0.0
    ensures var d := Transition(c, objNew, nobs);
      (d.overwriteX ==> d.step == c.step * Growth) &&
      (!d.overwriteX ==> d.step * Shrink(c.stepsInRow) == c.step)
    ensures var d := Transition(c, objNew, nobs);
      c.step > 0.0 ==> 0.0 < d.step && (d.overwriteX ==> d.step > c.step) && (!d.overwriteX ==> d.step < c.step)
  {
    var d := Transition(c, objNew, nobs);
    if !d.overwriteX {
      var k := Shrink(c.stepsInRow);
      var q := c.step / k;
      assert d.step == q;
      assert q * k == c.step;
      if c.step > 0.0 {
        DivShrinks(c.step, k);
      }
    }
  }

  /** Dividing a positive real by a factor above 1 keeps it positive and makes it smaller. */
  lemma DivShrinks(x: real, k: real)
    requires x > 0.0 && k > 1.0
    ensures 0.0 < x / k < x
  {
    var q := x / k;
    assert q * k == x;
    assert q > 0.0;
    assert x - q == q * (k - 1.0);
  }

  /**
   * The stopping rule: cancellation (`running` false), the iteration budget, a step at or
   * below the minimum, or the tolerance test.
   */
  predicate IsDone(c: Controller, running: bool, maxIterations: int, minStepSize: real) {
    !running || c.iterations >= maxIterations || c.step <= minStepSize || ToleranceReached(c)
  }

  /**
   * The loop's first test: before any iteration the tolerance test cannot fire, so the loop
   * does not run at all exactly when the job is cancelled, the iteration budget is not
   * positive, or the initial step is already at or below the minimum.
   */
  lemma IsDoneAtStart(initStep: real, objective: real, running: bool, maxIterations: int, minStepSize: real)
    ensures IsDone(Start(initStep, objective), running, maxIterations, minStepSize) <==>
      !running || maxIterations <= 0 || initStep <= minStepSize
  {
  }

  /** The state after n iterations whose candidate objectives are candidate(0), ..., candidate(n - 1). */
  function Run(c0: Controller, candidate: nat -> real, nobs: real, n: nat): (c: Controller)
    requires nobs > 0.0
    ensures c.iterations == c0.iterations + n
    decreases n
  {
    if n == 0 then c0 else Transition(Run(c0, candidate, nobs, n - 1), candidate(n - 1), nobs)
  }

  /** The stopping rule held at none of the first n iteration counts. */
  predicate ContinuedThrough(c0: Controller, candidate: nat -> real, nobs: real, running: nat -> bool,
                             maxIterations: int, minStepSize: real, n: nat)
    requires nobs > 0.0
    decreases n
  {
    n == 0 ||
    (ContinuedThrough(c0, candidate, nobs, running, maxIterations, minStepSize, n - 1) &&
     !DoneAt(c0, candidate, nobs, running, maxIterations, minStepSize, n - 1))
  }

  /** The stopping rule at iteration count k of a run. */
  predicate DoneAt(c0: Controller, candidate: nat -> real, nobs: real, running: nat -> bool,
                   maxIterations: int, minStepSize: real, k: nat)
    requires nobs > 0.0
  {
    IsDone(Run(c0, candidate, nobs, k), running(k), maxIterations, minStepSize)
  }

  /** ContinuedThrough means that the loop was not done at any earlier iteration count. */
  lemma {:induction false} ContinuedThroughMeaning(c0: Controller, candidate: nat -> real, nobs: real, running: nat -> bool,
                                                   maxIterations: int, minStepSize: real, n: nat)
    requires nobs > 0.0
    ensures ContinuedThrough(c0, candidate, nobs, running, maxIterations, minStepSize, n) <==>
      forall k :: 0 <= k < n ==> !DoneAt(c0, candidate, nobs, running, maxIterations, minStepSize, k)
    decreases n
  {
    if n > 0 {
      ContinuedThroughMeaning(c0, candidate, nobs, running, maxIterations, minStepSize, n - 1);
      assert DoneAt(c0, candidate, nobs, running, maxIterations, minStepSize, n - 1) <==>
        IsDone(Run(c0, candidate, nobs, n - 1), running(n - 1), maxIterations, minStepSize);
    }
  }

  /**
   * The driver loop. The candidate objective and the job's running flag at each iteration
   * are inputs. The loop stops at the first iteration count at which IsDone holds, which is
   * never beyond the iteration budget.
   */
  method Optimize(initStep: real, objective0: real, nobs: real, maxIterations: nat, minStepSize: real,
                  running: nat -> bool, candidate: nat -> real) returns (c: Controller)
    requires initStep > 0.0 && nobs > 0.0
    ensures c == Run(Start(initStep, objective0), candidate, nobs, c.iterations)
    ensures IsDone(c, running(c.iterations), maxIterations, minStepSize)
    ensures ContinuedThrough(Start(initStep, objective0), candidate, nobs, running, maxIterations, minStepSize, c.iterations)
    ensures c.iterations <= maxIterations
  {
    var c0 := Start(initStep, objective0);
    c := c0;
    var step := initStep;
    var stepsInRow := 0;
    var overwriteX := false;
    while !IsDone(c, running(c.iterations), maxIterations, minStepSize)
      invariant c == Run(c0, candidate, nobs, c.iterations)
      invariant c.step == step && c.stepsInRow == stepsInRow && c.overwriteX == overwriteX
      invariant c.iterations <= maxIterations
      invariant ContinuedThrough(c0, candidate, nobs, running, maxIterations, minStepSize, c.iterations)
      decreases maxIterations - c.iterations
    {
      ghost var before := c;
      var objNew := candidate(c.iterations);
      var avg := (c.objective - objNew) / nobs;
      var objective := c.objective;
      if avg > 0.0 {
        objective := objNew;
        step := step * Growth;
        stepsInRow := if 1 > stepsInRow + 1 then 1 else stepsInRow + 1;
        overwriteX := true;
      } else {
        // Objective increased: re-run with a smaller step
        step := step / Shrink(stepsInRow);
        stepsInRow := if 0 < stepsInRow - 1 then 0 else stepsInRow - 1;
        overwriteX := false;
      }
      c := Controller(step, stepsInRow, c.iterations + 1, objective, avg, overwriteX);
      assert c == Transition(before, objNew, nobs);
      assert before == Run(c0, candidate, nobs, before.iterations);
    }
  }

  /** The accept (true) / reject (false) decisions of the first n iterations. */
  function Decisions(c0: Controller, candidate: nat -> real, nobs: real, n: nat): (h: seq<bool>)
    requires nobs > 0.0
    ensures |h| == n
    decreases n
  {
    if n == 0 then [] else Decisions(c0, candidate, nobs, n - 1) + [Run(c0, candidate, nobs, n).overwriteX]
  }

  /** Number of trailing entries of h equal to b. */
  function Trailing(h: seq<bool>, b: bool): (k: nat)
    ensures k <= |h|
    ensures forall i :: |h| - k <= i < |h| ==> h[i] == b
    ensures k < |h| ==> h[|h| - 1 - k] != b
    decreases |h|
  {
    if |h| == 0 || h[|h| - 1] != b then 0 else Trailing(h[..|h| - 1], b) + 1
  }

  /** The counter obtained by feeding the decisions h to NextRun from 0. */
  function RunLength(h: seq<bool>): (r: int)
    decreases |h|
  {
    if |h| == 0 then 0 else NextRun(RunLength(h[..|h| - 1]), h[|h| - 1])
  }

  /**
   * What the counter means: after a run of k accepted steps it is k; after a run of r
   * rejections it is -r when nothing was ever accepted, and 1 - r otherwise (the first
   * rejection after an accepted step resets it to 0).
   */
  lemma {:induction false} RunLengthMeaning(h: seq<bool>)
    ensures |h| > 0 && h[|h| - 1] ==> RunLength(h) == Trailing(h, true)
    ensures |h| > 0 && !h[|h| - 1] && Trailing(h, false) == |h| ==> RunLength(h) == -|h|
    ensures |h| > 0 && !h[|h| - 1] && Trailing(h, false) < |h| ==> RunLength(h) == 1 - Trailing(h, false)
    ensures RunLength(h) > 0 <==> |h| > 0 && h[|h| - 1]
    decreases |h|
  {
    if |h| > 0 {
      var init := h[..|h| - 1];
      RunLengthMeaning(init);
      if |init| > 0 {
        assert init[|init| - 1] == h[|h| - 2];
      }
      if h[|h| - 1] {
        assert Trailing(h, true) == Trailing(init, true) + 1;
      } else {
        assert Trailing(h, false) == Trailing(init, false) + 1;
      }
    }
  }

  /** The controller's counter is the run length of its decisions. */
  lemma {:induction false} CounterIsRunLength(c0: Controller, candidate: nat -> real, nobs: real, n: nat)
    requires nobs > 0.0 && c0.stepsInRow == 0
    ensures Run(c0, candidate, nobs, n).stepsInRow == RunLength(Decisions(c0, candidate, nobs, n))
    decreases n
  {
    if n > 0 {
      CounterIsRunLength(c0, candidate, nobs, n - 1);
      var h := Decisions(c0, candidate, nobs, n);
      assert h[..|h| - 1] == Decisions(c0, candidate, nobs, n - 1);
    }
  }

  /**
   * The tolerance test only stops the loop after at least four accepted steps in a row:
   * the last four decisions were all acceptances.
   */
  lemma ToleranceStopFollowsAcceptedRun(initStep: real, objective0: real, candidate: nat -> real, nobs: real, n: nat)
    requires nobs > 0.0
    requires ToleranceReached(Run(Start(initStep, objective0), candidate, nobs, n))
    ensures n > 10
    ensures var h := Decisions(Start(initStep, objective0), candidate, nobs, n);
      forall i :: n - 4 <= i < n ==> h[i]
  {
    var c0 := Start(initStep, objective0);
    var h := Decisions(c0, candidate, nobs, n);
    CounterIsRunLength(c0, candidate, nobs, n);
    RunLengthMeaning(h);
  }

  /** The committed objective never increases, and the step stays positive. */
  lemma {:induction false} RunMonotone(c0: Controller, candidate: nat -> real, nobs: real, m: nat, n: nat)
    requires nobs > 0.0 && m <= n
    ensures Run(c0, candidate, nobs, n).objective <= Run(c0, candidate, nobs, m).objective
    ensures c0.step > 0.0 ==> Run(c0, candidate, nobs, n).step > 0.0
    decreases n
  {
    if n > 0 {
      if m < n {
        RunMonotone(c0, candidate, nobs, m, n - 1);
      }
      RunMonotone(c0, candidate, nobs, n - 1, n - 1);
      TransitionStep(Run(c0, candidate, nobs, n - 1), candidate(n - 1), nobs);
    }
  }

  /** Each decision is the comparison of the candidate with the committed objective. */
  lemma DecisionIsImprovement(c0: Controller, candidate: nat -> real, nobs: real, n: nat, k: nat)
    requires nobs > 0.0 && k < n
    ensures Decisions(c0, candidate, nobs, n)[k] <==> candidate(k) < Run(c0, candidate, nobs, k).objective
    ensures Decisions(c0, candidate, nobs, n)[k] <==> Run(c0, candidate, nobs, k + 1).stepsInRow > 0
  {
    if k < n - 1 {
      DecisionIsImprovement(c0, candidate, nobs, n - 1, k);
      assert Decisions(c0, candidate, nobs, n)[k] == Decisions(c0, candidate, nobs, n - 1)[k];
    }
  }
}
