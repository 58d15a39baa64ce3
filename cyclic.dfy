/**
  The wrap-around counter shared by the row timer (TokenTrapV3/GameLogic+Extensions.swift)
  and the progress bars (TokenTrapV3/GameViewModel.swift): it counts 0, 1, ..., max and
  then starts again at 0.
*/
module Cyclic {

  /** One step of the counter. */
  function Advance(value: nat, max: nat): (r: nat)
    requires value <= max
    ensures r <= max
    ensures r == 0 <==> value == max
    ensures value < max ==> r == value + 1
  {
    if value == max then 0 else value + 1
  }

  /** The counter after `n` steps from `value`. */
  function AfterSteps(value: nat, max: nat, n: nat): (r: nat)
    requires value <= max
    ensures r <= max
  {
    if n == 0 then value else Advance(AfterSteps(value, max, n - 1), max)
  }

  /** Counting from 0, the counter shows the number of steps taken, up to `max`. */
  lemma {:induction false} AfterStepsFromZero(max: nat, n: nat)
    requires n <= max
    ensures AfterSteps(0, max, n) == n
  {
    if n > 0 {
      AfterStepsFromZero(max, n - 1);
    }
  }

  /** Taking `m` steps and then `n` more is taking `m + n` steps. */
  lemma {:induction false} AfterStepsCompose(value: nat, max: nat, m: nat, n: nat)
    requires value <= max
    ensures AfterSteps(value, max, m + n) == AfterSteps(AfterSteps(value, max, m), max, n)
  {
    if n > 0 {
      AfterStepsCompose(value, max, m, n - 1);
    }
  }

  /** The counter has period `max + 1`: every `max + 1` steps it is back where it was. */
  lemma AfterStepsPeriodic(max: nat, n: nat)
    ensures AfterSteps(0, max, max + 1 + n) == AfterSteps(0, max, n)
  {
    AfterStepsFromZero(max, max);
    AfterStepsCompose(0, max, max + 1, n);
  }

  /**
    Counting from 0, the counter first reaches `max` after exactly `max` steps, and the
    step after that brings it back to 0.
  */
  lemma FullAfterMaxSteps(max: nat)
    ensures AfterSteps(0, max, max) == max
    ensures forall n :: 0 <= n < max ==> AfterSteps(0, max, n) < max
    ensures AfterSteps(0, max, max + 1) == 0
  {
    AfterStepsFromZero(max, max);
    forall n | 0 <= n < max
      ensures AfterSteps(0, max, n) < max
    {
      AfterStepsFromZero(max, n);
    }
  }
}
