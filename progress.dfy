/**
  The indicator bars of the game screen (`GameViewModel.Progress` in
  TokenTrapV3/GameViewModel.swift): a fixed row of indicators, each with an on light
  and a warning light, and a counter saying how many are on. The time bar has 4
  indicators, the level bar 10.
*/
module ViewModel {
  import Cyclic
  import Game
  import GameExtensions

  /** `GameViewModel.Progress(count: 4)`, the time bar. */
  const TimeIndicatorCount: nat := 4
  /** `GameViewModel.Progress(count: 10)`, the level bar. */
  const LevelIndicatorCount: nat := 10

  class Indicator {
    var isOn: bool
    var isWarningOn: bool

    constructor ()
      ensures !isOn && !isWarningOn
    {
      isOn := false;
      isWarningOn := false;
    }
  }

  class Progress {
    /** The indicators; the list never changes, only their lights do. */
    const indicators: seq<Indicator>
    var currentValue: nat

    /** The counter is within the bar, and no indicator is listed twice. */
    ghost predicate Valid()
      reads this
    {
      currentValue <= |indicators| &&
      forall i, j :: 0 <= i < j < |indicators| ==> indicators[i] != indicators[j]
    }

    /** `init(count:)`: `count` new indicators, all dark, the counter at 0. */
    constructor (count: nat)
      ensures Valid() && |indicators| == count && currentValue == 0
      ensures fresh(set i | i in indicators)
      ensures forall i :: 0 <= i < count ==> !indicators[i].isOn && !indicators[i].isWarningOn
    {
      var made: seq<Indicator> := [];
      for k := 0 to count
        invariant |made| == k
        invariant fresh(set i | i in made)
        invariant forall i :: 0 <= i < k ==> !made[i].isOn && !made[i].isWarningOn
        invariant forall i, j :: 0 <= i < j < k ==> made[i] != made[j]
      {
        var indicator := new Indicator();
        made := made + [indicator];
      }
      indicators := made;
      currentValue := 0;
    }

    /** `isComplete`: every indicator is counted. */
    function IsComplete(): (r: bool)
      reads this
      ensures r <==> currentValue == |indicators|
    {
      currentValue == |indicators|
    }

    /**
      `updateValue()`: the counter advances, wrapping from a full bar to 0, and exactly
      the indicators below the new counter are on; the warning lights stay as they were.
    */
    method UpdateValue()
      requires Valid()
      modifies this, set i | i in indicators
      ensures Valid()
      ensures currentValue == Cyclic.Advance(old(currentValue), |indicators|)
      ensures forall i :: 0 <= i < |indicators| ==> indicators[i].isOn == (i < currentValue)
      ensures forall i :: 0 <= i < |indicators| ==> indicators[i].isWarningOn == old(indicators[i].isWarningOn)
    {
      currentValue := if currentValue < |indicators| then currentValue + 1 else 0;
      for index := 0 to |indicators|
        invariant currentValue == Cyclic.Advance(old(currentValue), |indicators|)
        invariant forall i :: 0 <= i < index ==> indicators[i].isOn == (i < currentValue)
        invariant forall i :: 0 <= i < |indicators| ==> indicators[i].isWarningOn == old(indicators[i].isWarningOn)
      {
        indicators[index].isOn := index < currentValue;
      }
    }

    /** `reset()`: the counter at 0 and every light off. */
    method Reset()
      requires Valid()
      modifies this, set i | i in indicators
      ensures Valid() && currentValue == 0
      ensures forall i :: 0 <= i < |indicators| ==> !indicators[i].isOn && !indicators[i].isWarningOn
    {
      currentValue := 0;
      for index := 0 to |indicators|
        invariant currentValue == 0
        invariant forall i :: 0 <= i < index ==> !indicators[i].isOn && !indicators[i].isWarningOn
      {
        indicators[index].isOn := false;
        indicators[index].isWarningOn := false;
      }
    }

    /** `activateWarning()`: every warning light on; the counter and the on lights stay. */
    method ActivateWarning()
      requires Valid()
      modifies set i | i in indicators
      ensures Valid()
      ensures forall i :: 0 <= i < |indicators| ==> indicators[i].isWarningOn
      ensures forall i :: 0 <= i < |indicators| ==> indicators[i].isOn == old(indicators[i].isOn)
    {
      for index := 0 to |indicators|
        invariant forall i :: 0 <= i < index ==> indicators[i].isWarningOn
        invariant forall i :: 0 <= i < |indicators| ==> indicators[i].isOn == old(indicators[i].isOn)
      {
        indicators[index].isWarningOn := true;
      }
    }

    /** `setComplete()`: the bar is complete and every indicator is on; the warning lights stay. */
    method SetComplete()
      requires Valid()
      modifies this, set i | i in indicators
      ensures Valid() && IsComplete()
      ensures forall i :: 0 <= i < |indicators| ==> indicators[i].isOn
      ensures forall i :: 0 <= i < |indicators| ==> indicators[i].isWarningOn == old(indicators[i].isWarningOn)
    {
      currentValue := |indicators|;
      for index := 0 to |indicators|
        invariant currentValue == |indicators|
        invariant forall i :: 0 <= i < index ==> indicators[i].isOn
        invariant forall i :: 0 <= i < |indicators| ==> indicators[i].isWarningOn == old(indicators[i].isWarningOn)
      {
        indicators[index].isOn := true;
      }
    }
  }

  /**
    The level bar is advanced once per cleared row: from a reset it is complete after
    exactly the rows a level needs, not before, and the time bar has one indicator per
    row-timer tick.
  */
  lemma LevelBarCompleteWithLevel()
    ensures LevelIndicatorCount == Game.RequiredRowsCleared
    ensures TimeIndicatorCount == GameExtensions.IndicatorCount
    ensures Cyclic.AfterSteps(0, LevelIndicatorCount, Game.RequiredRowsCleared) == LevelIndicatorCount
    ensures forall n :: 0 <= n < Game.RequiredRowsCleared ==>
      Cyclic.AfterSteps(0, LevelIndicatorCount, n) != LevelIndicatorCount
  {
    Cyclic.FullAfterMaxSteps(LevelIndicatorCount);
  }
}
