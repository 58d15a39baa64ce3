/**
  The row timer's counter, the game state record, board rows and selections
  (TokenTrapV3/GameLogic+Extensions.swift).

  The row timer counts ticks 0..4 and is full at 4; the next tick starts again at 0.
  The system timer that drives the ticks is not part of this model: a tick is an
  explicit call, and the callback's argument is what the call returns.
*/
module GameExtensions {
  import opened Wrappers
  import opened Tokens
  import Game
  import Cyclic

  /** `RowTimer.indicatorCount`. */
  const IndicatorCount: nat := 4

  class RowTimer {
    var value: nat
    /** Whether the repeating system timer is scheduled. */
    var isRunning: bool

    ghost predicate Valid()
      reads this
    {
      value <= IndicatorCount
    }

    constructor ()
      ensures Valid() && value == 0 && !isRunning
    {
      value := 0;
      isRunning := false;
    }

    /** `isFull`: the counter shows every indicator. */
    function IsFull(): (r: bool)
      reads this
      ensures r <==> value == IndicatorCount
    {
      value == IndicatorCount
    }

    /** `start()`: restarts the counter at 0 and schedules the ticks. */
    method Start()
      modifies this
      ensures Valid() && value == 0 && isRunning
    {
      value := 0;
      isRunning := true;
    }

    /** `cancel()`: stops the ticks and keeps the counter where it is. */
    method Cancel()
      modifies this
      ensures value == old(value) && !isRunning
    {
      isRunning := false;
    }

    /** `handleTimer()`: one tick; the callback receives the counter after the tick. */
    method HandleTimer() returns (callbackValue: nat)
      requires Valid()
      modifies this`value
      ensures Valid()
      ensures value == Cyclic.Advance(old(value), IndicatorCount)
      ensures callbackValue == value
    {
      value := if value == IndicatorCount then 0 else value + 1;
      callbackValue := value;
    }
  }

  /** From `start()`, the timer is full after exactly four ticks and back at 0 on the fifth. */
  lemma TimerFullAfterFourTicks()
    ensures Cyclic.AfterSteps(0, IndicatorCount, IndicatorCount) == IndicatorCount
    ensures forall n :: 0 <= n < IndicatorCount ==> Cyclic.AfterSteps(0, IndicatorCount, n) != IndicatorCount
    ensures Cyclic.AfterSteps(0, IndicatorCount, IndicatorCount + 1) == 0
  {
    Cyclic.FullAfterMaxSteps(IndicatorCount);
  }

  /** Four ticks after a start, with the timer's own methods. */
  method FourTicksFromStart(timer: RowTimer) returns (values: seq<nat>)
    modifies timer
    ensures values == [1, 2, 3, 4] && timer.IsFull()
  {
    timer.Start();
    var v1 := timer.HandleTimer();
    var v2 := timer.HandleTimer();
    var v3 := timer.HandleTimer();
    var v4 := timer.HandleTimer();
    values := [v1, v2, v3, v4];
  }

  datatype GamePhase = LevelComplete | LevelIntro | GameActive | GameOver

  /** A snapshot of a game; `gameId` identifies the game for the statistics. */
  datatype State = State(
    gameId: nat,
    rows: seq<Row>,
    rowsCleared: int,
    target: Token?,
    level: int,
    score: int,
    timerValue: int,
    gamePhase: Option<GamePhase>)

  /** The state a new game starts from. */
  function NewState(gameId: nat): (s: State)
    ensures s.gameId == gameId && s.rows == [] && s.target == null && s.gamePhase.None?
    ensures s.rowsCleared == 0 && s.level == 1 && s.score == 0 && s.timerValue == 0
  {
    State(gameId, [], 0, null, 1, 0, 0, None)
  }

  /** A row of the board. Its id is fixed when it is made; its tokens may be replaced. */
  class Row {
    const id: nat
    var tokens: seq<Token>
    var isSolved: bool

    constructor (id: nat, tokens: seq<Token>)
      ensures this.id == id && this.tokens == tokens && !isSolved
    {
      this.id := id;
      this.tokens := tokens;
      isSolved := false;
    }

    /**
      `replace(_:with:)`: the first slot holding this very token gets `newToken`; with
      the token absent nothing changes.
    */
    method Replace(token: Token, newToken: Token)
      modifies this`tokens
      ensures |tokens| == |old(tokens)|
      ensures token !in old(tokens) ==> tokens == old(tokens)
      ensures token in old(tokens) ==>
        exists i :: 0 <= i < |tokens| && old(tokens)[i] == token && token !in old(tokens)[..i] &&
          tokens == old(tokens)[i := newToken]
    {
      var index := Game.FirstIndexOf(tokens, token);
      if index.None? {
        return;
      }
      tokens := tokens[index.value := newToken];
    }
  }

  /** A first tap and, once made, the second. */
  class Selection {
    const token1: Token
    var token2: Token?

    constructor (token1: Token, token2: Token?)
      ensures this.token1 == token1 && this.token2 == token2
    {
      this.token1 := token1;
      this.token2 := token2;
    }

    /** `tokens`: the taps made so far, first tap first. */
    function Tapped(): (r: seq<Token>)
      reads this
      ensures |r| == (if token2 == null then 1 else 2)
      ensures r[0] == token1 && (token2 != null ==> r[1] == token2)
    {
      if token2 == null then [token1] else [token1, token2]
    }
  }
}
