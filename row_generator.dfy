/**
  Making the next row of the board (TokenTrapV3/GameLogic+RowGenerator.swift).

  A row is 8 random tokens with a key pair written over two neighbouring slots at a
  random position. The random tokens are given as their drawn attributes; the key pair
  comes from `TokenPair(partialMatchTarget:)`, which is not part of this model and is
  taken as an input pair about which nothing is assumed.
*/
module RowGeneration {
  import opened Wrappers
  import opened Tokens
  import opened Game
  import opened GameExtensions

  /** The key pair sits at `index` and `index + 1`; every other slot holds a token drawn with its attributes. */
  ghost predicate KeyPairPlaced(tokens: seq<Token>, draws: seq<Attributes>, keyPair: TokenPair, index: int)
  {
    |tokens| == GridSize && |draws| == GridSize &&
    0 <= index < GridSize - 1 &&
    tokens[index] == keyPair.token1 && tokens[index + 1] == keyPair.token2 &&
    forall i :: 0 <= i < GridSize && i != index && i != index + 1 ==> tokens[i].attributes == draws[i]
  }

  class RowGenerator {

    constructor ()
    {
    }

    /**
      `getNextRow(for:_:)`: a new unsolved row around the generated tokens. Neither the
      target nor the level changes the tokens beyond the key pair given for the target.
    */
    method GetNextRow(target: Token, level: int, id: nat, draws: seq<Attributes>, keyPair: TokenPair)
      returns (row: Row, ghost keyPairIndex: int)
      requires |draws| == GridSize
      ensures fresh(row) && row.id == id && !row.isSolved
      ensures KeyPairPlaced(row.tokens, draws, keyPair, keyPairIndex)
    {
      var tokens;
      tokens, keyPairIndex := GetTokens(target, level, draws, keyPair);
      row := new Row(id, tokens);
    }

    /** `getTokens(_:_:)`: random tokens with the key pair at a random position. */
    method GetTokens(target: Token, level: int, draws: seq<Attributes>, keyPair: TokenPair)
      returns (tokens: seq<Token>, ghost keyPairIndex: int)
      requires |draws| == GridSize
      ensures KeyPairPlaced(tokens, draws, keyPair, keyPairIndex)
      ensures forall i :: 0 <= i < GridSize && i != keyPairIndex && i != keyPairIndex + 1 ==>
        fresh(tokens[i]) && tokens[i].status == None
    {
      tokens := GetRandomTokens(draws);
      var index := GetRandomTargetIndex();
      tokens := AddKeyPair(tokens, keyPair, index);
      keyPairIndex := index;
    }

    /**
      `addKeyPair(to:for:at:)` on its in-out array: the key pair's tokens go to slots
      `index` and `index + 1`, every other slot keeps its token, the length is kept.
    */
    method AddKeyPair(tokens: seq<Token>, keyPair: TokenPair, index: int) returns (updated: seq<Token>)
      requires 0 <= index && index + 1 < |tokens|
      ensures |updated| == |tokens|
      ensures updated[index] == keyPair.token1 && updated[index + 1] == keyPair.token2
      ensures forall i :: 0 <= i < |tokens| && i != index && i != index + 1 ==> updated[i] == tokens[i]
    {
      updated := tokens;
      updated := updated[index := keyPair.token1];
      updated := updated[index + 1 := keyPair.token2];
    }

    /** `getRandomTokens()`: one new token per draw, `GridSize` of them. */
    method GetRandomTokens(draws: seq<Attributes>) returns (tokens: seq<Token>)
      requires |draws| == GridSize
      ensures |tokens| == GridSize
      ensures forall i :: 0 <= i < GridSize ==>
        fresh(tokens[i]) && tokens[i].attributes == draws[i] && tokens[i].status == None
    {
      tokens := [];
      for i := 0 to GridSize
        invariant |tokens| == i
        invariant forall j :: 0 <= j < i ==>
          fresh(tokens[j]) && tokens[j].attributes == draws[j] && tokens[j].status == None
      {
        var t := new Token(draws[i].color, draws[i].icon, None);
        tokens := tokens + [t];
      }
    }

    /** `getRandomTargetIndex()`: any index at which the pair fits, 0 up to `GridSize - 2`. */
    method GetRandomTargetIndex() returns (index: int)
      ensures 0 <= index < GridSize - 1
    {
      index :| 0 <= index < GridSize - 1;
    }
  }
}
