/**
  The board and the selection state machine of the game (TokenTrapV3/GameLogic.swift).

  The board is a list of rows of tokens, newest row first. A token's coordinates are
  the first row that holds it and its first position in that row. A selection takes
  two taps: the first is stored, the second is classified against it by adjacency,
  partial matching and the current key token. A key match scores 5 points. Tokens
  of a converted pair are replaced on the board by new tokens carrying the full match.
*/
module Game {
  import opened Wrappers
  import opened Tokens

  const GridSize: nat := 8
  const RequiredRowsCleared: nat := 10
  /** Points for a key match; the row bonus in `updateScore` is an empty placeholder. */
  const RowValue: int := 5

  datatype AdjacencyResult = NotAdjacent | AdjacentVertical | AdjacentHorizontal

  datatype SelectionResult =
    | FirstSelection
    | NoMatch(tokens: seq<Token>)
    | PartialMatch(tokens: seq<Token>)
    | PartialMatchKey(tokens: seq<Token>)

  datatype Coordinates = Coordinates(column: nat, row: nat)

  /** No token object appears twice in a row. */
  ghost predicate NoDuplicates(s: seq<Token>) {
    forall i, j :: 0 <= i < j < |s| ==> s[i] != s[j]
  }

  /** No token object sits on two cells of the board. */
  ghost predicate DistinctCells(rows: seq<seq<Token>>) {
    (forall r :: 0 <= r < |rows| ==> NoDuplicates(rows[r])) &&
    (forall r1, r2, t :: 0 <= r1 < r2 < |rows| && t in rows[r1] ==> t !in rows[r2])
  }

  /** `rows.firstIndex(where: { $0.contains(token) })`. */
  function FirstRowContaining(rows: seq<seq<Token>>, t: Token): (r: Option<nat>)
    ensures r.Some? ==> r.value < |rows| && t in rows[r.value]
    ensures r.Some? ==> forall k :: 0 <= k < r.value ==> t !in rows[k]
    ensures r.None? ==> forall k :: 0 <= k < |rows| ==> t !in rows[k]
  {
    if rows == [] then None
    else if t in rows[0] then Some(0)
    else
      match FirstRowContaining(rows[1..], t)
      case None => None
      case Some(k) => Some(k + 1)
  }

  /** `tokens.firstIndex(of: token)`, by identity. */
  function FirstIndexOf(tokens: seq<Token>, t: Token): (r: Option<nat>)
    ensures r.Some? ==> r.value < |tokens| && tokens[r.value] == t && t !in tokens[..r.value]
    ensures r.None? <==> t !in tokens
  {
    if tokens == [] then None
    else if tokens[0] == t then Some(0)
    else
      match FirstIndexOf(tokens[1..], t)
      case None => None
      case Some(k) =>
        assert tokens[..k + 1] == [tokens[0]] + tokens[1..][..k];
        Some(k + 1)
  }

  /** `getCoordinates(for:)`: the first cell holding the token, if it is on the board. */
  function GetCoordinates(rows: seq<seq<Token>>, t: Token): (r: Option<Coordinates>)
    ensures r.Some? ==> r.value.row < |rows| && r.value.column < |rows[r.value.row]|
    ensures r.Some? ==> rows[r.value.row][r.value.column] == t
    ensures r.None? <==> forall k :: 0 <= k < |rows| ==> t !in rows[k]
  {
    match FirstRowContaining(rows, t)
    case None => None
    case Some(rowIndex) =>
      match FirstIndexOf(rows[rowIndex], t)
      case None => None
      case Some(tokenIndex) => Some(Coordinates(tokenIndex, rowIndex))
  }

  /** On a board where every token sits on one cell, a token's coordinates are that cell. */
  lemma {:induction false} CoordinatesOfCell(rows: seq<seq<Token>>, r: nat, c: nat)
    requires DistinctCells(rows)
    requires r < |rows| && c < |rows[r]|
    ensures GetCoordinates(rows, rows[r][c]) == Some(Coordinates(c, r))
  {
    var t := rows[r][c];
    assert t in rows[r];
    var found := GetCoordinates(rows, t).value;
    assert t in rows[found.row];
    assert found.row == r;
    assert rows[r][found.column] == rows[r][c];
  }

  function Abs(x: int): nat {
    if x < 0 then -x else x
  }

  /** `valuesFitAdjacency`: the first values are equal and the second differ by one. */
  predicate ValuesFitAdjacency(matching0: int, matching1: int, adjacent0: int, adjacent1: int)
    ensures ValuesFitAdjacency(matching0, matching1, adjacent0, adjacent1) <==>
      matching0 == matching1 && (adjacent1 == adjacent0 + 1 || adjacent0 == adjacent1 + 1)
  {
    matching0 == matching1 && Abs(adjacent0 - adjacent1) == 1
  }

  /** `getAdjacencyResult`: horizontal when in one row side by side, vertical when in one column one row apart. */
  function Adjacency(rows: seq<seq<Token>>, t1: Token, t2: Token): (r: AdjacencyResult)
    ensures r != NotAdjacent ==> GetCoordinates(rows, t1).Some? && GetCoordinates(rows, t2).Some?
    ensures r != NotAdjacent ==> t1 != t2
  {
    match (GetCoordinates(rows, t1), GetCoordinates(rows, t2))
    case (Some(p1), Some(p2)) =>
      if ValuesFitAdjacency(p1.row, p2.row, p1.column, p2.column) then AdjacentHorizontal
      else if ValuesFitAdjacency(p1.column, p2.column, p1.row, p2.row) then AdjacentVertical
      else NotAdjacent
    case _ => NotAdjacent
  }

  /**
    Adjacency of two tokens sitting at (r1, c1) and (r2, c2) on a board where every
    token occupies one cell: horizontal iff same row and neighbouring columns, vertical
    iff same column and neighbouring rows, never both.
  */
  lemma AdjacencyOnBoard(rows: seq<seq<Token>>, r1: nat, c1: nat, r2: nat, c2: nat)
    requires DistinctCells(rows)
    requires r1 < |rows| && c1 < |rows[r1]| && r2 < |rows| && c2 < |rows[r2]|
    ensures Adjacency(rows, rows[r1][c1], rows[r2][c2]) == AdjacentHorizontal <==>
      r1 == r2 && Abs(c1 - c2) == 1
    ensures Adjacency(rows, rows[r1][c1], rows[r2][c2]) == AdjacentVertical <==>
      c1 == c2 && Abs(r1 - r2) == 1
    ensures Adjacency(rows, rows[r1][c1], rows[r2][c2]) == NotAdjacent <==>
      !(r1 == r2 && Abs(c1 - c2) == 1) && !(c1 == c2 && Abs(r1 - r2) == 1)
  {
    CoordinatesOfCell(rows, r1, c1);
    CoordinatesOfCell(rows, r2, c2);
  }

  /** A token that is not on the board is adjacent to nothing. */
  lemma OffBoardNotAdjacent(rows: seq<seq<Token>>, t1: Token, t2: Token)
    requires (forall k :: 0 <= k < |rows| ==> t1 !in rows[k]) || (forall k :: 0 <= k < |rows| ==> t2 !in rows[k])
    ensures Adjacency(rows, t1, t2) == NotAdjacent
  {
  }

  /** `isMatch`: both attributes equal. */
  predicate IsMatch(t1: Token, t2: Token)
    ensures IsMatch(t1, t2) <==> t1.attributes == t2.attributes
  {
    t1.attributes.color == t2.attributes.color && t1.attributes.icon == t2.attributes.icon
  }

  /** `isPartialMatch` as this file writes it; it agrees with the rule on token pairs. */
  function IsPartialMatch(t1: Token, t2: Token): (r: bool)
    ensures r == TokenPair(t1, t2).IsPartialMatch()
  {
    !IsMatch(t1, t2) &&
    (t1.attributes.color == t2.attributes.color || t1.attributes.icon == t2.attributes.icon)
  }

  /**
    `getFullMatchToken`: the attributes of the full match a partial pair converts into,
    computed as this file writes it; it is the pair conversion of the token rules.
  */
  function FullMatchToken(t1: Token, t2: Token): (r: Option<Attributes>)
    ensures r == Conversion(t1.attributes, t2.attributes)
    ensures r.Some? <==> IsPartialMatch(t1, t2)
  {
    if !IsPartialMatch(t1, t2) then None
    else if t1.attributes.color == t2.attributes.color then
      match FirstOther(AllIcons, t1.attributes.icon, t2.attributes.icon)
      case Some(icon) =>
        var r := Attributes(t1.attributes.color, icon);
        ConversionUnique(t1.attributes, t2.attributes, r);
        Some(r)
      case None => None
    else
      match FirstOther(AllColors, t1.attributes.color, t2.attributes.color)
      case Some(color) =>
        var r := Attributes(color, t1.attributes.icon);
        ConversionUnique(t1.attributes, t2.attributes, r);
        Some(r)
      case None => None
  }

  /** `getPartialMatchType`: a key match when the conversion has the key token's attributes. */
  function PartialMatchType(keyToken: Token?, t1: Token, t2: Token): (r: SelectionResult)
    ensures r.PartialMatchKey? <==> TokenPair(t1, t2).CanConvert(keyToken)
    ensures r.NoMatch? <==> !IsPartialMatch(t1, t2) || keyToken == null
    ensures !r.FirstSelection? && r.tokens == [t1, t2]
  {
    CanConvertIff(TokenPair(t1, t2), keyToken);
    var tokens := [t1, t2];
    match FullMatchToken(t1, t2)
    case None => NoMatch(tokens)
    case Some(converted) =>
      if keyToken == null then NoMatch(tokens)
      else if converted == keyToken.attributes then PartialMatchKey(tokens)
      else PartialMatch(tokens)
  }

  /**
    How `getSelectionResult` classifies a second tap on `token` after `selected`: a match
    needs adjacency and a partial match; a vertical pair is at most a partial match; a
    horizontal pair is a key match exactly when it converts to the key token, and with
    no key token it is no match.
  */
  function Classify(rows: seq<seq<Token>>, keyToken: Token?, token: Token, selected: Token): (r: SelectionResult)
    ensures !r.FirstSelection? && r.tokens == [token, selected]
    ensures !r.NoMatch? ==> Adjacency(rows, token, selected) != NotAdjacent && IsPartialMatch(token, selected)
    ensures Adjacency(rows, token, selected) == AdjacentVertical ==>
      (r.PartialMatch? <==> IsPartialMatch(token, selected))
    ensures r.PartialMatchKey? <==>
      Adjacency(rows, token, selected) == AdjacentHorizontal && TokenPair(token, selected).CanConvert(keyToken)
    ensures keyToken == null && Adjacency(rows, token, selected) == AdjacentHorizontal ==> r.NoMatch?
    ensures r.NoMatch? <==>
      Adjacency(rows, token, selected) == NotAdjacent || !IsPartialMatch(token, selected) ||
      (Adjacency(rows, token, selected) == AdjacentHorizontal && keyToken == null)
  {
    var tokens := [token, selected];
    match Adjacency(rows, token, selected)
    case NotAdjacent => NoMatch(tokens)
    case AdjacentVertical =>
      if IsPartialMatch(token, selected) then PartialMatch(tokens) else NoMatch(tokens)
    case AdjacentHorizontal =>
      if IsPartialMatch(token, selected) then PartialMatchType(keyToken, token, selected) else NoMatch(tokens)
  }

  /** Points `updateScore` adds for a selection result. */
  function ScoreFor(result: SelectionResult): (points: int)
    ensures points == (if result.PartialMatchKey? then RowValue else 0)
  {
    match result
    case PartialMatchKey(_) => RowValue
    case _ => 0
  }

  /** `rows.removeAll { $0 == tokens }`: the rows other than `tokens`, in their order. */
  function RemoveRows(rows: seq<seq<Token>>, tokens: seq<Token>): (r: seq<seq<Token>>)
    ensures forall i :: 0 <= i < |r| ==> r[i] in rows && r[i] != tokens
    ensures forall i :: 0 <= i < |rows| && rows[i] != tokens ==> rows[i] in r
    ensures |r| <= |rows|
    ensures tokens in rows ==> |r| < |rows|
    ensures tokens !in rows ==> r == rows
  {
    if rows == [] then []
    else if rows[0] == tokens then RemoveRows(rows[1..], tokens)
    else [rows[0]] + RemoveRows(rows[1..], tokens)
  }

  /** Removing rows keeps every token on at most one cell. */
  lemma {:induction false} RemoveRowsDistinct(rows: seq<seq<Token>>, tokens: seq<Token>)
    requires DistinctCells(rows)
    ensures DistinctCells(RemoveRows(rows, tokens))
  {
    if rows != [] {
      var tail := rows[1..];
      DistinctCellsTail(rows);
      RemoveRowsDistinct(tail, tokens);
      var rest := RemoveRows(tail, tokens);
      if rows[0] != tokens {
        forall k, t | 0 <= k < |rest| && t in rows[0]
          ensures t !in rest[k]
        {
          var j :| 0 <= j < |tail| && tail[j] == rest[k];
          assert rows[j + 1] == rest[k];
        }
        DistinctCellsCons(rows[0], rest);
      }
    }
  }

  /** A row sharing no token with a board can go on top of it. */
  lemma DistinctCellsCons(row: seq<Token>, rows: seq<seq<Token>>)
    requires NoDuplicates(row) && DistinctCells(rows)
    requires forall k, t :: 0 <= k < |rows| && t in row ==> t !in rows[k]
    ensures DistinctCells([row] + rows)
  {
    var all := [row] + rows;
    forall r1, r2, t | 0 <= r1 < r2 < |all| && t in all[r1]
      ensures t !in all[r2]
    {
      assert all[r2] == rows[r2 - 1];
      if r1 > 0 {
        assert all[r1] == rows[r1 - 1];
      }
    }
    forall k | 0 <= k < |all|
      ensures NoDuplicates(all[k])
    {
      if k > 0 {
        assert all[k] == rows[k - 1];
      }
    }
  }

  /** Dropping the first row keeps every token on one cell. */
  lemma DistinctCellsTail(rows: seq<seq<Token>>)
    requires DistinctCells(rows) && rows != []
    ensures DistinctCells(rows[1..])
  {
    var tail := rows[1..];
    forall r1, r2, t | 0 <= r1 < r2 < |tail| && t in tail[r1]
      ensures t !in tail[r2]
    {
      assert tail[r1] == rows[r1 + 1] && tail[r2] == rows[r2 + 1];
    }
  }

  /**
    Clearing the row at index `k`, when no other row equals it, removes that row only,
    and the rows before and after it keep their order.
  */
  lemma {:induction false} RemoveRowsAt(rows: seq<seq<Token>>, k: nat)
    requires k < |rows|
    requires forall j :: 0 <= j < |rows| && j != k ==> rows[j] != rows[k]
    ensures RemoveRows(rows, rows[k]) == rows[..k] + rows[k + 1..]
  {
    if k == 0 {
      RemoveFirstRow(rows);
    } else {
      var tail := rows[1..];
      UniqueRowInTail(rows, k);
      RemoveRowsAt(tail, k - 1);
      calc {
        RemoveRows(rows, rows[k]);
        { assert rows[0] != rows[k]; }
        [rows[0]] + RemoveRows(tail, tail[k - 1]);
        [rows[0]] + (tail[..k - 1] + tail[k..]);
        { SplitAroundRow(rows, k); }
        rows[..k] + rows[k + 1..];
      }
    }
  }

  /** A row that equals no other row of the board equals no other row of the board without its first row. */
  lemma UniqueRowInTail(rows: seq<seq<Token>>, k: nat)
    requires 0 < k < |rows|
    requires forall j :: 0 <= j < |rows| && j != k ==> rows[j] != rows[k]
    ensures rows[1..][k - 1] == rows[k]
    ensures forall j :: 0 <= j < |rows[1..]| && j != k - 1 ==> rows[1..][j] != rows[1..][k - 1]
  {
    var tail := rows[1..];
    forall j | 0 <= j < |tail| && j != k - 1
      ensures tail[j] != tail[k - 1]
    {
      assert tail[j] == rows[j + 1];
    }
  }

  /** The rows around row `k` are the first row, then the rows around row `k - 1` of the rest. */
  lemma SplitAroundRow(rows: seq<seq<Token>>, k: nat)
    requires 0 < k < |rows|
    ensures [rows[0]] + (rows[1..][..k - 1] + rows[1..][k..]) == rows[..k] + rows[k + 1..]
  {
    assert rows[..k] == [rows[0]] + rows[1..][..k - 1];
    assert rows[k + 1..] == rows[1..][k..];
  }

  /** Clearing the first row, when no other row equals it, leaves the other rows. */
  lemma RemoveFirstRow(rows: seq<seq<Token>>)
    requires rows != []
    requires forall j :: 0 < j < |rows| ==> rows[j] != rows[0]
    ensures RemoveRows(rows, rows[0]) == rows[..0] + rows[1..]
  {
    var tail := rows[1..];
    assert rows[0] !in tail by {
      forall j | 0 <= j < |tail|
        ensures tail[j] != rows[0]
      {
        assert tail[j] == rows[j + 1];
      }
    }
    assert rows[..0] + rows[1..] == tail;
  }

  /** On a board where every token sits on one cell, a row that is not empty equals no other row. */
  lemma NonEmptyRowUnique(rows: seq<seq<Token>>, k: nat)
    requires DistinctCells(rows)
    requires k < |rows| && |rows[k]| > 0
    ensures forall j :: 0 <= j < |rows| && j != k ==> rows[j] != rows[k]
  {
    var t := rows[k][0];
    forall j | 0 <= j < |rows| && j != k
      ensures rows[j] != rows[k]
    {
      assert t in rows[k];
    }
  }

  /** `Token.Color.allCases.filter { $0 != color }`. */
  function ColorsOtherThan(color: Color): (r: seq<Color>)
    ensures |r| == 2 && r[0] != r[1]
    ensures r[0] != color && r[1] != color
  {
    if color == Blue then [Gray, Color.Red]
    else if color == Gray then [Blue, Color.Red]
    else [Blue, Gray]
  }

  /** The two leading tokens of a new row share the key's icon and carry its two other colors, so they convert to the key. */
  lemma KeySlotsConvertToKey(key: Token, t0: Token, t1: Token)
    requires t0.attributes == Attributes(ColorsOtherThan(key.attributes.color)[0], key.attributes.icon)
    requires t1.attributes == Attributes(ColorsOtherThan(key.attributes.color)[1], key.attributes.icon)
    ensures TokenPair(t0, t1).CanConvert(key)
    ensures Conversion(t0.attributes, t1.attributes) == Some(key.attributes)
  {
    CanConvertIff(TokenPair(t0, t1), key);
  }

  /** Replacing one cell with a token found nowhere on the board keeps every token on one cell. */
  lemma ReplaceCellDistinct(rows: seq<seq<Token>>, r0: nat, c0: nat, t: Token)
    requires DistinctCells(rows)
    requires r0 < |rows| && c0 < |rows[r0]|
    requires forall k :: 0 <= k < |rows| ==> t !in rows[k]
    ensures DistinctCells(rows[r0 := rows[r0][c0 := t]])
  {
    var after := rows[r0 := rows[r0][c0 := t]];
    forall r1, r2, x | 0 <= r1 < r2 < |after| && x in after[r1]
      ensures x !in after[r2]
    {
      if x == t {
        assert r1 == r0 && after[r2] == rows[r2];
      } else {
        assert x in rows[r1] && x !in rows[r2];
        assert forall y :: y in after[r2] ==> y == t || y in rows[r2];
      }
    }
  }

  /** `t` sits on the board `rows`, in a cell that held one of `listed` on the earlier board `board`. */
  ghost predicate PlacedAt(rows: seq<seq<Token>>, board: seq<seq<Token>>, t: Token, listed: seq<Token>) {
    var p := GetCoordinates(rows, t);
    p.Some? && p.value.row < |board| && p.value.column < |board[p.value.row]| &&
    board[p.value.row][p.value.column] in listed
  }

  /** Every token of `made` is placed on `rows` where `board` held a listed token. */
  ghost predicate PlacedFrom(rows: seq<seq<Token>>, board: seq<seq<Token>>, made: seq<Token>, listed: seq<Token>) {
    forall k :: 0 <= k < |made| ==> PlacedAt(rows, board, made[k], listed)
  }

  /**
    `rows` is `board` with every cell that held a listed token now holding a token of
    `made`, and every other cell unchanged; the shape of the board is the same.
  */
  ghost predicate CellsConverted(board: seq<seq<Token>>, rows: seq<seq<Token>>, listed: seq<Token>, made: seq<Token>) {
    |rows| == |board| &&
    (forall r :: 0 <= r < |rows| ==> |rows[r]| == |board[r]|) &&
    forall r, c :: 0 <= r < |rows| && 0 <= c < |rows[r]| ==>
      if board[r][c] in listed then rows[r][c] in made else rows[r][c] == board[r][c]
  }

  /** Converting the cell of one more listed token, on a board where it has one cell. */
  lemma CellsConvertedStep(board: seq<seq<Token>>, before: seq<seq<Token>>, after: seq<seq<Token>>,
                           listed: seq<Token>, made: seq<Token>, newToken: Token, r0: nat, c0: nat)
    requires DistinctCells(board)
    requires CellsConverted(board, before, listed, made)
    requires r0 < |before| && c0 < |before[r0]|
    requires after == before[r0 := before[r0][c0 := newToken]]
    ensures CellsConverted(board, after, listed + [board[r0][c0]], made + [newToken])
  {
    var token := board[r0][c0];
    forall r, c | 0 <= r < |after| && 0 <= c < |after[r]|
      ensures if board[r][c] in listed + [token] then after[r][c] in made + [newToken] else after[r][c] == board[r][c]
    {
      if board[r][c] == token {
        CoordinatesOfCell(board, r, c);
        CoordinatesOfCell(board, r0, c0);
      }
    }
  }

  /**
    One conversion step: the cell at (`r0`, `c0`) holds a token not made yet, and is
    given `newToken`; both the conversion and the placement of the made tokens carry over.
  */
  lemma ConvertCellStep(board: seq<seq<Token>>, before: seq<seq<Token>>, after: seq<seq<Token>>,
                        listed: seq<Token>, made: seq<Token>, newToken: Token, r0: nat, c0: nat)
    requires DistinctCells(board) && DistinctCells(after)
    requires CellsConverted(board, before, listed, made) && PlacedFrom(before, board, made, listed)
    requires r0 < |before| && c0 < |before[r0]| && before[r0][c0] !in made
    requires after == before[r0 := before[r0][c0 := newToken]]
    ensures board[r0][c0] == before[r0][c0]
    ensures CellsConverted(board, after, listed + [board[r0][c0]], made + [newToken])
    ensures PlacedFrom(after, board, made + [newToken], listed + [board[r0][c0]])
  {
    CellsConvertedStep(board, before, after, listed, made, newToken, r0, c0);
    PlacedFromStep(board, before, after, made, newToken, r0, c0, listed, listed + [board[r0][c0]]);
  }

  /** Listing a token that is on no cell of the board changes nothing. */
  lemma CellsConvertedAbsent(board: seq<seq<Token>>, rows: seq<seq<Token>>, listed: seq<Token>, made: seq<Token>, token: Token)
    requires CellsConverted(board, rows, listed, made)
    requires GetCoordinates(rows, token).None?
    ensures CellsConverted(board, rows, listed + [token], made)
  {
    forall r, c | 0 <= r < |rows| && 0 <= c < |rows[r]| && board[r][c] == token
      ensures token in listed
    {
      assert rows[r][c] in rows[r];
    }
  }

  /** Listing more tokens keeps every placed token placed. */
  lemma PlacedFromMoreListed(rows: seq<seq<Token>>, board: seq<seq<Token>>, made: seq<Token>, listed: seq<Token>, more: seq<Token>)
    requires PlacedFrom(rows, board, made, listed)
    requires forall x :: x in listed ==> x in more
    ensures PlacedFrom(rows, board, made, more)
  {
    forall k | 0 <= k < |made|
      ensures PlacedAt(rows, board, made[k], more)
    {
      assert PlacedAt(rows, board, made[k], listed);
    }
  }

  /**
    Writing `newToken` over the cell of a listed token keeps the tokens already placed in
    their cells and places `newToken` in that cell.
  */
  lemma PlacedFromStep(board: seq<seq<Token>>, before: seq<seq<Token>>, after: seq<seq<Token>>,
                       made: seq<Token>, newToken: Token, r0: nat, c0: nat,
                       listed: seq<Token>, more: seq<Token>)
    requires r0 < |before| && c0 < |before[r0]|
    requires after == before[r0 := before[r0][c0 := newToken]] && DistinctCells(after)
    requires r0 < |board| && c0 < |board[r0]| && board[r0][c0] in more
    requires PlacedFrom(before, board, made, listed)
    requires forall x :: x in listed ==> x in more
    requires forall k :: 0 <= k < |made| ==> made[k] != before[r0][c0]
    ensures PlacedFrom(after, board, made + [newToken], more)
  {
    var all := made + [newToken];
    forall k | 0 <= k < |all|
      ensures PlacedAt(after, board, all[k], more)
    {
      if k < |made| {
        assert PlacedAt(before, board, made[k], listed);
        var p := GetCoordinates(before, made[k]).value;
        assert after[p.row][p.column] == made[k];
        CoordinatesOfCell(after, p.row, p.column);
      } else {
        CoordinatesOfCell(after, r0, c0);
      }
    }
  }

  class GameLogic {
    var rows: seq<seq<Token>>
    var rowsCleared: int
    var keyToken: Token?
    var selectedToken: Token?
    var score: int

    /** Every token on the board sits on exactly one cell and every row is a full grid row. */
    ghost predicate Valid()
      reads this
    {
      DistinctCells(rows) &&
      (forall r :: 0 <= r < |rows| ==> |rows[r]| == GridSize) &&
      rowsCleared >= 0 && score >= 0
    }

    constructor ()
      ensures Valid()
      ensures rows == [] && rowsCleared == 0 && keyToken == null && selectedToken == null && score == 0
    {
      rows := [];
      rowsCleared := 0;
      keyToken := null;
      selectedToken := null;
      score := 0;
    }

    /** `canAddRows`: the board still has room for a row. */
    function CanAddRows(): (r: bool)
      reads this
      ensures r <==> |rows| < GridSize
    {
      |rows| < GridSize
    }

    /** `levelIsComplete`: exactly the required number of rows has been cleared. */
    function LevelIsComplete(): (r: bool)
      reads this
      ensures r <==> rowsCleared == RequiredRowsCleared
    {
      rowsCleared == RequiredRowsCleared
    }

    method IncrementLevel()
      requires Valid()
      modifies this`rowsCleared
      ensures Valid() && rowsCleared == 0
    {
      rowsCleared := 0;
    }

    /** Empties the board and the counters; the key token survives. */
    method Reset()
      modifies this`rows, this`rowsCleared, this`score, this`selectedToken
      ensures Valid()
      ensures rows == [] && rowsCleared == 0 && score == 0 && selectedToken == null
      ensures keyToken == old(keyToken)
    {
      rows := [];
      rowsCleared := 0;
      score := 0;
      selectedToken := null;
    }

    /**
      `getKeyToken` with the redraw loop doing what it is meant to: the new key never has
      the previous key's attributes. The random draw is any such pair of attributes.
    */
    method GetKeyToken() returns (t: Token)
      requires Valid()
      modifies this`keyToken
      ensures Valid()
      ensures keyToken == t && fresh(t) && t.status == None
      ensures old(keyToken) != null ==> !KeyRedrawIntended(old(keyToken), t)
    {
      assert AllowedKey(keyToken, Attributes(Blue, Die)) || AllowedKey(keyToken, Attributes(Gray, Die));
      var draw: Attributes :| AllowedKey(keyToken, draw);
      t := new Token(draw.color, draw.icon, None);
      assert t.attributes == draw;
      assert AllowedKey(keyToken, draw);
      keyToken := t;
    }

    /**
      `getKeyToken` as written, for one random draw: the redraw loop compares the new
      token with the previous key by identity, and a token just made is never the
      previous key, so the loop never runs and the first draw is kept, whatever it is.
    */
    method GetKeyTokenAsWritten(draw: Attributes) returns (t: Token)
      requires Valid()
      modifies this`keyToken
      ensures Valid()
      ensures keyToken == t && fresh(t) && t.status == None
      ensures t.attributes == draw
    {
      var newToken := new Token(draw.color, draw.icon, None);
      // The guard of the redraw loop is false on entry, so its body is left out.
      assert !KeyRedrawAsWritten(keyToken, newToken);
      keyToken := newToken;
      t := newToken;
    }

    /** `updateScore(for:)`: a key match is worth 5 points, anything else nothing. */
    method UpdateScore(result: SelectionResult)
      requires Valid()
      modifies this`score
      ensures Valid()
      ensures score == old(score) + ScoreFor(result)
    {
      if result.PartialMatchKey? {
        var rowValue := RowValue;
        score := score + rowValue;
      }
    }

    /**
      `getSelectionResult(token:)`: the first tap is stored; the second clears the stored
      tap and is classified against it, scoring on a key match.
    */
    method GetSelectionResult(token: Token) returns (result: SelectionResult)
      requires Valid()
      modifies this`selectedToken, this`score
      ensures Valid()
      ensures old(selectedToken) == null ==>
        result == FirstSelection && selectedToken == token && score == old(score)
      ensures old(selectedToken) != null ==>
        selectedToken == null &&
        result == Classify(rows, keyToken, token, old(selectedToken)) &&
        score == old(score) + ScoreFor(result)
    {
      if selectedToken == null {
        selectedToken := token;
        return FirstSelection;
      }
      var selected := selectedToken;
      var tokens := [token, selected];
      result := NoMatch(tokens);
      selectedToken := null;
      match Adjacency(rows, token, selected) {
        case NotAdjacent =>
        case AdjacentVertical =>
          if IsPartialMatch(token, selected) {
            result := PartialMatch(tokens);
          }
        case AdjacentHorizontal =>
          if IsPartialMatch(token, selected) {
            result := PartialMatchType(keyToken, token, selected);
            UpdateScore(result);
          }
      }
    }

    /**
      `getConvertedTokens(keyMatchTokens:)`: nothing for an empty list or a first and last
      token that do not partially match; otherwise every listed token found on the board
      is replaced, in its cell, by a new token with the full-match attributes.
    */
    method GetConvertedTokens(keyMatchTokens: seq<Token>) returns (newTokens: Option<seq<Token>>)
      requires Valid()
      modifies this`rows
      ensures Valid()
      ensures newTokens.None? <==>
        keyMatchTokens == [] || !IsPartialMatch(keyMatchTokens[0], keyMatchTokens[|keyMatchTokens| - 1])
      ensures newTokens.None? ==> rows == old(rows)
      ensures newTokens.Some? ==>
        var full := Conversion(keyMatchTokens[0].attributes, keyMatchTokens[|keyMatchTokens| - 1].attributes).value;
        CellsConverted(old(rows), rows, keyMatchTokens, newTokens.value) &&
        (forall t :: t in newTokens.value ==> fresh(t) && t.attributes == full && t.status == None) &&
        NoDuplicates(newTokens.value) && |newTokens.value| <= |keyMatchTokens| &&
        PlacedFrom(rows, old(rows), newTokens.value, keyMatchTokens)
    {
      if keyMatchTokens == [] {
        return None;
      }
      var token1, token2 := keyMatchTokens[0], keyMatchTokens[|keyMatchTokens| - 1];
      var fullMatch := FullMatchToken(token1, token2);
      if fullMatch.None? {
        return None;
      }
      var full := fullMatch.value;
      var made: seq<Token> := [];
      for i := 0 to |keyMatchTokens|
        invariant Valid()
        invariant CellsConverted(old(rows), rows, keyMatchTokens[..i], made)
        invariant forall t :: t in made ==> fresh(t)
        invariant forall t :: t in made ==> t.attributes == full && t.status == None
        invariant NoDuplicates(made) && |made| <= i
        invariant PlacedFrom(rows, old(rows), made, keyMatchTokens[..i])
      {
        assert keyMatchTokens[..i + 1] == keyMatchTokens[..i] + [keyMatchTokens[i]];
        assert keyMatchTokens[i] !in made by {
          assert !fresh(keyMatchTokens[i]);
        }
        made := ConvertListedToken(old(rows), keyMatchTokens[..i], made, keyMatchTokens[i], full);
      }
      assert keyMatchTokens[..|keyMatchTokens|] == keyMatchTokens;
      newTokens := Some(made);
    }

    /**
      One step of `getConvertedTokens`: when `token` is on the board, its cell gets a new
      token with the attributes `full`, which is added to `made`; otherwise nothing changes.
      `board` is the board before the first step and `listed` the tokens already handled.
    */
    method ConvertListedToken(ghost board: seq<seq<Token>>, ghost listed: seq<Token>, made: seq<Token>,
                              token: Token, full: Attributes) returns (made': seq<Token>)
      requires Valid() && DistinctCells(board)
      requires CellsConverted(board, rows, listed, made) && PlacedFrom(rows, board, made, listed)
      requires NoDuplicates(made) && token !in made
      modifies this`rows
      ensures Valid()
      ensures CellsConverted(board, rows, listed + [token], made')
      ensures PlacedFrom(rows, board, made', listed + [token])
      ensures NoDuplicates(made') && |made'| <= |made| + 1
      ensures forall t :: t in made' ==> t in made || (fresh(t) && t.attributes == full && t.status == None)
    {
      var coordinates := GetCoordinates(rows, token);
      if coordinates.None? {
        CellsConvertedAbsent(board, rows, listed, made, token);
        PlacedFromMoreListed(rows, board, made, listed, listed + [token]);
        return made;
      }
      var rowIndex, tokenIndex := coordinates.value.row, coordinates.value.column;
      var newToken := new Token(full.color, full.icon, None);
      ReplaceCellDistinct(rows, rowIndex, tokenIndex, newToken);
      ghost var before := rows;
      rows := rows[rowIndex := rows[rowIndex][tokenIndex := newToken]];
      made' := made + [newToken];
      ConvertCellStep(board, before, rows, listed, made, newToken, rowIndex, tokenIndex);
    }

    /** `clearRow(tokens:)`: the rows equal to `tokens` leave the board and one more row counts as cleared. */
    method ClearRow(tokens: seq<Token>)
      requires Valid()
      modifies this`rows, this`rowsCleared
      ensures Valid()
      ensures rows == RemoveRows(old(rows), tokens)
      ensures forall k :: 0 <= k < |old(rows)| && old(rows)[k] == tokens && tokens != [] ==>
        rows == old(rows)[..k] + old(rows)[k + 1..]
      ensures rowsCleared == old(rowsCleared) + 1
    {
      forall k | 0 <= k < |rows| && rows[k] == tokens && tokens != []
        ensures RemoveRows(rows, tokens) == rows[..k] + rows[k + 1..]
      {
        NonEmptyRowUnique(rows, k);
        RemoveRowsAt(rows, k);
      }
      RemoveRowsDistinct(rows, tokens);
      rows := RemoveRows(rows, tokens);
      rowsCleared := rowsCleared + 1;
    }

    /**
      `getRowTokens()`: with no key token nothing happens; otherwise a row of 8 new tokens
      is put on top of the board. Its first two tokens carry the key's icon and its two
      other colors, so they convert to the key; the other six take the random draws.
    */
    method GetRowTokens(draws: seq<Attributes>) returns (tokens: seq<Token>)
      requires Valid()
      requires |draws| == GridSize - 2
      modifies this`rows
      ensures Valid()
      ensures keyToken == null ==> tokens == [] && rows == old(rows)
      ensures keyToken != null ==>
        |tokens| == GridSize && rows == [tokens] + old(rows) &&
        (forall i :: 0 <= i < GridSize ==> fresh(tokens[i]) && tokens[i].status == None) &&
        tokens[0].attributes == Attributes(ColorsOtherThan(keyToken.attributes.color)[0], keyToken.attributes.icon) &&
        tokens[1].attributes == Attributes(ColorsOtherThan(keyToken.attributes.color)[1], keyToken.attributes.icon) &&
        (forall i :: 2 <= i < GridSize ==> tokens[i].attributes == draws[i - 2]) &&
        TokenPair(tokens[0], tokens[1]).CanConvert(keyToken)
      ensures old(CanAddRows()) ==> |rows| <= GridSize
    {
      var key := keyToken;
      if key == null {
        return [];
      }
      var others := ColorsOtherThan(key.attributes.color);
      tokens := [];
      for index := 0 to GridSize
        invariant rows == old(rows)
        invariant |tokens| == index
        invariant forall i :: 0 <= i < index ==> fresh(tokens[i]) && tokens[i].status == None
        invariant forall i :: 0 <= i < index && i < 2 ==>
          tokens[i].attributes == Attributes(others[i], key.attributes.icon)
        invariant forall i :: 2 <= i < index ==> tokens[i].attributes == draws[i - 2]
        invariant NoDuplicates(tokens)
      {
        var t: Token;
        if index < 2 {
          t := new Token(others[index], key.attributes.icon, None);
        } else {
          t := new Token(draws[index - 2].color, draws[index - 2].icon, None);
        }
        tokens := tokens + [t];
      }
      KeySlotsConvertToKey(key, tokens[0], tokens[1]);
      forall k, t | 0 <= k < |rows| && t in tokens
        ensures t !in rows[k]
      {
        assert fresh(t);
      }
      DistinctCellsCons(tokens, rows);
      rows := [tokens] + rows;
    }
  }

  /** A key drawn with these attributes does not repeat the previous key. */
  predicate AllowedKey(previous: Token?, a: Attributes) {
    previous == null || a != previous.attributes
  }

  /** The redraw guard of `getKeyToken` as written, `newToken == keyToken`: object identity. */
  predicate KeyRedrawAsWritten(previous: Token?, candidate: Token) {
    candidate == previous
  }

  /** The redraw guard as meant: redraw while the candidate repeats the previous key's attributes. */
  predicate KeyRedrawIntended(previous: Token?, candidate: Token) {
    previous != null && candidate.attributes == previous.attributes
  }

  /**
    A newly made candidate with the same attributes as the previous key passes the guard
    as written, so the "new" key can repeat the old one; the intended guard redraws it.
  */
  method RepeatedKeyPassesGuard(previous: Token) returns (candidate: Token)
    ensures candidate.attributes == previous.attributes
    ensures !KeyRedrawAsWritten(previous, candidate)
    ensures KeyRedrawIntended(previous, candidate)
  {
    candidate := new Token(previous.attributes.color, previous.attributes.icon, None);
  }
}
