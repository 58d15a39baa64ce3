# TokenTrap game logic in Dafny

TokenTrap is a puzzle game on a board of rows of 8 tokens. Each token has one of three
colors (blue, gray, red) and one of three icons (die, face, star). Two tokens
*partially match* when they differ but share the color or the icon. Tapping two
neighbouring, partially matching tokens *converts* them into a full match: the shared
attribute is kept and the other one becomes the value neither token had. A level has a
*key* (target) token. A side-by-side pair that converts into the key is a *key match*.
It scores 5 points, and its row can be cleared. Ten cleared rows complete a level.

This project models the game's logic and proves properties of it:

- `tokens.dfy` (module `Tokens`): tokens as objects with fixed attributes and a mutable
  status, the partial-match and conversion rules, token pairs, containment by identity,
  status updates, and the style and dimming of a token's view.
- `game_logic.dfy` (module `Game`): the `GameLogic` class. It covers the board (newest
  row first), coordinates and adjacency, the two-tap selection, scoring, in-place
  conversion, row clearing, new rows with their key pair, and drawing the key token. Its
  invariant is that no token object sits on two cells and every row has 8 tokens.
- `cyclic.dfy` (module `Cyclic`): the wrap-around counter 0, 1, ..., max, 0, ... shared by
  the row timer and the progress bars.
- `game_extensions.dfy` (module `GameExtensions`): the row timer's counter, the game
  state record, a board `Row` with identity-based `replace`, and `Selection`.
- `row_generator.dfy` (module `RowGeneration`): the generator of a new row with a key
  pair at a random position.
- `stats_storage.dfy` (module `Stats`): the per-skill-level statistics update, over a
  key-value store.
- `progress.dfy` (module `ViewModel`): the indicator bars (`Progress`) of the game screen.
- `wrappers.dfy`: the `Option` type.

Random choices are inputs. The random token attributes are parameters (`draws`). The
key-pair index and the key token's attributes are chosen with `:|` among the allowed
values. The game id (a UUID) is a natural number.

## Model

| member | source | states |
|---|---|---|
| Tokens.Token.constructor | TokenTrapV3/Token.swift:18-21 | a token has the given color, icon and status |
| Tokens.FirstOther | TokenTrapV3/Token.swift:33-40 | the value found is in the cases and differs from both values; no value is found only when every case is one of the two |
| Tokens.Conversion | TokenTrapV3/Token.swift:23-46 | a conversion exists exactly for a partial match; it keeps the shared attribute, and its other attribute differs from both tokens' values |
| Tokens.TokenFromPartialMatch | TokenTrapV3/Token.swift:23-46 | nil exactly when the pair does not partially match; otherwise a new token without status carrying the pair's conversion |
| Tokens.TokenPair.SetStatus | TokenTrapV3/Token.swift:103-106 | both tokens of the pair get the status, and no other object changes |
| Tokens.PartialMatch | TokenTrapV3/Token.swift:78-84 | two partially matching attribute pairs share exactly one of color and icon |
| Tokens.TokenPair.IsPartialMatch | TokenTrapV3/Token.swift:78-84 | a partially matching pair is two different token objects, and it has a conversion |
| Tokens.TokenPair.CanConvert | TokenTrapV3/Token.swift:86-97 | no target means no conversion; a pair that can convert to a target partially matches and does not hold the target itself |
| Tokens.TokenPair.Contains | TokenTrapV3/Token.swift:99-101 | a token the pair contains has the attributes of one of the pair's tokens |
| Tokens.ContainsToken | TokenTrapV3/Token.swift:153-155 | an array contains a token iff that very object is one of its elements |
| Tokens.PartialMatchSymmetric | TokenTrapV3/Token.swift:78-84 | partial matching is symmetric, false on equal attributes, and otherwise holds iff the colors or the icons are equal |
| Tokens.PartialMatchSharesOne | TokenTrapV3/Token.swift:78-84 | a partial match shares exactly one attribute |
| Tokens.ThirdColorUnique | TokenTrapV3/Token.swift:61-65 | with three colors, the color other than two distinct colors is unique |
| Tokens.ThirdIconUnique | TokenTrapV3/Token.swift:53-57 | with three icons, the icon other than two distinct icons is unique |
| Tokens.ConversionUnique | TokenTrapV3/Token.swift:31-41 | the conversion is the only attribute pair that keeps the shared attribute and differs from both tokens in the other one |
| Tokens.ConversionSymmetric | TokenTrapV3/Token.swift:23-46 | converting a pair gives the same result in either order |
| Tokens.CanConvertIff | TokenTrapV3/Token.swift:86-97 | `canConvert(to:)` holds iff there is a target, the pair partially matches, and the pair's conversion has the target's attributes |
| Tokens.RedStarGrayStarGivesBlueStar | TokenTrapV3/LearnHowView.swift:114-115 | red star and gray star convert to blue star |
| Tokens.NewTwinNotContained | TokenTrapV3/Token.swift:99-101 | a new token with the same attributes as a pair's token is in neither the pair nor any token array: containment goes by identity |
| Tokens.SetStatusAll | TokenTrapV3/Token.swift:157-161 | every token of the array gets the status, and only the array's tokens may change |
| Tokens.StyleFor | TokenTrapV3/Token.swift:140-147 | selected gives green, rejected red, target match gold, and no status no style |
| Tokens.StyleForInjective | TokenTrapV3/Token.swift:135-147 | different statuses get different styles |
| Tokens.TokenViewModel.constructor | TokenTrapV3/Token.swift:114-117 | the view starts undimmed with the style of the token's status |
| Tokens.TokenViewModel.SetIsDimmed | TokenTrapV3/Token.swift:119-125 | dimmed iff the row is solved and the token has no status; the style is unchanged |
| Tokens.TokenViewModel.SetStyle | TokenTrapV3/Token.swift:127-133 | the style becomes that of the token's status; dimming is unchanged |
| Game.FirstRowContaining | TokenTrapV3/GameLogic.swift:215 | the index found is the first row holding the token; none means no row holds it |
| Game.FirstIndexOf | TokenTrapV3/GameLogic.swift:216 | the index found holds the token and none before it does; none iff the token is absent |
| Game.GetCoordinates | TokenTrapV3/GameLogic.swift:214-221 | the coordinates found are a cell on the board holding the token; none iff no row holds it |
| Game.CoordinatesOfCell | TokenTrapV3/GameLogic.swift:214-221 | on a board where each token has one cell, the coordinates of the token in a cell are that cell |
| Game.ValuesFitAdjacency | TokenTrapV3/GameLogic.swift:207-212 | true iff the matching values are equal and the adjacent values are one apart, in either order |
| Game.Adjacency | TokenTrapV3/GameLogic.swift:188-205 | two tokens are adjacent only if both are on the board and they are different tokens |
| Game.AdjacencyOnBoard | TokenTrapV3/GameLogic.swift:188-212 | horizontal iff same row and columns one apart; vertical iff same column and rows one apart; otherwise not adjacent, so never both |
| Game.OffBoardNotAdjacent | TokenTrapV3/GameLogic.swift:188-205 | a token that is not on the board is adjacent to nothing |
| Game.IsMatch | TokenTrapV3/GameLogic.swift:170-172 | true iff the two tokens have the same color and icon |
| Game.IsPartialMatch | TokenTrapV3/GameLogic.swift:170-176 | this file's partial match agrees with the pair rule of the token type |
| Game.FullMatchToken | TokenTrapV3/GameLogic.swift:155-168 | nil unless the tokens partially match; otherwise it is the pair conversion, which keeps the shared attribute and takes the third value of the other |
| Game.PartialMatchType | TokenTrapV3/GameLogic.swift:178-186 | a key match iff the pair converts to the key token; no match iff the pair is not a partial match or there is no key |
| Game.Classify | TokenTrapV3/GameLogic.swift:104-120 | no match iff the tokens are not adjacent, do not partially match, or are a horizontal pair without a key; a vertical pair is never a key match; a horizontal pair is a key match iff it converts to the key; the result carries the two taps |
| Game.ScoreFor | TokenTrapV3/GameLogic.swift:144-153 | 5 points for a key match, 0 for any other result |
| Game.RemoveRows | TokenTrapV3/GameLogic.swift:124-126 | exactly the rows other than the given tokens remain; if those tokens are not a row the board is unchanged |
| Game.RemoveRowsAt | TokenTrapV3/GameLogic.swift:123-128 | removing a row that equals no other row leaves the rows before it and the rows after it, in their order |
| Game.NonEmptyRowUnique | TokenTrapV3/GameLogic.swift:123-128 | on a board where each token has one cell, a row that is not empty equals no other row, so clearing it removes that row only |
| Game.RemoveRowsDistinct | TokenTrapV3/GameLogic.swift:123-128 | removing rows keeps each token on at most one cell |
| Game.ColorsOtherThan | TokenTrapV3/GameLogic.swift:136 | two distinct colors, both different from the given one |
| Game.KeySlotsConvertToKey | TokenTrapV3/GameLogic.swift:134-139 | the two leading tokens of a new row convert to the key token |
| Game.ReplaceCellDistinct | TokenTrapV3/GameLogic.swift:93 | writing a token not on the board into one cell keeps each token on one cell |
| Game.ConvertCellStep | TokenTrapV3/GameLogic.swift:88-94 | giving one listed token's cell a new token keeps every earlier conversion and places the new token in that listed token's cell |
| Game.GameLogic.constructor | TokenTrapV3/GameLogic.swift:25-29 | an empty board, no key, no selection, zero counters |
| Game.GameLogic.CanAddRows | TokenTrapV3/GameLogic.swift:38-40 | true iff the board has fewer than 8 rows |
| Game.GameLogic.LevelIsComplete | TokenTrapV3/GameLogic.swift:42-44 | true iff exactly 10 rows were cleared |
| Game.GameLogic.IncrementLevel | TokenTrapV3/GameLogic.swift:58-60 | the cleared-row count is back to 0; nothing else changes |
| Game.GameLogic.Reset | TokenTrapV3/GameLogic.swift:62-67 | the board is empty, the counters are 0, there is no selection, and the key token is kept |
| Game.GameLogic.GetKeyToken | TokenTrapV3/GameLogic.swift:69-76 | corrected: a new token becomes the key and never repeats the previous key's attributes |
| Game.GameLogic.GetKeyTokenAsWritten | TokenTrapV3/GameLogic.swift:69-76 | as written: the first draw becomes the key, whatever its attributes |
| Game.RepeatedKeyPassesGuard | TokenTrapV3/GameLogic.swift:71 | a new token repeating the previous key's attributes passes the identity guard but not the intended one |
| Game.GameLogic.UpdateScore | TokenTrapV3/GameLogic.swift:144-153 | the score grows by 5 on a key match and is otherwise unchanged |
| Game.GameLogic.GetSelectionResult | TokenTrapV3/GameLogic.swift:99-121 | a first tap is stored and gives first selection; a second tap clears the stored tap, is classified against it, and scores on a key match |
| Game.GameLogic.GetConvertedTokens | TokenTrapV3/GameLogic.swift:78-97 | nil with the board unchanged for an empty list or a non-partial first/last pair; otherwise exactly the listed tokens on the board are replaced in their cells by new tokens with the full-match attributes, and the shape and all other cells stay the same; the returned list holds each new token once, at most one per listed token, each sitting in the cell of a listed token, and every replaced cell holds a token of the list |
| Game.GameLogic.ConvertListedToken | TokenTrapV3/GameLogic.swift:86-95 | a listed token on the board has its cell taken by one new token with the full-match attributes, which joins the returned list; a token not on the board changes nothing; the board invariant is kept |
| Game.GameLogic.ClearRow | TokenTrapV3/GameLogic.swift:123-128 | the rows equal to the tokens leave the board, the remaining rows keep their order, and the cleared count grows by exactly 1 |
| Game.GameLogic.GetRowTokens | TokenTrapV3/GameLogic.swift:130-142 | without a key, nothing; otherwise a row of 8 new tokens goes on top, its first two carrying the key's icon and its other colors so that they convert to the key, and the rest taking the draws |
| Cyclic.Advance | TokenTrapV3/GameLogic+Extensions.swift:40 | one tick stays within 0..max, wraps to 0 exactly from max, and otherwise adds 1 |
| Cyclic.AfterSteps | TokenTrapV3/GameLogic+Extensions.swift:39-41 | any number of ticks stays within 0..max |
| Cyclic.AfterStepsFromZero | TokenTrapV3/GameViewModel.swift:279 | from 0, the counter after n ≤ max ticks is n |
| Cyclic.AfterStepsCompose | TokenTrapV3/GameViewModel.swift:279 | m ticks then n ticks is m + n ticks |
| Cyclic.AfterStepsPeriodic | TokenTrapV3/GameViewModel.swift:279 | the counter repeats every max + 1 ticks |
| Cyclic.FullAfterMaxSteps | TokenTrapV3/GameLogic+Extensions.swift:14 | from 0, the counter is full after exactly max ticks, not before, and 0 after one more |
| GameExtensions.RowTimer.constructor | TokenTrapV3/GameLogic+Extensions.swift:15-22 | the counter starts at 0 and nothing is scheduled |
| GameExtensions.RowTimer.IsFull | TokenTrapV3/GameLogic+Extensions.swift:14 | full iff the counter is 4 |
| GameExtensions.RowTimer.Start | TokenTrapV3/GameLogic+Extensions.swift:24-33 | the counter is back at 0 and ticks are scheduled |
| GameExtensions.RowTimer.Cancel | TokenTrapV3/GameLogic+Extensions.swift:35-37 | the ticks stop and the counter keeps its value |
| GameExtensions.RowTimer.HandleTimer | TokenTrapV3/GameLogic+Extensions.swift:39-44 | a tick maps 4 to 0 and v to v + 1 otherwise, stays within 0..4, and hands the value after the tick to the callback |
| GameExtensions.TimerFullAfterFourTicks | TokenTrapV3/GameLogic+Extensions.swift:13-14 | from 0, the timer is full after exactly 4 ticks, not before, and 0 after the fifth |
| GameExtensions.FourTicksFromStart | TokenTrapV3/GameLogic+Extensions.swift:24-44 | after a start, four ticks hand 1, 2, 3, 4 to the callback and leave the timer full |
| GameExtensions.NewState | TokenTrapV3/GameLogic+Extensions.swift:47-55 | a new state has no rows, no cleared rows, level 1, score 0, timer 0, and no target or phase |
| GameExtensions.Row.constructor | TokenTrapV3/GameLogic+Extensions.swift:75-78 | a new row holds the tokens and is not solved |
| GameExtensions.Row.Replace | TokenTrapV3/GameLogic+Extensions.swift:80-85 | only the first slot holding that very token gets the new token; the length is kept; an absent token changes nothing |
| GameExtensions.Selection.constructor | TokenTrapV3/GameLogic+Extensions.swift:92-95 | the selection holds the given taps |
| GameExtensions.Selection.Tapped | TokenTrapV3/GameLogic+Extensions.swift:97-99 | the first tap alone, or the first and second taps in that order |
| RowGeneration.RowGenerator.GetNextRow | TokenTrapV3/GameLogic+RowGenerator.swift:14-16 | a new unsolved row whose tokens hold the key pair at neighbouring slots and the draws everywhere else |
| RowGeneration.RowGenerator.GetTokens | TokenTrapV3/GameLogic+RowGenerator.swift:18-23 | 8 tokens, the key pair at some index in 0..6 and the next one, new tokens with the draws everywhere else; the level plays no part |
| RowGeneration.RowGenerator.AddKeyPair | TokenTrapV3/GameLogic+RowGenerator.swift:25-29 | the key pair's tokens are written at the index and the one after it; every other slot and the length are kept |
| RowGeneration.RowGenerator.GetRandomTokens | TokenTrapV3/GameLogic+RowGenerator.swift:31-33 | 8 new tokens without status, one per draw |
| RowGeneration.RowGenerator.GetRandomTargetIndex | TokenTrapV3/GameLogic+RowGenerator.swift:35-37 | the index is in 0..6, so both writes of the key pair are on the row |
| Stats.Key | TokenTrapV3/GameLogic+StatsStorage.swift:15 | the key is the stats prefix followed by the skill level's name |
| Stats.KeysDiffer | TokenTrapV3/GameLogic+StatsStorage.swift:15 | two settings share a key iff they have the same skill level, so basic and expert records are independent |
| Stats.StoredValues | TokenTrapV3/GameLogic+StatsStorage.swift:62-67 | the stored record when there is one that decodes; all zeros when it is missing or does not decode |
| Stats.CanUpdateStoredValues | TokenTrapV3/GameLogic+StatsStorage.swift:40-44 | a game may be counted only outside training mode, with a positive score, and when it is not the last counted game; with no game counted yet, those first two conditions suffice |
| Stats.UpdatedValues | TokenTrapV3/GameLogic+StatsStorage.swift:46-60 | one more game; the high score is the larger of the old one and the score; the new average times the new count is the old total plus the score |
| Stats.StatsStorage.constructor | TokenTrapV3/GameLogic+StatsStorage.swift:21-23 | the storage has the settings and no game counted yet |
| Stats.StatsStorage.GetUpdatedStats | TokenTrapV3/GameLogic+StatsStorage.swift:25-44 | in training mode, with a score ≤ 0, or for the last counted game, the stored values come back with no new high score and nothing changes; otherwise the updated values are stored under this level's key only, the game is remembered, and it is a new high score iff the score beats the stored one |
| Stats.UpdateTwice | TokenTrapV3/GameLogic+StatsStorage.swift:30-43 | counting the same game twice writes at most once, and the second call reports no new high score |
| ViewModel.Indicator.constructor | TokenTrapV3/GameViewModel.swift:306-309 | an indicator starts with both lights off |
| ViewModel.Progress.constructor | TokenTrapV3/GameViewModel.swift:274-276 | exactly `count` new, distinct indicators, all off, and the counter at 0 |
| ViewModel.Progress.IsComplete | TokenTrapV3/GameViewModel.swift:270-272 | complete iff the counter equals the number of indicators |
| ViewModel.Progress.UpdateValue | TokenTrapV3/GameViewModel.swift:278-283 | the counter advances and wraps from full to 0; afterwards indicator i is on iff i is below the counter; the warnings are unchanged |
| ViewModel.Progress.Reset | TokenTrapV3/GameViewModel.swift:285-291 | the counter is 0 and every light is off |
| ViewModel.Progress.ActivateWarning | TokenTrapV3/GameViewModel.swift:293-297 | every warning light is on; the counter and the on lights are unchanged |
| ViewModel.Progress.SetComplete | TokenTrapV3/GameViewModel.swift:299-304 | the bar is complete with every indicator on; the warnings are unchanged |
| ViewModel.LevelBarCompleteWithLevel | TokenTrapV3/GameViewModel.swift:19-20 | the bars have 4 and 10 indicators, matching the row timer and the rows a level needs; from 0 the level bar is complete after exactly 10 updates |

## Left out

- The SwiftUI views, navigation, animations and the game view model's orchestration
  (taps, row adding, level transitions) are not modelled. Only `Progress` is taken from
  `GameViewModel.swift`.
- Timers and dispatch queues are not modelled. `RowTimer` is its counter only. A tick is
  an explicit call, and the callback's argument is the call's result. `isRunning` stands
  for the scheduled system timer.
- The `rowsClearedStream` and `scoreStream` async streams are not modelled: they only
  publish the fields.
- The UserDefaults and JSON layer of the statistics is a map from key to stored record.
  A record that fails to decode is the `Undecodable` case. A failing encode, which skips
  the write, is not modelled.
- Stats.UpdatedValues: the average is computed over `real`, not over `Double`, so rounding
  is not modelled.
- Stats.Values: the game count is a `nat`. Only this code writes it, always counting
  up from 0.
- Stats.Key: `GameLogic.Settings` and the raw values of its skill levels are not part of
  this model. The names "basic" and "expert" are assumed.
- The probability distributions of the random draws (`Token.random`, `randomToken`,
  `Int.random`) are not modelled. The draws are inputs or `:|` choices.
- `TokenPair(partialMatchTarget:)` is not part of this model. Its result is an input
  pair, and nothing is assumed about it.
- Token identity: the source's `attributes` is a `var`, but nothing in the core changes
  it, so the model makes it a constant of the token object.
- GameExtensions.Row.Replace: `Row` is a Swift struct, modelled as a class. Copies of a
  row are not modelled. Its UUID is an `id` argument of the constructor.
- GameExtensions.State: the game id that the statistics read is a field of the state,
  because `State` as shown has no `gameId`.
- `GameLogic+Extensions.swift` declares `AdjacencyResult` a second time, as
  `adjacent(isHorizontal:)`. It is the same three outcomes, and the model uses the
  `GameLogic.swift` form.
- `GameLogic.swift` reads `token.color` directly, while the token type keeps its
  attributes in an `Attributes` record. The model uses the record.
- Game.FullMatchToken: it returns the full match's attributes, not a new token, and
  Game.GameLogic.GetConvertedTokens makes the new tokens.
- Game.GameLogic.GetConvertedTokens: the order of the returned tokens is not stated, and
  their number is bounded by the listed tokens rather than given as the number of listed
  tokens found on the board.
- Game.GameLogic.UpdateScore: the row bonus is an empty placeholder in the source, so the
  model looks up no row.

## Findings

| source | as written | input that shows it | evidently intended | confidence | as-written member | corrected member |
|---|---|---|---|---|---|---|
| TokenTrapV3/GameLogic.swift:69-76 | `getKeyToken` redraws while `newToken == keyToken`. Token is a class with no `==` of its own, and a token just made is never the previous key object, so the loop never redraws and the new key may have the old key's color and icon | previous key blue die, first draw blue die: the new key is again blue die | redraw while the new token has the same attributes as the previous key, so that each level gets a different target | not executed; low: the token class shown declares no `==`, and this reading takes it to be identity, as the id-based `==` of the view-model objects is; if the token type of this revision compares attributes, the guard already does what is intended | Game.RepeatedKeyPassesGuard | Game.GameLogic.GetKeyToken |
