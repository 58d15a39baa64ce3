/**
  The game statistics kept per skill level (TokenTrapV3/GameLogic+StatsStorage.swift).

  At the end of a game the stored high score, average and game count for the current
  skill level are updated, unless the game is a training game, scored nothing, or was
  already counted. The persistent store is a map from key to stored record; a record
  that cannot be decoded, like a missing one, reads as all zeros.
*/
module Stats {
  import opened Wrappers
  import opened GameExtensions

  datatype SkillLevel = Basic | Expert

  datatype Settings = Settings(skillLevel: SkillLevel, isTrainingMode: bool)

  /** `Stats.Values`; the game count is never negative, as only this code writes it. */
  datatype Values = Values(highScore: int, averageScore: real, numberOfGames: nat)

  datatype Stats = Stats(values: Values, isNewHighScore: bool, settings: Settings)

  /** What the store holds under a key: a record, or data that does not decode. */
  datatype StoredData = Decodable(values: Values) | Undecodable

  const KeyPrefix: string := "com.tokentrap.stats."

  const DefaultValues: Values := Values(0, 0.0, 0)

  function RawValue(level: SkillLevel): string {
    match level
    case Basic => "basic"
    case Expert => "expert"
  }

  /** The store key of a skill level; the training flag plays no part in it. */
  function Key(settings: Settings): (key: string)
    ensures key == KeyPrefix + RawValue(settings.skillLevel)
  {
    KeyPrefix + RawValue(settings.skillLevel)
  }

  /** Basic and expert statistics live under different keys. */
  lemma KeysDiffer(s1: Settings, s2: Settings)
    ensures Key(s1) == Key(s2) <==> s1.skillLevel == s2.skillLevel
  {
    if s1.skillLevel != s2.skillLevel {
      assert Key(s1)[|KeyPrefix|] != Key(s2)[|KeyPrefix|];
    }
  }

  /** `getStoredValues()`: the stored record, or all zeros when there is none or it does not decode. */
  function StoredValues(store: map<string, StoredData>, key: string): (v: Values)
    ensures key in store && store[key].Decodable? ==> v == store[key].values
    ensures key !in store || store[key].Undecodable? ==> v == Values(0, 0.0, 0)
  {
    if key in store && store[key].Decodable? then store[key].values else DefaultValues
  }

  /** `canUpdateStoredValues(for:)`: not training, a positive score, and a game not counted yet. */
  predicate CanUpdateStoredValues(settings: Settings, lastGameId: Option<nat>, state: State)
    ensures CanUpdateStoredValues(settings, lastGameId, state) ==>
      !settings.isTrainingMode && state.score > 0 && lastGameId != Some(state.gameId)
    ensures lastGameId.None? && !settings.isTrainingMode && state.score > 0 ==>
      CanUpdateStoredValues(settings, lastGameId, state)
  {
    !settings.isTrainingMode && state.score > 0 && Some(state.gameId) != lastGameId
  }

  /**
    `getUpdatedValues(from:_:)`: one more game; the high score is the larger of the old
    one and this score; the average takes this score in (over the reals).
  */
  function UpdatedValues(stored: Values, score: int): (v: Values)
    ensures v.numberOfGames == stored.numberOfGames + 1
    ensures v.highScore >= score && v.highScore >= stored.highScore
    ensures v.highScore == score || v.highScore == stored.highScore
    ensures v.averageScore * (stored.numberOfGames + 1) as real ==
      stored.numberOfGames as real * stored.averageScore + score as real
  {
    var previousTotalScore := stored.numberOfGames as real * stored.averageScore;
    var updatedTotalScore := previousTotalScore + score as real;
    var updatedNumberOfGames := stored.numberOfGames + 1;
    var updatedAverageScore := updatedTotalScore / updatedNumberOfGames as real;
    var updatedHighScore := if score > stored.highScore then score else stored.highScore;
    Values(updatedHighScore, updatedAverageScore, updatedNumberOfGames)
  }

  class StatsStorage {
    const settings: Settings
    var lastGameId: Option<nat>
    /** The persistent key-value store. */
    var store: map<string, StoredData>

    constructor (settings: Settings, store: map<string, StoredData>)
      ensures this.settings == settings && this.store == store && lastGameId.None?
    {
      this.settings := settings;
      this.store := store;
      lastGameId := None;
    }

    /**
      `getUpdatedStats(with:)`: when the game may be counted, the updated values are
      stored under this skill level's key, the game is remembered, and the result says
      whether the score beat the stored high score; otherwise the stored values come back
      unchanged with no new high score and nothing is written.
    */
    method GetUpdatedStats(state: State) returns (stats: Stats)
      modifies this`lastGameId, this`store
      ensures var stored := StoredValues(old(store), Key(settings));
        if CanUpdateStoredValues(settings, old(lastGameId), state) then
          stats == Stats(UpdatedValues(stored, state.score), state.score > stored.highScore, settings) &&
          store == old(store)[Key(settings) := Decodable(stats.values)] &&
          lastGameId == Some(state.gameId)
        else
          stats == Stats(stored, false, settings) &&
          store == old(store) && lastGameId == old(lastGameId)
    {
      var storedValues := StoredValues(store, Key(settings));
      if !CanUpdateStoredValues(settings, lastGameId, state) {
        return Stats(storedValues, false, settings);
      }
      lastGameId := Some(state.gameId);
      stats := Stats(UpdatedValues(storedValues, state.score), state.score > storedValues.highScore, settings);
      store := store[Key(settings) := Decodable(stats.values)];
    }
  }

  /** Asking twice for the same game counts it once: the second call writes nothing and reports no new high score. */
  method UpdateTwice(storage: StatsStorage, state: State) returns (first: Stats, second: Stats)
    modifies storage
    ensures !second.isNewHighScore
    ensures second.values == StoredValues(storage.store, Key(storage.settings))
    ensures CanUpdateStoredValues(storage.settings, old(storage.lastGameId), state) ==>
      storage.store == old(storage.store)[Key(storage.settings) := Decodable(first.values)]
    ensures !CanUpdateStoredValues(storage.settings, old(storage.lastGameId), state) ==>
      storage.store == old(storage.store)
  {
    first := storage.GetUpdatedStats(state);
    second := storage.GetUpdatedStats(state);
  }
}
