/**
 * Four clients of the store: a player's statistics over two sessions, a
 * cascading delete beside another player (set up by a helper), the counts
 * through a create and a cascading delete, and a full clear followed by a
 * fresh id. Every assertion is derived from the contracts of the store
 * alone.
 */
module Scenarios {
  import opened Options
  import opened Time
  import opened Players
  import opened GameSessions
  import opened ServiceRules
  import opened GameData

  /** Two sessions for one player: the best score stays, the rank follows the last score. */
  method StatsWalkthrough(now: DateTime, played: TimeSpan) {
    var store := new GameDataService();
    var alice := store.CreatePlayer("Alice", now);
    assert alice.playerId == 1;

    var first := store.CreateGameSession(1, "Alice", 6000, 4, played, now);
    var best := store.GetPlayerById(1);
    assert best == Some(RecordGame(alice, 6000, now));
    assert best.value.highestScore == 6000 && best.value.totalGamesPlayed == 1;
    assert best.value.rank == "Master";

    var second := store.CreateGameSession(1, "Alice", 2000, 2, played, now);
    var after := store.GetPlayerById(1);
    assert after == Some(RecordGame(best.value, 2000, now));
    assert after.value.highestScore == 6000;
    assert after.value.totalGamesPlayed == 2 && after.value.totalScore == 8000;
    assert after.value.rank == "Advanced";
  }

  /** Two players, Alice (id 1) and Bob (id 2), each with one recorded session. */
  method TwoPlayersWithSessions(now: DateTime, played: TimeSpan) returns (store: GameDataService, second: GameSession)
    ensures fresh(store) && store.Valid()
    ensures store.GetPlayerById(1).Some?
    ensures store.GetGameSessionsByPlayerId(2) == [second]
  {
    store := new GameDataService();
    var alice := store.CreatePlayer("Alice", now);
    var bob := store.CreatePlayer("Bob", now);
    assert alice.playerId == 1 && bob.playerId == 2;

    assert store.GetGameSessionsByPlayerId(2) == [];
    var first := store.CreateGameSession(1, "Alice", 6000, 4, played, now);
    assert store.GetGameSessionsByPlayerId(2) == [];
    assert store.GetPlayerById(1).Some?;
    second := store.CreateGameSession(2, "Bob", 700, 1, played, now);
  }

  /** Deleting a player removes that player's sessions and keeps the other player's. */
  method CascadeWalkthrough(now: DateTime, played: TimeSpan) {
    var store, second := TwoPlayersWithSessions(now, played);
    var deleted := store.DeletePlayer(1);
    assert deleted;
    assert store.GetPlayerById(1).None?;
    assert store.GetGameSessionsByPlayerId(1) == [];
    assert store.GetGameSessionsByPlayerId(2) == [second];
  }

  /** The counts follow creates and deletes; deleting a player also drops the count of that player's sessions. */
  method CountsWalkthrough(now: DateTime, played: TimeSpan) {
    var store := new GameDataService();
    var alice := store.CreatePlayer("Alice", now);
    assert store.GetGameSessionsByPlayerId(1) == [];
    var first := store.CreateGameSession(1, "Alice", 6000, 4, played, now);
    assert store.GetGameSessionsByPlayerId(1) == [first];
    assert store.GetTotalPlayers() == 1 && store.GetTotalGameSessions() == 1;

    var deleted := store.DeletePlayer(1);
    assert deleted;
    assert store.GetTotalPlayers() == 0 && store.GetTotalGameSessions() == 0;
  }

  /** After a clear every count is 0 and ids start again at 1. */
  method ClearWalkthrough(now: DateTime) {
    var store := new GameDataService();
    var alice := store.CreatePlayer("Alice", now);
    var bob := store.CreatePlayer("Bob", now);
    assert bob.playerId == 2;
    store.ClearAllData();
    assert store.GetTotalPlayers() == 0 && store.GetTotalGameSessions() == 0;
    assert store.GetPlayerById(2).None?;
    var carol := store.CreatePlayer("Carol", now);
    assert carol.playerId == 1;
  }
}
