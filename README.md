# Dodger game data store, modelled in Dafny

This project models the in-memory data layer of the Dodger game manager
(`GameDataService` and the four records it stores) and proves what its
operations guarantee.

The store keeps four ordered lists: players, game sessions, obstacles and
power-ups. Each list has an id counter that starts at 1. For each entity type
the store can create, list, look up by id, update through a callback, delete
and count. Two rules span entity types:

- deleting a player also deletes every session recorded under that player's
  id;
- recording a session updates the owning player's statistics: one more game,
  the score added to the total, the best score raised when beaten, and the
  rank set from the session's score.

Layout, one module per file:

- `options.dfy` (`Options`): `Option`, the stand-in for a nullable result.
- `time.dfy` (`Time`): `DateTime` and `TimeSpan` as counts of 100 ns ticks.
- `lists.dfy` (`Lists`): the list operations the store uses, written once for
  every entity type. `Lookup` is the first-match scan, and `RemoveAt` removes
  the element found. `IdsOrdered` is the id invariant, with the lemmas showing
  that appending, removing and same-id replacement keep it.
- `player.dfy`, `game_session.dfy`, `obstacle.dfy`, `power_up.dfy`: the four
  records as datatypes, their default values, `AverageScore`,
  `ScorePerMinute`, and the effect of an update callback where the record has
  init-only fields.
- `service_rules.dfy` (`ServiceRules`): the rank rule, how a recorded session
  changes a player (`RecordGame`), and the two session filters: one player's
  sessions, and the cascade that keeps everyone else's.
- `game_data_service.dfy` (`GameData`): the class `GameDataService`. It has
  `seq` fields, the four counters and a method for every operation. `Valid()`
  is the object invariant: player and obstacle ids are positive, strictly
  increasing in list order, and below their counter. Session and power-up ids
  can be changed by an update callback, so `SessionIdsOrdered()` and
  `PowerUpIdsOrdered()` are kept apart. Every operation keeps them, except
  an update whose callback changes the id.
- `scenarios.dfy` (`Scenarios`): four client methods. One player records
  sessions of 6000 and 2000. A player with sessions is deleted beside another
  player. The counts are followed through a create and a cascading delete.
  The store is cleared and then given a new player. Their assertions follow
  from the store's contracts alone.

Two behaviours of the store are worth knowing:

- **Rank comes from the session's score, not the best score.** The rank
  switch tests `score` (`backend/DodgerGameManager/Services/GameDataService.cs`
  line 177), although the comment at line 176 says the rank is based on the
  high score. The model follows the switch. A player with a best of 6000 who
  then scores 2000 keeps the best score of 6000 but drops from Master to
  Advanced. `ServiceRules.RankFollowsLastSession` and
  `Scenarios.StatsWalkthrough` show this.
- **No invariant ties `totalGamesPlayed` to the session count.** Deleting a
  session leaves player statistics alone, a session can be recorded for an
  id with no player, and an update callback can set any statistic. So the
  two can differ, and the model states no link between them.

## Model

| member | source | states |
|---|---|---|
| `Time.TimeSpan.TotalMinutes` | backend/DodgerGameManager/Models/GameSession.cs:39 | the minutes of a span times ticks-per-minute give back its ticks; the span is positive exactly when its ticks are |
| `Players.Player.AverageScore` | backend/DodgerGameManager/Models/Player.cs:27-30 | 0 when no games were played (no division by zero); otherwise average × games played = total score |
| `Players.DefaultPlayer` | backend/DodgerGameManager/Models/Player.cs:15-25 | default player: id 0, empty name, all statistics 0, rank "Beginner", both dates the construction time, average score 0 |
| `Players.ApplyUpdate` | backend/DodgerGameManager/Models/Player.cs:6-13 | an update keeps the init-only id and registration date and takes every settable field from the callback; the result is the callback's own value exactly when the callback left those two fields alone |
| `GameSessions.GameSession.ScorePerMinute` | backend/DodgerGameManager/Models/GameSession.cs:37-40 | 0 when the duration is not positive; otherwise score-per-minute × minutes = score |
| `GameSessions.DefaultSession` | backend/DodgerGameManager/Models/GameSession.cs:22-35 | default session: ids 0, score 0, level 1, zero duration, no dodges or pickups, not a high score, difficulty "Normal", and therefore score-per-minute 0 |
| `Obstacles.DefaultObstacle` | backend/DodgerGameManager/Models/Obstacle.cs:16-27 | default obstacle: id 0, empty name, type "Meteor", speed 2.0, damage 100, size 20, colour "Red", 10 points on dodge, active |
| `Obstacles.ApplyUpdate` | backend/DodgerGameManager/Models/Obstacle.cs:6-14 | an update keeps the init-only obstacle id and takes every other field from the callback |
| `PowerUps.DefaultPowerUp` | backend/DodgerGameManager/Models/PowerUp.cs:16-27 | default power-up: id 0, empty name, type "Bonus", 5 s, 100 points, effect "Score Boost", spawn rate 0.1, rarity "Common", collectible |
| `Lists.FindFirst` | backend/DodgerGameManager/Services/GameDataService.cs:55-58 | the index returned holds the id and no earlier element does; None only when no element has the id |
| `Lists.Lookup` | backend/DodgerGameManager/Services/GameDataService.cs:122-125 | a found element is in the list, carries the id and sits at an index with no earlier element carrying it (the first match); None exactly when no element carries it |
| `Lists.RemoveAt` | backend/DodgerGameManager/Services/GameDataService.cs:80 | removal of the found element: one element fewer, those before it unchanged, those after it shifted down by one |
| `Lists.IdAtLeastIndex` | backend/DodgerGameManager/Services/GameDataService.cs:37 | in an id-ordered list the id at index i is at least i + 1, because ids start at 1 and strictly increase |
| `Lists.OrderedLength` | backend/DodgerGameManager/Services/GameDataService.cs:312-315 | an id-ordered list below counter `next` holds fewer than `next` elements: never more entries than ids issued |
| `Lists.LookupOrdered` | backend/DodgerGameManager/Services/GameDataService.cs:219-222 | in an id-ordered list every element is the first match for its own id |
| `Lists.LookupAppend` | backend/DodgerGameManager/Services/GameDataService.cs:43 | appending never hides an earlier match, and the new element is found only when nothing before it has its id |
| `Lists.LookupRemove` | backend/DodgerGameManager/Services/GameDataService.cs:244 | removing an element with a different id leaves every lookup of an id unchanged |
| `Lists.LookupRemoveOrdered` | backend/DodgerGameManager/Services/GameDataService.cs:304 | after removing an element from an id-ordered list its id is no longer found |
| `Lists.LookupReplace` | backend/DodgerGameManager/Services/GameDataService.cs:68 | replacing the first match by an element with the same id makes that id find the replacement and leaves every other id's lookup unchanged |
| `Lists.AppendFresh` | backend/DodgerGameManager/Services/GameDataService.cs:97 | appending under the counter's id keeps ids ordered with the counter advanced by 1, and the new element is found by its id |
| `Lists.OrderedAppend` | backend/DodgerGameManager/Services/GameDataService.cs:37 | appending under the next id keeps ids positive, strictly increasing and below the advanced counter |
| `Lists.OrderedRemove` | backend/DodgerGameManager/Services/GameDataService.cs:155 | removing any element keeps ids strictly increasing and below the counter |
| `Lists.OrderedReplace` | backend/DodgerGameManager/Services/GameDataService.cs:232 | replacing an element by one with the same id keeps the id order |
| `ServiceRules.TiersOfThresholds` | backend/DodgerGameManager/Services/GameDataService.cs:177-185 | the number of thresholds (500, 1000, 2500, 5000, 10000) a score reaches, band by band |
| `ServiceRules.RankFor` | backend/DodgerGameManager/Services/GameDataService.cs:177-185 | the rank the switch picks is the rank whose tier index is the number of thresholds the score reaches (≥10000 Legend, ≥5000 Master, ≥2500 Expert, ≥1000 Advanced, ≥500 Intermediate, else Beginner) |
| `ServiceRules.RankMonotone` | backend/DodgerGameManager/Services/GameDataService.cs:177-185 | a higher score never reaches fewer thresholds, and the lower score's rank is one of the ranks up to and including the higher score's |
| `ServiceRules.RecordGame` | backend/DodgerGameManager/Services/GameDataService.cs:162-186 | after a session: games played +1, total score + score, last played = now, best score = the larger of old best and score, rank = the session score's tier; id, name and registration date unchanged |
| `ServiceRules.RankFollowsLastSession` | backend/DodgerGameManager/Services/GameDataService.cs:176-177 | a Master with best 6000 who scores 2000 keeps best 6000 but becomes Advanced |
| `ServiceRules.SessionsOf` | backend/DodgerGameManager/Services/GameDataService.cs:130-133 | a session is in the result exactly when it is in the list and belongs to the player |
| `ServiceRules.SessionsNotOf` | backend/DodgerGameManager/Services/GameDataService.cs:82 | a session survives the cascade exactly when it is in the list and belongs to another player |
| `ServiceRules.SessionsOfAppend` | backend/DodgerGameManager/Services/GameDataService.cs:132 | filtering distributes over concatenation, so the player's sessions come out in list order |
| `ServiceRules.SessionsNotOfAppend` | backend/DodgerGameManager/Services/GameDataService.cs:82 | the cascade distributes over concatenation, so the kept sessions of all other players stay in list order |
| `ServiceRules.SessionsOfAppendOne` | backend/DodgerGameManager/Services/GameDataService.cs:106 | recording a session adds it at the end of its own player's sessions and changes no other player's |
| `ServiceRules.SessionsPartition` | backend/DodgerGameManager/Services/GameDataService.cs:82 | a player's sessions plus the cascade's survivors account for every session |
| `ServiceRules.SessionsOfAfterCascade` | backend/DodgerGameManager/Services/GameDataService.cs:80-82 | after the cascade the deleted player has no sessions and every other player has exactly the sessions they had, in order |
| `ServiceRules.SessionsNotOfOrdered` | backend/DodgerGameManager/Services/GameDataService.cs:82 | the cascade keeps the remaining session ids ordered |
| `GameData.GameDataService.constructor` | backend/DodgerGameManager/Services/GameDataService.cs:22-28 | four empty lists, all counters 1, every id invariant holds |
| `GameData.GameDataService.CreatePlayer` | backend/DodgerGameManager/Services/GameDataService.cs:33-45 | the new player is the default player with id = old counter and the given name; it is appended; the player counter goes up by exactly 1; nothing else changes; the new player is found by its id; the player count goes up by 1 |
| `GameData.GameDataService.GetAllPlayers` | backend/DodgerGameManager/Services/GameDataService.cs:50 | the listing is all the stored players: every listed player is found by its id and every player a lookup finds is listed; in a valid store each listed player is the one its id finds, and the listing is in increasing id order |
| `GameData.GameDataService.GetPlayerById` | backend/DodgerGameManager/Services/GameDataService.cs:55-58 | a found player is stored and has the id; None exactly when no stored player has it |
| `GameData.GameDataService.UpdatePlayer` | backend/DodgerGameManager/Services/GameDataService.cs:63-70 | false and no change for an absent id; otherwise true, only that player replaced by the callback's result with id and registration date kept, every other lookup unchanged |
| `GameData.GameDataService.DeletePlayer` | backend/DodgerGameManager/Services/GameDataService.cs:75-84 | false and no change for an absent id; otherwise true, the player removed, exactly the sessions with that player id removed and the rest kept in order; obstacles, power-ups and counters untouched; the id is no longer found and other players' lookups and sessions are unchanged; the player count drops by 1 on success and the session count by exactly the number of that player's sessions |
| `GameData.GameDataService.RemoveSessionsOf` | backend/DodgerGameManager/Services/GameDataService.cs:81-82 | the cascade alone: only the session list changes, to the sessions of other players in list order; that player then has none, every other player's sessions are unchanged, session ids stay ordered, and the session count drops by the number of that player's sessions |
| `GameData.GameDataService.CreateGameSession` | backend/DodgerGameManager/Services/GameDataService.cs:93-112 | the session (next session id, given fields, difficulty "Normal") is always appended and the counter goes up by 1; an absent player leaves the players list unchanged; a present one becomes `RecordGame` of itself and no other player changes; only that player's session list grows; the session count goes up by 1 and the player count is unchanged |
| `GameData.GameDataService.AddSession` | backend/DodgerGameManager/Services/GameDataService.cs:97-106 | appends the session, advances the session counter, nothing else changes, and the session ids stay ordered |
| `GameData.GameDataService.UpdatePlayerStats` | backend/DodgerGameManager/Services/GameDataService.cs:162-186 | absent player: no change (silent skip); present: that player becomes `RecordGame` of itself, all other players and all other lists unchanged |
| `GameData.GameDataService.GetAllGameSessions` | backend/DodgerGameManager/Services/GameDataService.cs:117 | the listing is all the stored sessions: every listed session is found by its id and every session a lookup finds is listed; with ordered ids each listed session is the one its id finds, and the listing is in increasing id order |
| `GameData.GameDataService.GetGameSessionById` | backend/DodgerGameManager/Services/GameDataService.cs:122-125 | a found session is stored and has the id; the session at the first index with the id is the one returned, even when an update has left duplicate ids; None exactly when no stored session has it |
| `GameData.GameDataService.GetGameSessionsByPlayerId` | backend/DodgerGameManager/Services/GameDataService.cs:130-133 | exactly the stored sessions with that player id; together with the cascade's survivors they account for every session |
| `GameData.GameDataService.UpdateGameSession` | backend/DodgerGameManager/Services/GameDataService.cs:138-145 | false and no change for an absent id; otherwise true and only that session replaced by the callback's result; if the callback keeps the id, the id finds the result and the id order survives |
| `GameData.GameDataService.DeleteGameSession` | backend/DodgerGameManager/Services/GameDataService.cs:150-157 | false and no change for an absent id; otherwise true and only that session removed, player statistics untouched; other lookups unchanged; with ordered ids the id is no longer found; the session count drops by 1 exactly on success |
| `GameData.GameDataService.CreateObstacle` | backend/DodgerGameManager/Services/GameDataService.cs:195-209 | the new obstacle has id = old counter and the given name, type, speed, damage and size, with colour "Red", 10 points on dodge and active as defaults; it is appended and found by its id; only the obstacle list and counter change; the obstacle count goes up by 1 |
| `GameData.GameDataService.GetAllObstacles` | backend/DodgerGameManager/Services/GameDataService.cs:214 | the listing is all the stored obstacles: every listed obstacle is found by its id and every obstacle a lookup finds is listed; in a valid store each listed obstacle is the one its id finds, and the listing is in increasing id order |
| `GameData.GameDataService.GetObstacleById` | backend/DodgerGameManager/Services/GameDataService.cs:219-222 | a found obstacle is stored and has the id; None exactly when no stored obstacle has it |
| `GameData.GameDataService.UpdateObstacle` | backend/DodgerGameManager/Services/GameDataService.cs:227-234 | false and no change for an absent id; otherwise true, only that obstacle replaced by the callback's result with its id kept, every other lookup unchanged |
| `GameData.GameDataService.DeleteObstacle` | backend/DodgerGameManager/Services/GameDataService.cs:239-246 | false and no change for an absent id; otherwise true and only that obstacle removed; the id is no longer found and other lookups are unchanged; the obstacle count drops by 1 exactly on success |
| `GameData.GameDataService.CreatePowerUp` | backend/DodgerGameManager/Services/GameDataService.cs:255-269 | the new power-up has id = old counter and the given name, type, effect, duration and points, with spawn rate 0.1, rarity "Common" and collectible as defaults; it is appended; only the power-up list and counter change; with ordered ids it is found by its id; the power-up count goes up by 1 |
| `GameData.GameDataService.GetAllPowerUps` | backend/DodgerGameManager/Services/GameDataService.cs:274 | the listing is all the stored power-ups: every listed power-up is found by its id and every power-up a lookup finds is listed; with ordered ids each listed power-up is the one its id finds, and the listing is in increasing id order |
| `GameData.GameDataService.GetPowerUpById` | backend/DodgerGameManager/Services/GameDataService.cs:279-282 | a found power-up is stored and has the id; the power-up at the first index with the id is the one returned, even when an update has left duplicate ids; None exactly when no stored power-up has it |
| `GameData.GameDataService.UpdatePowerUp` | backend/DodgerGameManager/Services/GameDataService.cs:287-294 | false and no change for an absent id; otherwise true and only that power-up replaced by the callback's result; if the callback keeps the id, the id finds the result and the id order survives |
| `GameData.GameDataService.DeletePowerUp` | backend/DodgerGameManager/Services/GameDataService.cs:299-306 | false and no change for an absent id; otherwise true and only that power-up removed; other lookups unchanged; with ordered ids the id is no longer found; the power-up count drops by 1 exactly on success |
| `GameData.GameDataService.GetTotalPlayers` | backend/DodgerGameManager/Services/GameDataService.cs:312 | the count is the length of the player listing and, in a valid store, below the next player id (never more players than ids issued); `CreatePlayer` and `DeletePlayer` state how it changes |
| `GameData.GameDataService.GetTotalGameSessions` | backend/DodgerGameManager/Services/GameDataService.cs:313 | the count is the length of the session listing; for every player it is that player's sessions plus everyone else's; with ordered ids it is below the next session id; `CreateGameSession`, `DeleteGameSession` and `DeletePlayer` state how it changes |
| `GameData.GameDataService.GetTotalObstacles` | backend/DodgerGameManager/Services/GameDataService.cs:314 | the count is the length of the obstacle listing and, in a valid store, below the next obstacle id; `CreateObstacle` and `DeleteObstacle` state how it changes |
| `GameData.GameDataService.GetTotalPowerUps` | backend/DodgerGameManager/Services/GameDataService.cs:315 | the count is the length of the power-up listing and, with ordered ids, below the next power-up id; `CreatePowerUp` and `DeletePowerUp` state how it changes |
| `GameData.GameDataService.ClearAllData` | backend/DodgerGameManager/Services/GameDataService.cs:317-328 | all four lists empty, all four counters 1 (so the next id of each type is 1), every count 0, every id invariant holds |

## Left out

- The clock: `DateTime.Now` is not modelled. Each operation that stamps a time
  takes it as a `now` parameter.
- Floating point: `GetAverageScore`, `GetScorePerMinute` and
  `TimeSpan.TotalMinutes` are exact real arithmetic, with no double rounding.
  `Speed` and `SpawnRate` are reals. The store does no arithmetic on them.
- 32-bit overflow: `TotalScore += score`, `TotalGamesPlayed++` and the id
  counters use unbounded integers. The source's `int` would wrap after 2^31 − 1.
- Update callbacks are total pure functions from record to record. A callback
  in the source can have other side effects, including calls back into the
  store. Those are not modelled.
- `UpdateGameSession` and `UpdatePowerUp` keep id order only when the callback
  keeps the id. Session and power-up ids are settable, so the source can
  create duplicate or out-of-order ids.
- Aliasing: `GetAll*` returns the list value. In the source it returns the
  live list, and a caller could change that list without the store knowing.
- Reference identity: `Create*` and `Get*ById` hand back the stored object
  itself, and the update callbacks change that shared object in place. A
  caller holding it can therefore change a stored entity without calling any
  `Update*`, including the settable `SessionId` and `PowerUpId`. The model
  returns values and replaces a stored entity only through the store's own
  operations, so it does not capture changes made through such references.
- Removal of the found element: `Player` and `Obstacle` are records, so
  `List.Remove` finds the first element equal in value; `GameSession` and
  `PowerUp` are classes, so it finds the first element that is the same
  object. Both are modelled as removal at the index of the first element
  with the id. No earlier element can be equal to the found one or be the
  same object, because it would carry the same id, so the index is the same.
- The `ToString` overrides are not modelled. They are diagnostic formatting
  only.
- `Program.cs` (a console demo) and `script.js` (the browser game loop:
  canvas drawing, keyboard input, random spawning, local storage) are not part
  of this model.
