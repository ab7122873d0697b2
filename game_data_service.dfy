/**
 * The in-memory store of players, game sessions, obstacles and power-ups.
 * It owns one ordered list and one id counter per entity type and offers
 * create, list, look-up, update, delete and count operations on each, plus
 * two rules that span entities: deleting a player deletes that player's
 * sessions, and recording a session updates the owning player's statistics.
 */
module GameData {
  import opened Options
  import opened Time
  import opened Lists
  import opened Players
  import opened GameSessions
  import opened Obstacles
  import opened PowerUps
  import opened ServiceRules

  /** The whole state of the store as one value, so a contract can say what changed and what did not. */
  datatype Store = Store(
    players: seq<Player>,
    gameSessions: seq<GameSession>,
    obstacles: seq<Obstacle>,
    powerUps: seq<PowerUp>,
    nextPlayerId: int,
    nextSessionId: int,
    nextObstacleId: int,
    nextPowerUpId: int)

  const EmptyStore: Store := Store([], [], [], [], 1, 1, 1, 1)

  class GameDataService {
    var players: seq<Player>
    var gameSessions: seq<GameSession>
    var obstacles: seq<Obstacle>
    var powerUps: seq<PowerUp>

    /** The id the next created entity of each type receives. */
    var nextPlayerId: int
    var nextSessionId: int
    var nextObstacleId: int
    var nextPowerUpId: int

    ghost function State(): Store
      reads this
    {
      Store(players, gameSessions, obstacles, powerUps,
            nextPlayerId, nextSessionId, nextObstacleId, nextPowerUpId)
    }

    /**
     * The object invariant. Player and obstacle ids are init-only, so every
     * operation keeps their lists ordered by id, with every id issued and
     * below the next one.
     */
    ghost predicate Valid()
      reads this
    {
      nextPlayerId >= 1 && nextSessionId >= 1 && nextObstacleId >= 1 && nextPowerUpId >= 1 &&
      IdsOrdered(players, Players.IdOf, nextPlayerId) &&
      IdsOrdered(obstacles, Obstacles.IdOf, nextObstacleId)
    }

    /**
     * Session and power-up ids are settable, so an update callback can break
     * their order; every other operation keeps it.
     */
    ghost predicate SessionIdsOrdered()
      reads this
    {
      IdsOrdered(gameSessions, GameSessions.IdOf, nextSessionId)
    }

    ghost predicate PowerUpIdsOrdered()
      reads this
    {
      IdsOrdered(powerUps, PowerUps.IdOf, nextPowerUpId)
    }

    constructor ()
      ensures Valid() && SessionIdsOrdered() && PowerUpIdsOrdered()
      ensures State() == EmptyStore
    {
      players, gameSessions, obstacles, powerUps := [], [], [], [];
      nextPlayerId, nextSessionId, nextObstacleId, nextPowerUpId := 1, 1, 1, 1;
    }

    // ---------------------------------------------------------------- players

    /** Registers a player under the next player id and returns the new record. */
    method CreatePlayer(playerName: string, now: DateTime) returns (player: Player)
      requires Valid()
      modifies this
      ensures Valid()
      ensures player == DefaultPlayer(now).(playerId := old(nextPlayerId), playerName := playerName)
      ensures State() == old(State()).(players := old(players) + [player],
                                       nextPlayerId := old(nextPlayerId) + 1)
      ensures GetPlayerById(player.playerId) == Some(player)
      ensures GetTotalPlayers() == old(GetTotalPlayers()) + 1
    {
      player := DefaultPlayer(now).(playerId := nextPlayerId, playerName := playerName,
                                    dateRegistered := now, lastPlayed := now, rank := "Beginner");
      nextPlayerId := nextPlayerId + 1;
      players := players + [player];
      OrderedAppend(old(players), Players.IdOf, old(nextPlayerId), player);
      LookupFresh(old(players), Players.IdOf, old(nextPlayerId));
      LookupAppend(old(players), Players.IdOf, player, player.playerId);
    }

    /** All stored players: each is found again by its id, and every player a lookup finds is listed. */
    function GetAllPlayers(): (r: seq<Player>)
      reads this
      ensures forall i :: 0 <= i < |r| ==> GetPlayerById(r[i].playerId).Some?
      ensures Valid() ==> forall i :: 0 <= i < |r| ==> GetPlayerById(r[i].playerId) == Some(r[i])
      ensures Valid() ==> forall i, j :: 0 <= i < j < |r| ==> r[i].playerId < r[j].playerId
      ensures forall id :: GetPlayerById(id).Some? ==> GetPlayerById(id).value in r
    {
      LookupOrderedAll(players, Players.IdOf, nextPlayerId);
      players
    }

    /** The first player with the given id, or None. */
    function GetPlayerById(playerId: int): (r: Option<Player>)
      reads this
      ensures r.Some? ==> r.value in players && r.value.playerId == playerId
      ensures r.None? <==> forall p :: p in players ==> p.playerId != playerId
    {
      Lookup(players, Players.IdOf, playerId)
    }

    /**
     * Applies an update callback to the player with the given id. The
     * callback cannot change the init-only id or registration date.
     */
    method UpdatePlayer(playerId: int, action: Player -> Player) returns (ok: bool)
      requires Valid()
      modifies this
      ensures Valid()
      ensures ok <==> old(GetPlayerById(playerId)).Some?
      ensures !ok ==> State() == old(State())
      ensures ok ==>
        var i := FindFirst(old(players), Players.IdOf, playerId).value;
        State() == old(State()).(players := old(players)[i := Players.ApplyUpdate(old(players)[i], action)])
      ensures ok ==> GetPlayerById(playerId) == Some(Players.ApplyUpdate(old(GetPlayerById(playerId)).value, action))
      ensures forall q :: q != playerId ==> GetPlayerById(q) == old(GetPlayerById(q))
    {
      var found := FindFirst(players, Players.IdOf, playerId);
      if found.None? {
        return false;
      }
      var i := found.value;
      var player := Players.ApplyUpdate(players[i], action);
      players := players[i := player];
      ok := true;
      OrderedReplace(old(players), Players.IdOf, nextPlayerId, i, player);
      forall q | q != playerId ensures GetPlayerById(q) == old(GetPlayerById(q)) {
        LookupReplace(old(players), Players.IdOf, i, player, q);
      }
      LookupReplace(old(players), Players.IdOf, i, player, playerId);
    }

    /**
     * Deletes the player with the given id and, with it, every session
     * recorded for that id; other sessions keep their order.
     */
    method DeletePlayer(playerId: int) returns (ok: bool)
      requires Valid()
      modifies this
      ensures Valid()
      ensures ok <==> old(GetPlayerById(playerId)).Some?
      ensures !ok ==> State() == old(State())
      ensures ok ==>
        var i := FindFirst(old(players), Players.IdOf, playerId).value;
        State() == old(State()).(players := RemoveAt(old(players), i),
                                 gameSessions := SessionsNotOf(old(gameSessions), playerId))
      ensures GetPlayerById(playerId).None?
      ensures forall q :: q != playerId ==> GetPlayerById(q) == old(GetPlayerById(q))
      ensures ok ==> GetGameSessionsByPlayerId(playerId) == []
      ensures forall q :: q != playerId ==> GetGameSessionsByPlayerId(q) == old(GetGameSessionsByPlayerId(q))
      ensures old(SessionIdsOrdered()) ==> SessionIdsOrdered()
      ensures GetTotalPlayers() == old(GetTotalPlayers()) - (if ok then 1 else 0)
      ensures ok ==>
        GetTotalGameSessions() == old(GetTotalGameSessions()) - |old(GetGameSessionsByPlayerId(playerId))|
    {
      var found := FindFirst(players, Players.IdOf, playerId);
      if found.None? {
        return false;
      }
      var i := found.value;
      players := RemoveAt(players, i);
      ok := true;
      OrderedRemove(old(players), Players.IdOf, nextPlayerId, i);
      LookupRemoveOrdered(old(players), Players.IdOf, nextPlayerId, i);
      forall q | q != playerId ensures GetPlayerById(q) == old(GetPlayerById(q)) {
        LookupRemove(old(players), Players.IdOf, i, q);
      }
      RemoveSessionsOf(playerId);
    }

    /** The cascade: removes every session recorded for `playerId`, keeping the others in order. */
    method RemoveSessionsOf(playerId: int)
      modifies this
      ensures State() == old(State()).(gameSessions := SessionsNotOf(old(gameSessions), playerId))
      ensures forall q ::
        GetGameSessionsByPlayerId(q) == if q == playerId then [] else old(GetGameSessionsByPlayerId(q))
      ensures old(SessionIdsOrdered()) ==> SessionIdsOrdered()
      ensures GetTotalGameSessions() == old(GetTotalGameSessions()) - |old(GetGameSessionsByPlayerId(playerId))|
    {
      gameSessions := SessionsNotOf(gameSessions, playerId);
      forall q ensures GetGameSessionsByPlayerId(q) == if q == playerId then [] else old(GetGameSessionsByPlayerId(q)) {
        SessionsOfAfterCascade(old(gameSessions), playerId, q);
      }
      if old(SessionIdsOrdered()) {
        SessionsNotOfOrdered(old(gameSessions), nextSessionId, playerId);
      }
      SessionsPartition(old(gameSessions), playerId);
    }

    // ---------------------------------------------------------- game sessions

    /**
     * Records a session under the next session id. The session is recorded
     * whether or not a player with `playerId` exists; when one does, that
     * player's statistics are updated as `RecordGame` says, and no other
     * player changes.
     */
    method CreateGameSession(playerId: int, playerName: string, score: int, level: int,
                             duration: TimeSpan, now: DateTime) returns (session: GameSession)
      requires Valid()
      modifies this
      ensures Valid()
      ensures session == DefaultSession(now).(sessionId := old(nextSessionId), playerId := playerId,
                                              playerName := playerName, score := score,
                                              level := level, duration := duration)
      ensures old(GetPlayerById(playerId)).None? ==>
        State() == old(State()).(gameSessions := old(gameSessions) + [session],
                                 nextSessionId := old(nextSessionId) + 1)
      ensures old(GetPlayerById(playerId)).Some? ==>
        var i := FindFirst(old(players), Players.IdOf, playerId).value;
        State() == old(State()).(players := old(players)[i := RecordGame(old(players)[i], score, now)],
                                 gameSessions := old(gameSessions) + [session],
                                 nextSessionId := old(nextSessionId) + 1)
      ensures GetPlayerById(playerId) ==
        match old(GetPlayerById(playerId))
        case None => None
        case Some(p) => Some(RecordGame(p, score, now))
      ensures forall q :: q != playerId ==> GetPlayerById(q) == old(GetPlayerById(q))
      ensures forall q ::
        GetGameSessionsByPlayerId(q) == old(GetGameSessionsByPlayerId(q)) + if q == playerId then [session] else []
      ensures old(SessionIdsOrdered()) ==>
        SessionIdsOrdered() && GetGameSessionById(session.sessionId) == Some(session)
      ensures GetTotalGameSessions() == old(GetTotalGameSessions()) + 1
      ensures GetTotalPlayers() == old(GetTotalPlayers())
    {
      session := DefaultSession(now).(sessionId := nextSessionId, playerId := playerId,
                                      playerName := playerName, score := score, level := level,
                                      duration := duration, sessionDate := now, difficulty := "Normal");
      AddSession(session);
      UpdatePlayerStats(playerId, score, now);
    }

    /** Stores a new session under the next session id and advances that counter. */
    method AddSession(session: GameSession)
      requires session.sessionId == nextSessionId
      modifies this
      ensures State() == old(State()).(gameSessions := old(gameSessions) + [session],
                                       nextSessionId := old(nextSessionId) + 1)
      ensures forall q ::
        GetGameSessionsByPlayerId(q) == old(GetGameSessionsByPlayerId(q)) + if q == session.playerId then [session] else []
      ensures old(SessionIdsOrdered()) && old(nextSessionId) >= 1 ==>
        SessionIdsOrdered() && GetGameSessionById(session.sessionId) == Some(session)
    {
      nextSessionId := nextSessionId + 1;
      gameSessions := gameSessions + [session];
      SessionsOfAppendOne(old(gameSessions), session);
      if old(SessionIdsOrdered()) && old(nextSessionId) >= 1 {
        AppendFresh(old(gameSessions), GameSessions.IdOf, old(nextSessionId), session);
      }
    }

    /**
     * After a game: one more game played, the score added to the total, the
     * time of play set, the best score raised when beaten, and the rank set
     * from this session's score. Nothing happens when no player has the id.
     */
    method UpdatePlayerStats(playerId: int, score: int, now: DateTime)
      requires Valid()
      modifies this
      ensures Valid()
      ensures old(GetPlayerById(playerId)).None? ==> State() == old(State())
      ensures old(GetPlayerById(playerId)).Some? ==>
        var i := FindFirst(old(players), Players.IdOf, playerId).value;
        State() == old(State()).(players := old(players)[i := RecordGame(old(players)[i], score, now)])
      ensures GetPlayerById(playerId) ==
        match old(GetPlayerById(playerId))
        case None => None
        case Some(p) => Some(RecordGame(p, score, now))
      ensures forall q :: q != playerId ==> GetPlayerById(q) == old(GetPlayerById(q))
    {
      var found := FindFirst(players, Players.IdOf, playerId);
      if found.None? {
        return;
      }
      var i := found.value;
      var player := players[i];
      player := player.(totalGamesPlayed := player.totalGamesPlayed + 1);
      player := player.(totalScore := player.totalScore + score);
      player := player.(lastPlayed := now);
      if score > player.highestScore {
        player := player.(highestScore := score);
      }
      player := player.(rank := RankFor(score));
      players := players[i := player];
      assert player == RecordGame(old(players)[i], score, now);
      OrderedReplace(old(players), Players.IdOf, nextPlayerId, i, player);
      forall q ensures GetPlayerById(q) == if q == playerId then Some(player) else old(GetPlayerById(q)) {
        LookupReplace(old(players), Players.IdOf, i, player, q);
      }
    }

    /** All stored sessions: each is found again by its id, and every session a lookup finds is listed. */
    function GetAllGameSessions(): (r: seq<GameSession>)
      reads this
      ensures forall i :: 0 <= i < |r| ==> GetGameSessionById(r[i].sessionId).Some?
      ensures SessionIdsOrdered() ==>
        forall i :: 0 <= i < |r| ==> GetGameSessionById(r[i].sessionId) == Some(r[i])
      ensures SessionIdsOrdered() ==> forall i, j :: 0 <= i < j < |r| ==> r[i].sessionId < r[j].sessionId
      ensures forall id :: GetGameSessionById(id).Some? ==> GetGameSessionById(id).value in r
    {
      LookupOrderedAll(gameSessions, GameSessions.IdOf, nextSessionId);
      gameSessions
    }

    /** The first session with the given id, or None. */
    function GetGameSessionById(sessionId: int): (r: Option<GameSession>)
      reads this
      ensures r.Some? ==> r.value in gameSessions && r.value.sessionId == sessionId
      ensures forall i | 0 <= i < |gameSessions| && gameSessions[i].sessionId == sessionId ::
        (forall j :: 0 <= j < i ==> gameSessions[j].sessionId != sessionId) ==> r == Some(gameSessions[i])
      ensures r.None? <==> forall s :: s in gameSessions ==> s.sessionId != sessionId
    {
      Lookup(gameSessions, GameSessions.IdOf, sessionId)
    }

    /** Exactly the sessions recorded for `playerId`, in list order. */
    function GetGameSessionsByPlayerId(playerId: int): (r: seq<GameSession>)
      reads this
      ensures forall s :: s in r <==> s in gameSessions && s.playerId == playerId
      ensures |r| + |SessionsNotOf(gameSessions, playerId)| == |gameSessions|
    {
      SessionsPartition(gameSessions, playerId);
      SessionsOf(gameSessions, playerId)
    }

    /**
     * Applies an update callback to the session with the given id. The
     * session id is settable, so id order survives only a callback that
     * keeps the id.
     */
    method UpdateGameSession(sessionId: int, action: GameSession -> GameSession) returns (ok: bool)
      requires Valid()
      modifies this
      ensures Valid()
      ensures ok <==> old(GetGameSessionById(sessionId)).Some?
      ensures !ok ==> State() == old(State())
      ensures ok ==>
        var i := FindFirst(old(gameSessions), GameSessions.IdOf, sessionId).value;
        State() == old(State()).(gameSessions := old(gameSessions)[i := action(old(gameSessions)[i])])
      ensures ok && action(old(GetGameSessionById(sessionId)).value).sessionId == sessionId ==>
        GetGameSessionById(sessionId) == Some(action(old(GetGameSessionById(sessionId)).value)) &&
        (old(SessionIdsOrdered()) ==> SessionIdsOrdered())
    {
      var found := FindFirst(gameSessions, GameSessions.IdOf, sessionId);
      if found.None? {
        return false;
      }
      var i := found.value;
      var session := action(gameSessions[i]);
      gameSessions := gameSessions[i := session];
      ok := true;
      if session.sessionId == sessionId {
        LookupReplace(old(gameSessions), GameSessions.IdOf, i, session, sessionId);
        if old(SessionIdsOrdered()) {
          OrderedReplace(old(gameSessions), GameSessions.IdOf, nextSessionId, i, session);
        }
      }
    }

    /** Deletes the session with the given id; player statistics are not touched. */
    method DeleteGameSession(sessionId: int) returns (ok: bool)
      requires Valid()
      modifies this
      ensures Valid()
      ensures ok <==> old(GetGameSessionById(sessionId)).Some?
      ensures !ok ==> State() == old(State())
      ensures ok ==>
        var i := FindFirst(old(gameSessions), GameSessions.IdOf, sessionId).value;
        State() == old(State()).(gameSessions := RemoveAt(old(gameSessions), i))
      ensures forall q :: q != sessionId ==> GetGameSessionById(q) == old(GetGameSessionById(q))
      ensures old(SessionIdsOrdered()) ==> SessionIdsOrdered() && GetGameSessionById(sessionId).None?
      ensures GetTotalGameSessions() == old(GetTotalGameSessions()) - (if ok then 1 else 0)
    {
      var found := FindFirst(gameSessions, GameSessions.IdOf, sessionId);
      if found.None? {
        return false;
      }
      var i := found.value;
      gameSessions := RemoveAt(gameSessions, i);
      ok := true;
      forall q | q != sessionId ensures GetGameSessionById(q) == old(GetGameSessionById(q)) {
        LookupRemove(old(gameSessions), GameSessions.IdOf, i, q);
      }
      if old(SessionIdsOrdered()) {
        OrderedRemove(old(gameSessions), GameSessions.IdOf, nextSessionId, i);
        LookupRemoveOrdered(old(gameSessions), GameSessions.IdOf, nextSessionId, i);
      }
    }

    // -------------------------------------------------------------- obstacles

    /**
     * Adds an obstacle under the next obstacle id; the fields not given keep
     * their defaults (colour "Red", 10 points on dodge).
     */
    method CreateObstacle(name: string, obstacleType: string, speed: real, damage: int, size: int)
      returns (obstacle: Obstacle)
      requires Valid()
      modifies this
      ensures Valid()
      ensures obstacle == DefaultObstacle().(obstacleId := old(nextObstacleId), obstacleName := name,
                                             obstacleType := obstacleType, speed := speed,
                                             damagePoints := damage, size := size)
      ensures obstacle.color == "Red" && obstacle.pointsOnDodge == 10 && obstacle.isActive
      ensures State() == old(State()).(obstacles := old(obstacles) + [obstacle],
                                       nextObstacleId := old(nextObstacleId) + 1)
      ensures GetObstacleById(obstacle.obstacleId) == Some(obstacle)
      ensures GetTotalObstacles() == old(GetTotalObstacles()) + 1
    {
      obstacle := DefaultObstacle().(obstacleId := nextObstacleId, obstacleName := name,
                                     obstacleType := obstacleType, speed := speed,
                                     damagePoints := damage, size := size, isActive := true);
      nextObstacleId := nextObstacleId + 1;
      obstacles := obstacles + [obstacle];
      OrderedAppend(old(obstacles), Obstacles.IdOf, old(nextObstacleId), obstacle);
      LookupFresh(old(obstacles), Obstacles.IdOf, old(nextObstacleId));
      LookupAppend(old(obstacles), Obstacles.IdOf, obstacle, obstacle.obstacleId);
    }

    /** All stored obstacles: each is found again by its id, and every obstacle a lookup finds is listed. */
    function GetAllObstacles(): (r: seq<Obstacle>)
      reads this
      ensures forall i :: 0 <= i < |r| ==> GetObstacleById(r[i].obstacleId).Some?
      ensures Valid() ==> forall i :: 0 <= i < |r| ==> GetObstacleById(r[i].obstacleId) == Some(r[i])
      ensures Valid() ==> forall i, j :: 0 <= i < j < |r| ==> r[i].obstacleId < r[j].obstacleId
      ensures forall id :: GetObstacleById(id).Some? ==> GetObstacleById(id).value in r
    {
      LookupOrderedAll(obstacles, Obstacles.IdOf, nextObstacleId);
      obstacles
    }

    /** The first obstacle with the given id, or None. */
    function GetObstacleById(obstacleId: int): (r: Option<Obstacle>)
      reads this
      ensures r.Some? ==> r.value in obstacles && r.value.obstacleId == obstacleId
      ensures r.None? <==> forall o :: o in obstacles ==> o.obstacleId != obstacleId
    {
      Lookup(obstacles, Obstacles.IdOf, obstacleId)
    }

    /** Applies an update callback to the obstacle with the given id; the init-only id is kept. */
    method UpdateObstacle(obstacleId: int, action: Obstacle -> Obstacle) returns (ok: bool)
      requires Valid()
      modifies this
      ensures Valid()
      ensures ok <==> old(GetObstacleById(obstacleId)).Some?
      ensures !ok ==> State() == old(State())
      ensures ok ==>
        var i := FindFirst(old(obstacles), Obstacles.IdOf, obstacleId).value;
        State() == old(State()).(obstacles := old(obstacles)[i := Obstacles.ApplyUpdate(old(obstacles)[i], action)])
      ensures ok ==>
        GetObstacleById(obstacleId) == Some(Obstacles.ApplyUpdate(old(GetObstacleById(obstacleId)).value, action))
      ensures forall q :: q != obstacleId ==> GetObstacleById(q) == old(GetObstacleById(q))
    {
      var found := FindFirst(obstacles, Obstacles.IdOf, obstacleId);
      if found.None? {
        return false;
      }
      var i := found.value;
      var obstacle := Obstacles.ApplyUpdate(obstacles[i], action);
      obstacles := obstacles[i := obstacle];
      ok := true;
      OrderedReplace(old(obstacles), Obstacles.IdOf, nextObstacleId, i, obstacle);
      forall q ensures GetObstacleById(q) == if q == obstacleId then Some(obstacle) else old(GetObstacleById(q)) {
        LookupReplace(old(obstacles), Obstacles.IdOf, i, obstacle, q);
      }
    }

    /** Deletes the obstacle with the given id; nothing else refers to obstacles. */
    method DeleteObstacle(obstacleId: int) returns (ok: bool)
      requires Valid()
      modifies this
      ensures Valid()
      ensures ok <==> old(GetObstacleById(obstacleId)).Some?
      ensures !ok ==> State() == old(State())
      ensures ok ==>
        var i := FindFirst(old(obstacles), Obstacles.IdOf, obstacleId).value;
        State() == old(State()).(obstacles := RemoveAt(old(obstacles), i))
      ensures GetObstacleById(obstacleId).None?
      ensures forall q :: q != obstacleId ==> GetObstacleById(q) == old(GetObstacleById(q))
      ensures GetTotalObstacles() == old(GetTotalObstacles()) - (if ok then 1 else 0)
    {
      var found := FindFirst(obstacles, Obstacles.IdOf, obstacleId);
      if found.None? {
        return false;
      }
      var i := found.value;
      obstacles := RemoveAt(obstacles, i);
      ok := true;
      OrderedRemove(old(obstacles), Obstacles.IdOf, nextObstacleId, i);
      LookupRemoveOrdered(old(obstacles), Obstacles.IdOf, nextObstacleId, i);
      forall q | q != obstacleId ensures GetObstacleById(q) == old(GetObstacleById(q)) {
        LookupRemove(old(obstacles), Obstacles.IdOf, i, q);
      }
    }

    // --------------------------------------------------------------- power-ups

    /**
     * Adds a power-up under the next power-up id; the fields not given keep
     * their defaults (spawn rate 0.1, rarity "Common").
     */
    method CreatePowerUp(name: string, powerUpType: string, effect: string, duration: int, pointsValue: int)
      returns (powerUp: PowerUp)
      requires Valid()
      modifies this
      ensures Valid()
      ensures powerUp == DefaultPowerUp().(powerUpId := old(nextPowerUpId), powerUpName := name,
                                           powerUpType := powerUpType, effect := effect,
                                           durationSeconds := duration, pointsValue := pointsValue)
      ensures powerUp.spawnRate == 0.1 && powerUp.rarity == "Common" && powerUp.isCollectible
      ensures State() == old(State()).(powerUps := old(powerUps) + [powerUp],
                                       nextPowerUpId := old(nextPowerUpId) + 1)
      ensures old(PowerUpIdsOrdered()) ==>
        PowerUpIdsOrdered() && GetPowerUpById(powerUp.powerUpId) == Some(powerUp)
      ensures GetTotalPowerUps() == old(GetTotalPowerUps()) + 1
    {
      powerUp := DefaultPowerUp().(powerUpId := nextPowerUpId, powerUpName := name,
                                   powerUpType := powerUpType, effect := effect,
                                   durationSeconds := duration, pointsValue := pointsValue,
                                   isCollectible := true);
      nextPowerUpId := nextPowerUpId + 1;
      powerUps := powerUps + [powerUp];
      if old(PowerUpIdsOrdered()) {
        OrderedAppend(old(powerUps), PowerUps.IdOf, old(nextPowerUpId), powerUp);
        LookupFresh(old(powerUps), PowerUps.IdOf, old(nextPowerUpId));
        LookupAppend(old(powerUps), PowerUps.IdOf, powerUp, powerUp.powerUpId);
      }
    }

    /** All stored power-ups: each is found again by its id, and every power-up a lookup finds is listed. */
    function GetAllPowerUps(): (r: seq<PowerUp>)
      reads this
      ensures forall i :: 0 <= i < |r| ==> GetPowerUpById(r[i].powerUpId).Some?
      ensures PowerUpIdsOrdered() ==>
        forall i :: 0 <= i < |r| ==> GetPowerUpById(r[i].powerUpId) == Some(r[i])
      ensures PowerUpIdsOrdered() ==> forall i, j :: 0 <= i < j < |r| ==> r[i].powerUpId < r[j].powerUpId
      ensures forall id :: GetPowerUpById(id).Some? ==> GetPowerUpById(id).value in r
    {
      LookupOrderedAll(powerUps, PowerUps.IdOf, nextPowerUpId);
      powerUps
    }

    /** The first power-up with the given id, or None. */
    function GetPowerUpById(powerUpId: int): (r: Option<PowerUp>)
      reads this
      ensures r.Some? ==> r.value in powerUps && r.value.powerUpId == powerUpId
      ensures forall i | 0 <= i < |powerUps| && powerUps[i].powerUpId == powerUpId ::
        (forall j :: 0 <= j < i ==> powerUps[j].powerUpId != powerUpId) ==> r == Some(powerUps[i])
      ensures r.None? <==> forall p :: p in powerUps ==> p.powerUpId != powerUpId
    {
      Lookup(powerUps, PowerUps.IdOf, powerUpId)
    }

    /**
     * Applies an update callback to the power-up with the given id. The
     * power-up id is settable, so id order survives only a callback that
     * keeps the id.
     */
    method UpdatePowerUp(powerUpId: int, action: PowerUp -> PowerUp) returns (ok: bool)
      requires Valid()
      modifies this
      ensures Valid()
      ensures ok <==> old(GetPowerUpById(powerUpId)).Some?
      ensures !ok ==> State() == old(State())
      ensures ok ==>
        var i := FindFirst(old(powerUps), PowerUps.IdOf, powerUpId).value;
        State() == old(State()).(powerUps := old(powerUps)[i := action(old(powerUps)[i])])
      ensures ok && action(old(GetPowerUpById(powerUpId)).value).powerUpId == powerUpId ==>
        GetPowerUpById(powerUpId) == Some(action(old(GetPowerUpById(powerUpId)).value)) &&
        (old(PowerUpIdsOrdered()) ==> PowerUpIdsOrdered())
    {
      var found := FindFirst(powerUps, PowerUps.IdOf, powerUpId);
      if found.None? {
        return false;
      }
      var i := found.value;
      var powerUp := action(powerUps[i]);
      powerUps := powerUps[i := powerUp];
      ok := true;
      if powerUp.powerUpId == powerUpId {
        LookupReplace(old(powerUps), PowerUps.IdOf, i, powerUp, powerUpId);
        if old(PowerUpIdsOrdered()) {
          OrderedReplace(old(powerUps), PowerUps.IdOf, nextPowerUpId, i, powerUp);
        }
      }
    }

    /** Deletes the power-up with the given id; nothing else refers to power-ups. */
    method DeletePowerUp(powerUpId: int) returns (ok: bool)
      requires Valid()
      modifies this
      ensures Valid()
      ensures ok <==> old(GetPowerUpById(powerUpId)).Some?
      ensures !ok ==> State() == old(State())
      ensures ok ==>
        var i := FindFirst(old(powerUps), PowerUps.IdOf, powerUpId).value;
        State() == old(State()).(powerUps := RemoveAt(old(powerUps), i))
      ensures forall q :: q != powerUpId ==> GetPowerUpById(q) == old(GetPowerUpById(q))
      ensures old(PowerUpIdsOrdered()) ==> PowerUpIdsOrdered() && GetPowerUpById(powerUpId).None?
      ensures GetTotalPowerUps() == old(GetTotalPowerUps()) - (if ok then 1 else 0)
    {
      var found := FindFirst(powerUps, PowerUps.IdOf, powerUpId);
      if found.None? {
        return false;
      }
      var i := found.value;
      powerUps := RemoveAt(powerUps, i);
      ok := true;
      forall q | q != powerUpId ensures GetPowerUpById(q) == old(GetPowerUpById(q)) {
        LookupRemove(old(powerUps), PowerUps.IdOf, i, q);
      }
      if old(PowerUpIdsOrdered()) {
        OrderedRemove(old(powerUps), PowerUps.IdOf, nextPowerUpId, i);
        LookupRemoveOrdered(old(powerUps), PowerUps.IdOf, nextPowerUpId, i);
      }
    }

    // ------------------------------------------------------------- statistics

    /** How many players are stored; in a valid store never more than the ids issued so far. */
    function GetTotalPlayers(): (n: nat)
      reads this
      ensures n == |GetAllPlayers()|
      ensures Valid() ==> n < nextPlayerId
    {
      OrderedLength(players, Players.IdOf, nextPlayerId);
      |players|
    }

    /**
     * How many sessions are stored: for any player, that player's sessions
     * plus everyone else's; with ordered ids never more than the ids issued.
     */
    function GetTotalGameSessions(): (n: nat)
      reads this
      ensures n == |GetAllGameSessions()|
      ensures forall q :: n == |GetGameSessionsByPlayerId(q)| + |SessionsNotOf(gameSessions, q)|
      ensures SessionIdsOrdered() && nextSessionId >= 1 ==> n < nextSessionId
    {
      OrderedLength(gameSessions, GameSessions.IdOf, nextSessionId);
      |gameSessions|
    }

    /** How many obstacles are stored; in a valid store never more than the ids issued so far. */
    function GetTotalObstacles(): (n: nat)
      reads this
      ensures n == |GetAllObstacles()|
      ensures Valid() ==> n < nextObstacleId
    {
      OrderedLength(obstacles, Obstacles.IdOf, nextObstacleId);
      |obstacles|
    }

    /** How many power-ups are stored; with ordered ids never more than the ids issued so far. */
    function GetTotalPowerUps(): (n: nat)
      reads this
      ensures n == |GetAllPowerUps()|
      ensures PowerUpIdsOrdered() && nextPowerUpId >= 1 ==> n < nextPowerUpId
    {
      OrderedLength(powerUps, PowerUps.IdOf, nextPowerUpId);
      |powerUps|
    }

    /** Empties every list and restarts every id counter at 1. */
    method ClearAllData()
      modifies this
      ensures Valid() && SessionIdsOrdered() && PowerUpIdsOrdered()
      ensures State() == EmptyStore
      ensures GetTotalPlayers() == 0 && GetTotalGameSessions() == 0
      ensures GetTotalObstacles() == 0 && GetTotalPowerUps() == 0
    {
      players := [];
      gameSessions := [];
      obstacles := [];
      powerUps := [];
      nextPlayerId := 1;
      nextSessionId := 1;
      nextObstacleId := 1;
      nextPowerUpId := 1;
    }
  }
}
