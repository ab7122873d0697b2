/** A registered player and the aggregate statistics the service keeps for them. */
module Players {
  import opened Time

  /**
   * `playerId` and `dateRegistered` are init-only in the source: they are
   * fixed when the player is built and no later update can change them
   * (see `ApplyUpdate`). Every other field is settable.
   */
  datatype Player = Player(
    playerId: int,
    playerName: string,
    totalGamesPlayed: int,
    highestScore: int,
    totalScore: int,
    dateRegistered: DateTime,
    lastPlayed: DateTime,
    rank: string)
  {
    /** Mean score per game, guarded against a player with no games. */
    function AverageScore(): (avg: real)
      ensures totalGamesPlayed <= 0 ==> avg == 0.0
      ensures totalGamesPlayed > 0 ==> avg * totalGamesPlayed as real == totalScore as real
    {
      if totalGamesPlayed > 0 then totalScore as real / totalGamesPlayed as real else 0.0
    }
  }

  /** The id a player is looked up by. */
  function IdOf(p: Player): int { p.playerId }

  /** A player as the parameterless constructor builds it, at time `now`. */
  function DefaultPlayer(now: DateTime): (p: Player)
    ensures p.playerId == 0 && p.playerName == ""
    ensures p.totalGamesPlayed == 0 && p.highestScore == 0 && p.totalScore == 0
    ensures p.dateRegistered == now && p.lastPlayed == now
    ensures p.rank == "Beginner"
    ensures p.AverageScore() == 0.0
  {
    Player(0, "", 0, 0, 0, now, now, "Beginner")
  }

  /**
   * The effect of an update callback on a stored player: the callback may
   * set any settable field, but the init-only fields keep their values.
   */
  function ApplyUpdate(p: Player, action: Player -> Player): (r: Player)
    ensures r.playerId == p.playerId && r.dateRegistered == p.dateRegistered
    ensures r.playerName == action(p).playerName && r.rank == action(p).rank
    ensures r.totalGamesPlayed == action(p).totalGamesPlayed
    ensures r.highestScore == action(p).highestScore && r.totalScore == action(p).totalScore
    ensures r.lastPlayed == action(p).lastPlayed
    ensures r == action(p) <==> action(p).playerId == p.playerId && action(p).dateRegistered == p.dateRegistered
  {
    action(p).(playerId := p.playerId, dateRegistered := p.dateRegistered)
  }
}
