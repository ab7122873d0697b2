/** One finished round of the game, as the service records it. */
module GameSessions {
  import opened Time

  /**
   * Every field is settable, `sessionId` included. `playerName` is a copy
   * taken when the session is recorded and is not kept in step with later
   * renames of the player.
   */
  datatype GameSession = GameSession(
    sessionId: int,
    playerId: int,
    playerName: string,
    score: int,
    level: int,
    sessionDate: DateTime,
    duration: TimeSpan,
    obstaclesDodged: int,
    powerUpsCollected: int,
    newHighScore: bool,
    difficulty: string)
  {
    /** Points per minute of play; 0 for a session whose duration is not positive. */
    function ScorePerMinute(): (spm: real)
      ensures duration.TotalMinutes() <= 0.0 ==> spm == 0.0
      ensures duration.TotalMinutes() > 0.0 ==> spm * duration.TotalMinutes() == score as real
    {
      if duration.TotalMinutes() > 0.0 then score as real / duration.TotalMinutes() else 0.0
    }
  }

  /** The id a session is looked up by. */
  function IdOf(s: GameSession): int { s.sessionId }

  /** A session as the parameterless constructor builds it, at time `now`. */
  function DefaultSession(now: DateTime): (s: GameSession)
    ensures s.sessionId == 0 && s.playerId == 0 && s.playerName == ""
    ensures s.score == 0 && s.level == 1 && s.sessionDate == now
    ensures s.duration == Zero && s.obstaclesDodged == 0 && s.powerUpsCollected == 0
    ensures !s.newHighScore && s.difficulty == "Normal"
    ensures s.ScorePerMinute() == 0.0
  {
    GameSession(0, 0, "", 0, 1, now, Zero, 0, 0, false, "Normal")
  }
}
