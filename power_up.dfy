/** A kind of collectible power-up in the game's catalogue. */
module PowerUps {

  /**
   * Every field is settable, `powerUpId` included. `spawnRate` is a
   * floating-point number in the source; the service does no arithmetic on
   * it, so a real stands for it here.
   */
  datatype PowerUp = PowerUp(
    powerUpId: int,
    powerUpName: string,
    powerUpType: string,
    durationSeconds: int,
    pointsValue: int,
    effect: string,
    spawnRate: real,
    rarity: string,
    isCollectible: bool)

  /** The id a power-up is looked up by. */
  function IdOf(p: PowerUp): int { p.powerUpId }

  /** A power-up as the parameterless constructor builds it. */
  function DefaultPowerUp(): (p: PowerUp)
    ensures p.powerUpId == 0 && p.powerUpName == "" && p.powerUpType == "Bonus"
    ensures p.durationSeconds == 5 && p.pointsValue == 100
    ensures p.effect == "Score Boost" && p.spawnRate == 0.1 && p.rarity == "Common"
    ensures p.isCollectible
  {
    PowerUp(0, "", "Bonus", 5, 100, "Score Boost", 0.1, "Common", true)
  }
}
