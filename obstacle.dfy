/** A kind of falling obstacle in the game's catalogue. */
module Obstacles {

  /**
   * `obstacleId` is init-only: no update can change it (see `ApplyUpdate`).
   * `speed` is a floating-point number in the source; the service does no
   * arithmetic on it, so a real stands for it here.
   */
  datatype Obstacle = Obstacle(
    obstacleId: int,
    obstacleName: string,
    obstacleType: string,
    speed: real,
    damagePoints: int,
    size: int,
    color: string,
    pointsOnDodge: int,
    isActive: bool)

  /** The id an obstacle is looked up by. */
  function IdOf(o: Obstacle): int { o.obstacleId }

  /** An obstacle as the parameterless constructor builds it. */
  function DefaultObstacle(): (o: Obstacle)
    ensures o.obstacleId == 0 && o.obstacleName == "" && o.obstacleType == "Meteor"
    ensures o.speed == 2.0 && o.damagePoints == 100 && o.size == 20
    ensures o.color == "Red" && o.pointsOnDodge == 10 && o.isActive
  {
    Obstacle(0, "", "Meteor", 2.0, 100, 20, "Red", 10, true)
  }

  /**
   * The effect of an update callback on a stored obstacle: every field but
   * the init-only id takes the callback's value.
   */
  function ApplyUpdate(o: Obstacle, action: Obstacle -> Obstacle): (r: Obstacle)
    ensures r.obstacleId == o.obstacleId
    ensures r.obstacleName == action(o).obstacleName && r.obstacleType == action(o).obstacleType
    ensures r.speed == action(o).speed && r.damagePoints == action(o).damagePoints
    ensures r.size == action(o).size && r.color == action(o).color
    ensures r.pointsOnDodge == action(o).pointsOnDodge && r.isActive == action(o).isActive
    ensures r == action(o) <==> action(o).obstacleId == o.obstacleId
  {
    action(o).(obstacleId := o.obstacleId)
  }
}
