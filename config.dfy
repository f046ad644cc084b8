/** Screen, car, obstacle and spawn settings of the racing game, in pixels and frames. */
module Config {
  const WIDTH: int := 800
  const HEIGHT: int := 600

  const CAR_WIDTH: int := 50
  const CAR_HEIGHT: int := 100
  /** Horizontal pixels the car moves per frame while an arrow key is held. */
  const CAR_SPEED: int := 5
  /** Top-left corner of the car at the start of every session. */
  const CAR_START_X: int := WIDTH / 2 - CAR_WIDTH / 2
  const CAR_START_Y: int := HEIGHT - CAR_HEIGHT - 10

  const OBSTACLE_WIDTH: int := 50
  const OBSTACLE_HEIGHT: int := 100
  /** Vertical pixels every obstacle moves down per frame. */
  const OBSTACLE_SPEED: int := 5

  /** An obstacle is spawned once the frame counter exceeds this value. */
  const SPAWN_THRESHOLD: int := 20
  /** Frames between two spawns: the counter runs through 1..SPAWN_THRESHOLD+1. */
  const SPAWN_PERIOD: int := SPAWN_THRESHOLD + 1
}
