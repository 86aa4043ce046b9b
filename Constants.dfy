/** The game's configuration constants, with the values the game ships with.
    Float constants are exact reals here; colours are names. */
module Constants {

  datatype Color = Red | Purple | Blue | White | LightGray

  const STARTING_LIVES: int := 4

  const GAME_OVER_SCORE_DECREMENT: int := 500
  const BLOCK_DESTROY_SCORE_INCREASE: int := 100
  const BLOCK_HIT_SCORE_INCREASE: int := 50
  const BALL_DIE_SCORE_DECREASE: int := 100

  const TARGET_GAME_TIME: real := 400.0
  const TIME_SCORE_BONUS_FACTOR: real := 1000.0
  const REMAINING_LIVES_BONUS: real := 200.0
  const EASY_WIN_BONUS: real := 500.0
  const MEDIUM_WIN_BONUS: real := 1000.0
  const HARD_WIN_BONUS: real := 2000.0

  const BLOCK_AREA_SCREEN_RATIO: real := 0.4
  const BLOCK_SPAWN_RATE_EASY: real := 25.0
  const BLOCK_SPAWN_RATE_MEDIUM: real := 20.0
  const BLOCK_SPAWN_RATE_HARD: real := 15.0

  const MAX_BLOCK_HEALTH: int := 3
  const BLOCK_WIDTH: real := 64.0
  const BLOCK_HEIGHT: real := 25.0
  /** Block colour by health: BLOCK_HEALTH_COLORS[health - 1] */
  const BLOCK_HEALTH_COLORS: seq<Color> := [Red, Purple, Blue]

  const BALL_RADIUS: real := 9.0
  const BALL_SPEED_EASY: real := 180.0
  const BALL_SPEED_MEDIUM: real := 210.0
  const BALL_SPEED_HARD: real := 240.0

  const PADDLE_SPEED: real := 150.0
  const PADDLE_WIDTH: real := 80.0
  const PADDLE_HEIGHT: real := 15.0
  const PADDLE_TRAJECTORY_ORIGIN_DEPTH: real := 20.0
}
