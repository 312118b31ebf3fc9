/**
 * The client's message types (game_client/src/network/models.rs). Floats
 * (`f32`) are modelled as reals.
 */
module ClientModels {
  import opened Ints

  datatype Option<T> = None | Some(value: T)

  /** `Position`: location and velocity. */
  datatype Position = Position(x: real, y: real, dx: real, dy: real)

  /** `PositionMessage`: what the client publishes about itself. */
  datatype PositionMessage = PositionMessage(id: u32, position: Position)

  /**
   * A decoded snapshot as `listen` reads it. models.rs does not define
   * `GameStateMessage`; this carries exactly the fields `listen` uses:
   * the scores, the active flag, the countdown and the positions, slot 0
   * being the ball and slot k the player whose id is k.
   */
  datatype GameStateMessage = GameStateMessage(
    leftScore: u8,
    rightScore: u8,
    gameActive: bool,
    secondsToStart: i32,
    positions: seq<Position>)
}
