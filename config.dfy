/** The server's compile-time configuration (server/src/config.h). */
module Config {
  /** Board width in character columns. */
  const COLS: int := 200
  /** Board height in character rows. */
  const ROWS: int := 50
  /** Ball radius, `2.0f`. */
  const BALL_RADIUS: real := 2.0
  /** Number of client slots in the server's client table. */
  const MAX_CLIENTS: nat := 2
}
