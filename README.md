# Terminal Pong: wire codec, server tick and client state in Dafny

This project models the sequential core of a two-player terminal Pong game.

- A C server keeps the authoritative ball. On every timer tick it moves and bounces the ball, sends it to every connected client, and relays each client's paddle to the other clients.
- The messages use fixed, packed, big-endian layouts. Floats travel as their 32-bit patterns.
- A Rust client predicts its own paddle from key presses and publishes its position every frame.
- The client applies the server's snapshots: the ball, a reconciled self position, the opponent, the scores and the game phase.

The model has these modules:

| file | module | models |
|---|---|---|
| `wire.dfy` | `Ints`, `Wire` | fixed-width integers; `htonl`/`ntohl` plus a 4-byte `memcpy` into and out of a buffer; `memcpy` of a body |
| `config.dfy` | `Config` | `COLS`, `ROWS`, `BALL_RADIUS`, `MAX_CLIENTS` of `server/src/config.h` |
| `protocol.dfy` | `Protocol` | the packed layouts of `server/src/protocol.h` and the serializers of `server/src/protocol.c`, as methods on a caller's `array<u8>` |
| `game.dfy` | `Game` | `tick` of `server/src/game.c`, as a method of the class `TickState`; each `sendto` becomes an element of the returned list |
| `models.dfy` | `ClientModels` | the client's `Position` and `PositionMessage`, and the snapshot `listen` reads |
| `app.dfy` | `App` | the client's `App` of `game_client/src/main.rs`: constructor, tick, key handling, exit |
| `udp_client.dfy` | `UdpClient`, `UdpListener` | `send_position`, and one turn of the `listen` loop of `game_client/src/network/udp_client.rs` |

Each serializer is specified by a pure encoding function, for example `Protocol.EncodePositionMessage`. The method writing the buffer is proved to produce exactly those bytes and to leave the rest of the buffer alone. Round trips and byte offsets are proved about the functions.

The server tick is specified the same way:

- `Game.BallStep` gives the new ball.
- `Game.BallSends` and `Game.PlayerSends` give the sends.
- Lemmas characterise who receives what.

The client's snapshot application is specified by `UdpListener.Reconcile`, `UdpListener.PlayerAfter` and `UdpListener.OpponentAfter`. The client tick is specified by `App.TickPhase`, `App.StillHeld` and `App.MovePaddle`.

Inputs from outside the program are parameters:

- Clocks are integers. The client uses milliseconds; the server uses a `Timespec`.
- The bit pattern of a float is a function `bits: real -> Float32`.
- Whether a socket send succeeded is a boolean.
- The bincode decoder is a function returning an `Option`.

Floats are modelled as reals.

Where the source files disagree with each other, each file is modelled as written:

- `serialize_game_state_message` reads `start_time` (server/src/protocol.c:78). The `GameStateMessage` of server/src/protocol.h:37-44 has no such field. The model passes it as the extra argument `startTime`.
- The server's tick sends 20-byte `PositionMessage`s (server/src/game.c:42-44). The client's `listen` decodes each datagram as a `GameStateMessage` (game_client/src/network/udp_client.rs:59).
- game_client/src/network/models.rs defines neither `GameStateMessage` nor `TcpRequest`. `ClientModels.GameStateMessage` holds just the fields `listen` reads.
- game_client/src/network/models.rs derives neither `Serialize` nor `Clone` for `Position`, yet `send_position` clones a position and serializes it. The model encodes `PositionMessage` in field order, as bincode's fixed-int big-endian configuration does.

Two behaviours of the code differ from what one might expect of the design:

- A datagram that does not decode ends the listener through `expect`. It is not skipped.
- A snapshot copies `game_active` unconditionally, so a snapshot can turn an active game back to inactive.

## Model

| member | source | states |
|---|---|---|
| Ints.TruncateToU32 | server/src/protocol.c:78 | the `(uint32_t)` cast keeps the value modulo 2^32 and is the identity on 0 .. 2^32-1 |
| Ints.AsInt32 | server/src/protocol.c:86 | the `(int)` cast of a `uint32_t` keeps the word modulo 2^32 and is negative exactly for words of 2^31 and above |
| Wire.DecodeEncodeU32 | server/src/protocol.c:24-27 | `ntohl` of the bytes `htonl` wrote gives the word back |
| Wire.EncodeDecodeU32 | server/src/protocol.c:10-12 | every 4 bytes are the network-order encoding of the word they decode to |
| Wire.WriteU32 | server/src/protocol.c:11-12 | the 4 big-endian bytes of the word land at `offset`; every byte before and after is unchanged |
| Wire.ReadU32 | server/src/protocol.c:25-27 | the word read is the big-endian value of the 4 bytes at `offset`, and re-encoding it gives those bytes |
| Wire.CopyBytes | server/src/protocol.c:65 | `memcpy` places the source bytes at `offset` and changes nothing else |
| Protocol.EncodeWords | server/src/protocol.c:16-21 | a run of n words takes 4n bytes |
| Protocol.EncodeWordsAt | server/src/protocol.c:16-21 | word k of a run is at bytes 4k .. 4k+4 |
| Protocol.EncodePosition | server/src/protocol.h:19-24 | a packed `Position` is 16 bytes |
| Protocol.PositionLayout | server/src/protocol.h:19-24 | a position's bytes are x, y, dx, dy in that order, each big-endian |
| Protocol.EncodePositionMessage | server/src/protocol.h:29-32 | a packed `PositionMessage` is 20 bytes |
| Protocol.PositionMessageLayout | server/src/protocol.c:10-22 | the id is at bytes 0-3, and x, y, dx and dy are at offsets 4, 8, 12 and 16; 20 bytes in all |
| Protocol.DecodeEncodePositionMessage | server/src/protocol.c:10-54 | deserializing a serialized position message gives the same message, floats compared by bit pattern |
| Protocol.EncodeDecodePositionMessage | server/src/protocol.c:10-54 | serializing the message decoded from any 20 bytes gives those bytes back |
| Protocol.EncodePositions | server/src/protocol.c:86-100 | n positions take 16n bytes |
| Protocol.EncodePositionsAt | server/src/protocol.c:86-100 | position k is at bytes 16k .. 16k+16, so positions are written in index order |
| Protocol.SlotsSerialized | server/src/protocol.c:86 | the loop `i < (int)num_positions` visits num_positions slots below 2^31 and none from 2^31 on |
| Protocol.GameStateHeader | server/src/protocol.c:75-86 | a game state is 8 + 16·num_positions bytes for counts up to 3, including 0, and only the 8-byte header for counts of 2^31 or more; it begins with the start time modulo 2^32 and then the count as given |
| Protocol.GameStateLayout | server/src/protocol.c:86-100 | slot k of a game state is at offset 8 + 16k for every slot k the loop visits |
| Protocol.EncodeTcpMessage | server/src/protocol.c:59-66 | a TCP message is 260 bytes, and bytes 4-259 are the body verbatim |
| Protocol.DecodeTcpMessage | server/src/protocol.c:69-73 | only the opcode is read, from bytes 0-3; the output's body is whatever it held before |
| Protocol.DecodeEncodeTcpMessage | server/src/protocol.c:59-73 | deserializing a serialized TCP message recovers its opcode and leaves the output body untouched |
| Protocol.EncodeTcpResponse | server/src/protocol.h:60-63 | a packed `TcpResponse` is 260 bytes |
| Protocol.TcpResponseRoundTrip | server/src/protocol.c:103-109 | a response survives its layout, with the status code in bytes 0-3 and the body in 4-259; every 260 bytes are some response's layout |
| Protocol.WritePosition | server/src/protocol.c:16-21 | the field loop writes exactly the 16 bytes of the position at `offset` and nothing else |
| Protocol.SerializePositionMessage | server/src/protocol.c:10-22 | the buffer's first 20 bytes become the message's encoding; later bytes are unchanged |
| Protocol.DeserializePositionMessage | server/src/protocol.c:24-54 | the message read is the decoding of the first 20 bytes, and it re-encodes to exactly them |
| Protocol.SerializeTcpMessage | server/src/protocol.c:59-66 | the first 260 bytes become the opcode big-endian and the body; the one-byte `memset` leaves no trace |
| Protocol.DeserializeTcpMessage | server/src/protocol.c:69-73 | the result is the prior message with only the opcode replaced by the one in bytes 0-3 |
| Protocol.SerializeGameStateMessage | server/src/protocol.c:75-101 | whenever the loop stays inside the 3-slot array (num_positions ≤ 3, or 2^31 or more, which the `(int)` cast makes negative), the header and the visited slots become the game-state encoding and nothing else changes |
| Protocol.WritePositions | server/src/protocol.c:86-100 | the position loop writes the positions' encodings back to back from `offset` and nothing else |
| Protocol.SerializeTcpResponse | server/src/protocol.c:103-109 | the first 260 bytes become the status code big-endian and the body; later bytes are unchanged |
| Game.BallStep | server/src/game.c:17-33 | after a tick the ball's x lies in [2, 198] and its y in [2, 48], whatever it started from |
| Game.BallStepReflects | server/src/game.c:20-33 | dx is negated exactly when the moved x touched a side wall; x is then BALL_RADIUS at the low wall and COLS − BALL_RADIUS at the high wall (the low wall is tested first); otherwise x and dx are the moved values; the same holds for y and dy with ROWS |
| Game.BallStepFree | server/src/game.c:17-18 | with no wall contact, the new position is the old plus velocity times the elapsed time |
| Game.BallSendsReachActive | server/src/game.c:46-64 | a ball send goes to a slot exactly when that slot is active, with the given payload |
| Game.BallSendsOnce | server/src/game.c:46-64 | ball destinations strictly increase, so each client gets the ball at most once |
| Game.PlayerPayloadId | server/src/game.c:80-85 | the paddle message for slot j decodes to id j + 1 |
| Game.RelayOfActivePair | server/src/game.c:73-85 | slot m-1's paddle message sent to active slot i is a relay with id m, when slot m-1 is another active client |
| Game.RelayIdentifiesSlot | server/src/game.c:73-85 | a relay to i with id m is exactly slot m-1's paddle message, and slot m-1 is then another active client |
| Game.RelayStep | server/src/game.c:73-85 | scanning slot m-1 for receiver i adds exactly the relay whose id is m, when that slot is another active client |
| Game.RelaySendsSpec | server/src/game.c:73-99 | for an active receiver, the inner loop up to m sends exactly the relays to it with id ≤ m |
| Game.PlayerSendsSpec | server/src/game.c:67-100 | the fan-out is exactly the set of relays: an active client receives paddle j (id j + 1, `player_positions[j]`) for another active j, and never its own |
| Game.RelaySendsOrdered | server/src/game.c:73-99 | the inner loop for receiver i sends only to i, with ids in 1 .. m, in strictly increasing order |
| Game.PlayerSendsOnce | server/src/game.c:67-100 | the fan-out is ordered by destination and then by strictly increasing id, so no relay is sent twice |
| Game.PlayerSendsComplete | server/src/game.c:67-100 | every ordered pair of distinct active slots (i, j) gets the message with j's paddle sent to i |
| Game.SendBall | server/src/game.c:37-64 | the ball loop's sends are the id-0 message with the ball's position, to each active slot in order |
| Game.RelayPlayers | server/src/game.c:66-100 | the nested loops' sends are the paddle fan-out |
| Game.TickState.Tick | server/src/game.c:7-104 | the ball moves by `BallStep` over the time since `latest_tick`; the sends are the ball sends then the relays; `latest_tick` becomes `now`; the paddle and client tables are left alone |
| UdpClient.SendPosition | game_client/src/network/udp_client.rs:33-46 | the datagram is 20 bytes, and the server's deserializer reads from it the player's id and the bit patterns of its x, y, dx and dy |
| UdpListener.Reconcile | game_client/src/network/udp_client.rs:81-88 | within the threshold on both axes the prediction is kept; beyond it on either axis, x and y are the snapshot's; velocity is never taken |
| UdpListener.ReconcileConverges | game_client/src/network/udp_client.rs:81-88 | after reconciling, the self position is within the threshold, and reconciling again changes nothing |
| UdpListener.ScoresFor | game_client/src/network/udp_client.rs:68-74 | player 1 gets (left, right) as (player, opponent) scores, and any other id gets them swapped |
| UdpListener.LastOpponentSlot | game_client/src/network/udp_client.rs:89-92 | the slot the opponent ends with is the last one that is neither 0 nor the player's id; none exists exactly when no such slot is present |
| UdpListener.SnapshotKeepsPaddleVelocity | game_client/src/network/udp_client.rs:75-93 | a snapshot never writes dx or dy of the player or of the opponent |
| UdpListener.ApplySnapshot | game_client/src/network/udp_client.rs:61-93 | ping is the receive time minus the last send, `last_udp_recv` is set, the active flag and the countdown are copied, scores are mapped by id, and the ball, player and opponent are as the slot rules give; nothing else changes |
| UdpListener.ApplyPositions | game_client/src/network/udp_client.rs:75-93 | slot 0 overwrites the ball, the self slot is reconciled, and the last other slot gives the opponent's x and y |
| UdpListener.HandleDatagram | game_client/src/network/udp_client.rs:52-96 | a receive error leaves `App` untouched and the loop goes on; an undecodable datagram panics without touching `App`; a decoded one sets ping, receive time, active flag, countdown, scores, ball, player and opponent as `ApplySnapshot` does, and changes no other field |
| App.DurationSince | game_client/src/main.rs:185 | `duration_since` is the difference of the two instants, or zero when the earlier one is later |
| App.StartPositions | game_client/src/main.rs:78-99 | id 1 starts at (10, 25) with the opponent at (190, 25); any other id has the places swapped |
| App.Decimal | game_client/src/main.rs:172 | the countdown is written as decimal digits, with no leading zero |
| App.DecimalRoundTrip | game_client/src/main.rs:172 | the digits of the status text denote exactly `seconds_to_start` |
| App.TickPhase | game_client/src/main.rs:170-182 | an active game stays active; otherwise a positive countdown is shown; otherwise the tick waits iff nothing has been received, and the game starts iff something has |
| App.DebounceWindow | game_client/src/main.rs:184-190 | a held key survives exactly while at most 350 ms have passed since it was last seen |
| App.ClampRow | game_client/src/main.rs:199-203 | the paddle's y ends in [0, 50], is unchanged if already there, and sticks to the edge it passed |
| App.MovePaddle | game_client/src/main.rs:192-203 | 's' lowers y by speed·dt and 'w' raises it by speed·dt, and the result is clamped to [0, 50] |
| App.App.constructor | game_client/src/main.rs:76-130 | the paddles are at their start places; the ball is at (100, 25) moving at (5, 5); scores are 0; no key is held; the game is inactive; nothing has been received; the status is "Waiting on players..." |
| App.App.Tick | game_client/src/main.rs:163-206 | the position is always published; a failed send is an error with `App` unchanged; otherwise `last_udp_send` is stamped; countdown and waiting ticks only set the status text; an active tick drops stale keys and moves only the paddle's y |
| App.App.MovePlayer | game_client/src/main.rs:184-203 | stale key flags are cleared, and the paddle's y moves and is clamped; x never changes |
| App.App.HandleEvent | game_client/src/main.rs:308-316 | only key presses have an effect, and the result is always `Ok` |
| App.App.HandleKeyEvent | game_client/src/main.rs:318-332 | 'q' sets `exit`; a 'w' or 's' press sets that flag and stamps the time; any other key changes nothing |
| App.App.Exit | game_client/src/main.rs:334-336 | `exit` is set and nothing else changes |

## Left out

- server/src/server.c (the `select`/`accept`/`recvfrom` loop that accepts TCP connections, logs UDP packets and rebroadcasts TCP bytes) is not part of this model. It is socket I/O, and its local `PositionMessage` conflicts with server/src/protocol.h.
- game_client/src/network/tcp_client.rs and server/send_udp.py are not part of this model. They wrap sockets or form a command-line helper.
- Rendering, the `run` loop and `main` in game_client/src/main.rs are not part of this model. They are drawing, `tokio::select!` concurrency and process setup. The shared `Mutex` is not modelled, and each method runs as if it held the lock.
- The bincode decoder is an abstract function returning an `Option`. Its byte format is not modelled.
- IEEE-754 arithmetic is modelled as real arithmetic: no rounding, NaN, infinity or overflow. The conversion of a float to its bit pattern is an opaque parameter.
- Clocks are parameters. A client `Instant` is an integer number of milliseconds; sub-millisecond durations and `as_secs_f64` rounding are not modelled.
- Socket sends are a returned list on the server and a returned datagram plus a success flag on the client. `sendto` failures and the `perror`/`printf` logging on the server are not modelled.
- Protocol.SerializeGameStateMessage: a num_positions from 4 to 2^31 - 1 makes the C loop read past the 3-slot `positions` array; the model requires the loop to stay inside the array and does not model that read.
- UdpListener.HandleDatagram: models one turn of the endless `listen` loop; the loop itself and the 1024-byte receive buffer are not modelled.
- UdpListener.ApplyPositions: compares the slot index with the player id as unbounded integers; the `i as u32` truncation in the source cannot matter for fewer than 2^32 slots.
- App.App.Tick: covers the body of `tick` only; the `?` that ends `run` on an error is left to the caller.
- Game.TickState.Tick: the fields of `TickState` that `tick` does not read (game state, scores, schedule) are kept as plain fields with no behaviour.
