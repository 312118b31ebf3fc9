/**
 * The publishing half of the client's UDP channel
 * (`UdpClient::send_position`, game_client/src/network/udp_client.rs).
 */
module UdpClient {
  import opened Ints
  import opened Wire
  import opened ClientModels
  import Protocol

  /** The message `send_position` builds: the player's id and a copy of its position. */
  function PositionMessageFor(position: Position, playerId: u32): PositionMessage
  {
    PositionMessage(playerId, position)
  }

  /**
   * bincode's encoding under `standard().with_big_endian().with_fixed_int_encoding()`:
   * the fields in declaration order, each at its full width, big-endian; an
   * `f32` is written as its bit pattern, which `bits` supplies.
   */
  function EncodePositionMessage(m: PositionMessage, bits: real -> Float32): seq<u8>
  {
    EncodeU32(m.id) + EncodeU32(bits(m.position.x)) + EncodeU32(bits(m.position.y))
      + EncodeU32(bits(m.position.dx)) + EncodeU32(bits(m.position.dy))
  }

  /**
   * The datagram `send_position` hands to the socket. It is 20 bytes, and the
   * server's `deserialize_position_message` reads back the player's id and
   * the bit patterns of its x, y, dx and dy.
   */
  function SendPosition(position: Position, playerId: u32, bits: real -> Float32): (datagram: seq<u8>)
    ensures |datagram| == Protocol.POSITION_MESSAGE_SIZE
    ensures Protocol.DecodePositionMessage(datagram)
         == Protocol.PositionMessage(playerId, Protocol.Position(bits(position.x), bits(position.y), bits(position.dx), bits(position.dy)))
  {
    var wire := Protocol.PositionMessage(playerId, Protocol.Position(bits(position.x), bits(position.y), bits(position.dx), bits(position.dy)));
    var datagram := EncodePositionMessage(PositionMessageFor(position, playerId), bits);
    Protocol.PositionLayout(wire.position);
    assert datagram == Protocol.EncodePositionMessage(wire);
    Protocol.DecodeEncodePositionMessage(wire);
    datagram
  }
}

/**
 * The receiving half of the client's UDP channel: one iteration of the loop
 * in `UdpClient::listen`, which applies a decoded snapshot to the shared
 * `App` (game_client/src/network/udp_client.rs). It is a module of its own
 * because it needs `App`, which itself uses `UdpClient.SendPosition`.
 */
module UdpListener {
  import opened Ints
  import opened ClientModels
  import opened App

  /** What one `recv_from` yields: the bytes of a datagram, or an error. */
  datatype Received = Datagram(bytes: seq<u8>) | RecvError

  /** Whether the loop goes on after a datagram, or the listener panics in `expect`. */
  datatype Step = Continue | Panic

  function Abs(x: real): (r: real)
    ensures r >= 0.0 && (r == x || r == -x)
  {
    if x < 0.0 then -x else x
  }

  /** Whether the predicted self position is within the threshold of the authoritative one on both axes. */
  predicate WithinThreshold(predicted: Position, authority: Position)
  {
    Abs(predicted.x - authority.x) <= RECONCILE_THRESHOLD && Abs(predicted.y - authority.y) <= RECONCILE_THRESHOLD
  }

  /**
   * The self slot's reconciliation: keep the prediction while both axes are
   * within the threshold, otherwise take the snapshot's x and y. Velocity is
   * never taken from the snapshot.
   */
  function Reconcile(predicted: Position, authority: Position): (r: Position)
    ensures r.dx == predicted.dx && r.dy == predicted.dy
    ensures WithinThreshold(predicted, authority) ==> r == predicted
    ensures !WithinThreshold(predicted, authority) ==> r.x == authority.x && r.y == authority.y
  {
    var dx := Abs(predicted.x - authority.x);
    var dy := Abs(predicted.y - authority.y);
    if dx > RECONCILE_THRESHOLD || dy > RECONCILE_THRESHOLD then
      predicted.(x := authority.x, y := authority.y)
    else
      predicted
  }

  /** After reconciling, the self position is within the threshold of the authoritative one. */
  lemma ReconcileConverges(predicted: Position, authority: Position)
    ensures WithinThreshold(Reconcile(predicted, authority), authority)
    ensures Reconcile(Reconcile(predicted, authority), authority) == Reconcile(predicted, authority)
  {
  }

  /** (player score, opponent score): player 1 plays on the left, every other id on the right. */
  function ScoresFor(playerId: u32, left: u8, right: u8): (scores: (u8, u8))
    ensures playerId == 1 ==> scores == (left, right)
    ensures playerId != 1 ==> scores == (right, left)
  {
    if playerId == 1 then (left, right) else (right, left)
  }

  /** Slot `i` of a snapshot is written to the opponent: it is neither the ball nor the player. */
  predicate OpponentSlot(i: int, playerId: u32)
  {
    i != 0 && i != playerId as int
  }

  /**
   * The last opponent slot below `n`, which is the one whose x and y the
   * opponent ends with.
   */
  function LastOpponentSlot(positions: seq<Position>, playerId: u32, n: nat): (k: Option<nat>)
    requires n <= |positions|
    ensures k.Some? ==> k.value < n && OpponentSlot(k.value, playerId)
    ensures k.Some? ==> forall i :: k.value < i < n ==> !OpponentSlot(i, playerId)
    ensures k.None? ==> forall i :: 0 <= i < n ==> !OpponentSlot(i, playerId)
  {
    if n <= 1 then None
    else if n - 1 != playerId as int then Some(n - 1)
    else LastOpponentSlot(positions, playerId, n - 1)
  }

  /** The opponent after the slots `0 .. n` have been applied to `opponent`. */
  function OpponentAfter(opponent: Position, positions: seq<Position>, playerId: u32, n: nat): Position
    requires n <= |positions|
  {
    match LastOpponentSlot(positions, playerId, n)
    case None => opponent
    case Some(k) => opponent.(x := positions[k].x, y := positions[k].y)
  }

  /** The player after the slots `0 .. n` have been applied to `player`. */
  function PlayerAfter(player: Position, positions: seq<Position>, playerId: u32, n: nat): Position
    requires n <= |positions|
  {
    if 1 <= playerId as int < n then Reconcile(player, positions[playerId]) else player
  }

  /** A snapshot writes only x and y of either paddle: both keep their velocity. */
  lemma SnapshotKeepsPaddleVelocity(player: Position, opponent: Position, positions: seq<Position>, playerId: u32)
    ensures PlayerAfter(player, positions, playerId, |positions|).dx == player.dx
    ensures PlayerAfter(player, positions, playerId, |positions|).dy == player.dy
    ensures OpponentAfter(opponent, positions, playerId, |positions|).dx == opponent.dx
    ensures OpponentAfter(opponent, positions, playerId, |positions|).dy == opponent.dy
  {
  }

  /**
   * The body of `listen` after the lock is taken: latency, receive time,
   * lifecycle fields and scores are written unconditionally, then each slot
   * in order: slot 0 is the ball, the slot equal to the player's id is
   * reconciled, and any other slot overwrites the opponent's x and y.
   */
  method ApplySnapshot(app: App, gameStateMessage: GameStateMessage, now: Instant)
    modifies app
    ensures app.pingMs == DurationSince(now, old(app.lastUdpSend)) as real
    ensures app.lastUdpRecv == Some(now)
    ensures app.gameActive == gameStateMessage.gameActive
    ensures app.secondsToStart == gameStateMessage.secondsToStart
    ensures (app.playerScore, app.opponentScore)
         == ScoresFor(app.playerId, gameStateMessage.leftScore, gameStateMessage.rightScore)
    ensures app.ball == if |gameStateMessage.positions| > 0 then gameStateMessage.positions[0] else old(app.ball)
    ensures app.player == PlayerAfter(old(app.player), gameStateMessage.positions, app.playerId, |gameStateMessage.positions|)
    ensures app.opponent == OpponentAfter(old(app.opponent), gameStateMessage.positions, app.playerId, |gameStateMessage.positions|)
    ensures unchanged(app`playerId, app`ballDx, app`ballDy, app`wPressed, app`wLastSeen, app`sPressed,
                      app`sLastSeen, app`exit, app`lastUdpSend, app`statusMsg)
  {
    app.pingMs := DurationSince(now, app.lastUdpSend) as real;
    app.lastUdpRecv := Some(now);

    app.gameActive := gameStateMessage.gameActive;
    app.secondsToStart := gameStateMessage.secondsToStart;
    if app.playerId == 1 {
      app.playerScore := gameStateMessage.leftScore;
      app.opponentScore := gameStateMessage.rightScore;
    } else {
      app.playerScore := gameStateMessage.rightScore;
      app.opponentScore := gameStateMessage.leftScore;
    }
    ApplyPositions(app, gameStateMessage.positions);
  }

  /**
   * The slot loop of `listen`: slot 0 overwrites the ball, the slot equal
   * to the player's id is reconciled, and any other slot overwrites the
   * opponent's x and y.
   */
  method ApplyPositions(app: App, positions: seq<Position>)
    modifies app`ball, app`player, app`opponent
    ensures app.ball == if |positions| > 0 then positions[0] else old(app.ball)
    ensures app.player == PlayerAfter(old(app.player), positions, app.playerId, |positions|)
    ensures app.opponent == OpponentAfter(old(app.opponent), positions, app.playerId, |positions|)
  {
    for i := 0 to |positions|
      invariant app.ball == if i > 0 then positions[0] else old(app.ball)
      invariant app.player == PlayerAfter(old(app.player), positions, app.playerId, i)
      invariant app.opponent == OpponentAfter(old(app.opponent), positions, app.playerId, i)
    {
      var position := positions[i];
      if i == 0 {
        app.ball := app.ball.(x := position.x);
        app.ball := app.ball.(y := position.y);
        app.ball := app.ball.(dx := position.dx);
        app.ball := app.ball.(dy := position.dy);
      } else if i == app.playerId as int {
        var dx := Abs(app.player.x - position.x);
        var dy := Abs(app.player.y - position.y);
        if dx > RECONCILE_THRESHOLD || dy > RECONCILE_THRESHOLD {
          app.player := app.player.(x := position.x);
          app.player := app.player.(y := position.y);
        }
      } else {
        app.opponent := app.opponent.(x := position.x);
        app.opponent := app.opponent.(y := position.y);
      }
    }
  }

  /**
   * One turn of the `listen` loop. A receive error is logged and the loop
   * goes on with `App` untouched; a datagram that does not decode panics in
   * `expect` before the lock is taken; a decoded one is applied.
   * `decode` stands for bincode's decoding of a `GameStateMessage`, although
   * the server's tick sends 20-byte `PositionMessage`s (server/src/game.c:42-44).
   */
  method HandleDatagram(app: App, received: Received, decode: seq<u8> -> Option<GameStateMessage>, now: Instant)
    returns (step: Step)
    modifies app
    ensures step == Panic <==> received.Datagram? && decode(received.bytes).None?
    ensures step == Panic || received.RecvError? ==> unchanged(app)
    ensures received.Datagram? && decode(received.bytes).Some? ==>
      && app.lastUdpRecv == Some(now)
      && app.pingMs == DurationSince(now, old(app.lastUdpSend)) as real
      && app.gameActive == decode(received.bytes).value.gameActive
      && app.secondsToStart == decode(received.bytes).value.secondsToStart
      && (app.playerScore, app.opponentScore)
         == ScoresFor(app.playerId, decode(received.bytes).value.leftScore, decode(received.bytes).value.rightScore)
      && app.player == PlayerAfter(old(app.player), decode(received.bytes).value.positions, app.playerId,
                                   |decode(received.bytes).value.positions|)
      && app.opponent == OpponentAfter(old(app.opponent), decode(received.bytes).value.positions, app.playerId,
                                       |decode(received.bytes).value.positions|)
      && app.ball == (if |decode(received.bytes).value.positions| > 0 then decode(received.bytes).value.positions[0]
                      else old(app.ball))
      && unchanged(app`playerId, app`ballDx, app`ballDy, app`wPressed, app`wLastSeen, app`sPressed,
                   app`sLastSeen, app`exit, app`lastUdpSend, app`statusMsg)
  {
    match received {
      case RecvError =>
        step := Continue;
      case Datagram(bytes) =>
        var decoded := decode(bytes);
        if decoded.None? {
          step := Panic;
          return;
        }
        ApplySnapshot(app, decoded.value, now);
        step := Continue;
    }
  }
}
