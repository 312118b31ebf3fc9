/**
 * The server's periodic tick (server/src/game.c): integrate the ball,
 * bounce it off the board walls, send it to every active client, and relay
 * every active client's paddle to the other active clients.
 *
 * Floats are modelled as reals (no rounding). The bit pattern a float has
 * on the wire is supplied by the caller as `bits`; the clock is the `now`
 * argument; every `sendto` becomes an element of the returned list.
 */
module Game {
  import opened Ints
  import opened Config
  import opened Protocol

  /** A `Position` as the server computes with it. */
  datatype RealPosition = RealPosition(x: real, y: real, dx: real, dy: real)

  /** A `struct timespec` from `CLOCK_MONOTONIC`. */
  datatype Timespec = Timespec(sec: int, nsec: int)

  /** One `sendto`: the index of the client whose address it goes to, and the bytes. */
  datatype Send = Send(dest: nat, payload: seq<u8>)

  /** `time_delta`: seconds between two clock readings. */
  function Elapsed(from: Timespec, to: Timespec): real
  {
    (to.sec - from.sec) as real + (to.nsec - from.nsec) as real / 1_000_000_000.0
  }

  /** The wire form of a position, each float replaced by its bit pattern. */
  function ToWire(p: RealPosition, bits: real -> Float32): Position
  {
    Position(bits(p.x), bits(p.y), bits(p.dx), bits(p.dy))
  }

  // ---------------------------------------------------------------------
  // Ball motion

  /** The ball after moving with its velocity for `dt` seconds. */
  function Integrate(b: RealPosition, dt: real): RealPosition
  {
    b.(x := b.x + b.dx * dt, y := b.y + b.dy * dt)
  }

  /** Whether a coordinate lies past the low or the high wall of an axis of length `size`. */
  predicate HitsWall(c: real, size: int)
  {
    c - BALL_RADIUS <= 0.0 || c + BALL_RADIUS > size as real
  }

  /** The side-wall test: clamp x into the board and reverse dx. */
  function BounceX(b: RealPosition): RealPosition
  {
    if b.x - BALL_RADIUS <= 0.0 then b.(x := BALL_RADIUS, dx := b.dx * -1.0)
    else if b.x + BALL_RADIUS > COLS as real then b.(x := COLS as real - BALL_RADIUS, dx := b.dx * -1.0)
    else b
  }

  /** The top/bottom-wall test: clamp y into the board and reverse dy. */
  function BounceY(b: RealPosition): RealPosition
  {
    if b.y - BALL_RADIUS <= 0.0 then b.(y := BALL_RADIUS, dy := b.dy * -1.0)
    else if b.y + BALL_RADIUS > ROWS as real then b.(y := ROWS as real - BALL_RADIUS, dy := b.dy * -1.0)
    else b
  }

  /**
   * The ball after one tick of `dt` seconds. Whatever it started from, it ends
   * inside the board shrunk by its radius, i.e. x in [2, 198] and y in [2, 48].
   */
  function BallStep(b: RealPosition, dt: real): (r: RealPosition)
    ensures BALL_RADIUS <= r.x <= COLS as real - BALL_RADIUS
    ensures BALL_RADIUS <= r.y <= ROWS as real - BALL_RADIUS
  {
    BounceY(BounceX(Integrate(b, dt)))
  }

  /**
   * dx is negated exactly when the moved ball touched a side wall, and x is
   * then clamped to the wall it touched (the low wall is tested first); otherwise x and dx are the moved values. The
   * same holds for y and dy. So |dx| and |dy| never change.
   */
  lemma BallStepReflects(b: RealPosition, dt: real)
    ensures var m := Integrate(b, dt); var r := BallStep(b, dt);
      && (HitsWall(m.x, COLS) ==> r.dx == -b.dx)
      && (m.x - BALL_RADIUS <= 0.0 ==> r.x == BALL_RADIUS)
      && (m.x - BALL_RADIUS > 0.0 && m.x + BALL_RADIUS > COLS as real ==> r.x == COLS as real - BALL_RADIUS)
      && (!HitsWall(m.x, COLS) ==> r.dx == b.dx && r.x == m.x)
      && (HitsWall(m.y, ROWS) ==> r.dy == -b.dy)
      && (m.y - BALL_RADIUS <= 0.0 ==> r.y == BALL_RADIUS)
      && (m.y - BALL_RADIUS > 0.0 && m.y + BALL_RADIUS > ROWS as real ==> r.y == ROWS as real - BALL_RADIUS)
      && (!HitsWall(m.y, ROWS) ==> r.dy == b.dy && r.y == m.y)
  {
  }

  /** Away from the walls the ball simply moves: position plus velocity times time. */
  lemma BallStepFree(b: RealPosition, dt: real)
    requires !HitsWall(b.x + b.dx * dt, COLS) && !HitsWall(b.y + b.dy * dt, ROWS)
    ensures BallStep(b, dt) == RealPosition(b.x + b.dx * dt, b.y + b.dy * dt, b.dx, b.dy)
  {
  }

  // ---------------------------------------------------------------------
  // Fan-out

  /** The client table and the paddle table have one entry per client slot. */
  predicate Tables(clients: seq<Client>, positions: seq<RealPosition>)
  {
    |clients| == MAX_CLIENTS && |positions| == MAX_CLIENTS
  }

  /** The 20 bytes announcing the ball: id 0 and the ball's position. */
  function BallPayload(ball: RealPosition, bits: real -> Float32): seq<u8>
  {
    EncodePositionMessage(PositionMessage(0, ToWire(ball, bits)))
  }

  /** The 20 bytes announcing the paddle of client slot `j`: id j + 1 and its position. */
  function PlayerPayload(positions: seq<RealPosition>, bits: real -> Float32, j: nat): seq<u8>
    requires j < |positions| == MAX_CLIENTS
  {
    EncodePositionMessage(PositionMessage((j + 1) as u32, ToWire(positions[j], bits)))
  }

  /** The ball sends made while scanning slots `0 .. n`. */
  function BallSends(clients: seq<Client>, n: nat, payload: seq<u8>): seq<Send>
    requires n <= |clients|
  {
    if n == 0 then []
    else BallSends(clients, n - 1, payload)
         + (if clients[n - 1].active then [Send(n - 1, payload)] else [])
  }

  /** The paddles sent to slot `i` while scanning slots `0 .. m`: every active one but its own. */
  function RelaySends(clients: seq<Client>, positions: seq<RealPosition>, bits: real -> Float32, i: nat, m: nat): seq<Send>
    requires Tables(clients, positions) && m <= |clients|
  {
    if m == 0 then []
    else RelaySends(clients, positions, bits, i, m - 1)
         + (if m - 1 != i && clients[m - 1].active then [Send(i, PlayerPayload(positions, bits, m - 1))] else [])
  }

  /** The paddle sends made while scanning receiving slots `0 .. n`. */
  function PlayerSends(clients: seq<Client>, positions: seq<RealPosition>, bits: real -> Float32, n: nat): seq<Send>
    requires Tables(clients, positions) && n <= |clients|
  {
    if n == 0 then []
    else PlayerSends(clients, positions, bits, n - 1)
         + (if clients[n - 1].active then RelaySends(clients, positions, bits, n - 1, |clients|) else [])
  }

  /** The ball goes, with the given payload, to every active client and to no inactive one. */
  lemma {:induction false} BallSendsReachActive(clients: seq<Client>, n: nat, payload: seq<u8>, s: Send)
    requires n <= |clients|
    ensures s in BallSends(clients, n, payload) <==> s.dest < n && clients[s.dest].active && s.payload == payload
  {
    if n > 0 {
      BallSendsReachActive(clients, n - 1, payload, s);
    }
  }

  /** Each client receives the ball at most once: destinations strictly increase. */
  lemma {:induction false} BallSendsOnce(clients: seq<Client>, n: nat, payload: seq<u8>)
    requires n <= |clients|
    ensures forall a, b :: 0 <= a < b < |BallSends(clients, n, payload)| ==>
      BallSends(clients, n, payload)[a].dest < BallSends(clients, n, payload)[b].dest
    ensures forall a :: 0 <= a < |BallSends(clients, n, payload)| ==> BallSends(clients, n, payload)[a].dest < n
  {
    if n > 0 {
      BallSendsOnce(clients, n - 1, payload);
    }
  }

  /** `s` relays to an active client the paddle of a different active client. */
  predicate IsRelay(clients: seq<Client>, positions: seq<RealPosition>, bits: real -> Float32, s: Send)
    requires Tables(clients, positions)
  {
    && s.dest < |clients| && clients[s.dest].active
    && |s.payload| == POSITION_MESSAGE_SIZE
    && var j := DecodePositionMessage(s.payload).id as int - 1;
       && 0 <= j < |clients| && j != s.dest && clients[j].active
       && s.payload == PlayerPayload(positions, bits, j)
  }

  /** The id carried by slot `j`'s paddle message is j + 1. */
  lemma PlayerPayloadId(positions: seq<RealPosition>, bits: real -> Float32, j: nat)
    requires j < |positions| == MAX_CLIENTS
    ensures DecodePositionMessage(PlayerPayload(positions, bits, j)).id as int == j + 1
  {
    DecodeEncodePositionMessage(PositionMessage((j + 1) as u32, ToWire(positions[j], bits)));
  }

  /** The paddle of another active slot m - 1, sent to active slot i, is a relay carrying id m. */
  lemma RelayOfActivePair(clients: seq<Client>, positions: seq<RealPosition>, bits: real -> Float32, i: nat, m: nat)
    requires Tables(clients, positions) && 0 < m <= |clients| && i < |clients| && clients[i].active
    requires m - 1 != i && clients[m - 1].active
    ensures IsRelay(clients, positions, bits, Send(i, PlayerPayload(positions, bits, m - 1)))
    ensures DecodePositionMessage(PlayerPayload(positions, bits, m - 1)).id as int == m
  {
    PlayerPayloadId(positions, bits, m - 1);
  }

  /** A relay to i carrying id m is slot m - 1's paddle message, and slot m - 1 is another active client. */
  lemma RelayIdentifiesSlot(clients: seq<Client>, positions: seq<RealPosition>, bits: real -> Float32, i: nat, m: nat, s: Send)
    requires Tables(clients, positions) && 0 < m <= |clients| && i < |clients| && clients[i].active
    requires s.dest == i && IsRelay(clients, positions, bits, s) && DecodePositionMessage(s.payload).id as int == m
    ensures m - 1 != i && clients[m - 1].active && s == Send(i, PlayerPayload(positions, bits, m - 1))
  {
  }

  /** The one send slot `m - 1` may add for receiver `i` is the relay whose id is m. */
  lemma RelayStep(clients: seq<Client>, positions: seq<RealPosition>, bits: real -> Float32, i: nat, m: nat, s: Send)
    requires Tables(clients, positions) && 0 < m <= |clients| && i < |clients| && clients[i].active
    ensures s in (if m - 1 != i && clients[m - 1].active then [Send(i, PlayerPayload(positions, bits, m - 1))] else [])
        <==> s.dest == i && IsRelay(clients, positions, bits, s) && DecodePositionMessage(s.payload).id as int == m
  {
    if m - 1 != i && clients[m - 1].active {
      RelayOfActivePair(clients, positions, bits, i, m);
    }
    if s.dest == i && IsRelay(clients, positions, bits, s) && DecodePositionMessage(s.payload).id as int == m {
      RelayIdentifiesSlot(clients, positions, bits, i, m, s);
    }
  }

  /** For an active receiver i, the inner scan up to slot m sends exactly the relays to i whose id is at most m. */
  lemma {:induction false} RelaySendsSpec(clients: seq<Client>, positions: seq<RealPosition>, bits: real -> Float32,
                                          i: nat, m: nat, s: Send)
    requires Tables(clients, positions) && m <= |clients| && i < |clients| && clients[i].active
    ensures s in RelaySends(clients, positions, bits, i, m) <==>
      s.dest == i && IsRelay(clients, positions, bits, s) && DecodePositionMessage(s.payload).id as int <= m
  {
    if m > 0 {
      var prev := RelaySends(clients, positions, bits, i, m - 1);
      var tail := if m - 1 != i && clients[m - 1].active then [Send(i, PlayerPayload(positions, bits, m - 1))] else [];
      assert RelaySends(clients, positions, bits, i, m) == prev + tail;
      RelaySendsSpec(clients, positions, bits, i, m - 1, s);
      RelayStep(clients, positions, bits, i, m, s);
    }
  }

  /**
   * The paddle sends are exactly the relays: a client receives a message with
   * id j + 1 carrying `player_positions[j]` for every other active slot j,
   * only when it is active itself, and never its own position.
   */
  lemma {:induction false} PlayerSendsSpec(clients: seq<Client>, positions: seq<RealPosition>, bits: real -> Float32,
                                           n: nat, s: Send)
    requires Tables(clients, positions) && n <= |clients|
    ensures s in PlayerSends(clients, positions, bits, n) <==> s.dest < n && IsRelay(clients, positions, bits, s)
  {
    if n > 0 {
      PlayerSendsSpec(clients, positions, bits, n - 1, s);
      if clients[n - 1].active {
        RelaySendsSpec(clients, positions, bits, n - 1, |clients|, s);
        if s.dest == n - 1 && IsRelay(clients, positions, bits, s) {
          PlayerPayloadId(positions, bits, DecodePositionMessage(s.payload).id as int - 1);
        }
      }
    }
  }

  /** Every pair of distinct active slots gets its relay: i receives j's paddle. */
  lemma PlayerSendsComplete(clients: seq<Client>, positions: seq<RealPosition>, bits: real -> Float32, i: nat, j: nat)
    requires Tables(clients, positions) && i < |clients| && j < |clients| && i != j
    requires clients[i].active && clients[j].active
    ensures Send(i, PlayerPayload(positions, bits, j)) in PlayerSends(clients, positions, bits, |clients|)
  {
    PlayerPayloadId(positions, bits, j);
    PlayerSendsSpec(clients, positions, bits, |clients|, Send(i, PlayerPayload(positions, bits, j)));
  }

  /** The id a 20-byte paddle message carries. */
  function RelayId(s: Send): int
    requires |s.payload| == POSITION_MESSAGE_SIZE
  {
    DecodePositionMessage(s.payload).id as int
  }

  /** Within one destination, relays are ordered by strictly increasing id. */
  predicate IdBelow(a: Send, b: Send)
  {
    && |a.payload| == POSITION_MESSAGE_SIZE && |b.payload| == POSITION_MESSAGE_SIZE
    && RelayId(a) < RelayId(b)
  }

  /** The paddle sends follow one another by destination, then by id. */
  predicate Precedes(a: Send, b: Send)
  {
    a.dest < b.dest || (a.dest == b.dest && IdBelow(a, b))
  }

  /** The inner scan for receiver `i` sends to `i` only, with ids in 1 .. m, strictly increasing. */
  lemma {:induction false} RelaySendsOrdered(clients: seq<Client>, positions: seq<RealPosition>, bits: real -> Float32,
                                             i: nat, m: nat)
    requires Tables(clients, positions) && m <= |clients|
    ensures forall a :: 0 <= a < |RelaySends(clients, positions, bits, i, m)| ==>
      && RelaySends(clients, positions, bits, i, m)[a].dest == i
      && |RelaySends(clients, positions, bits, i, m)[a].payload| == POSITION_MESSAGE_SIZE
      && 1 <= RelayId(RelaySends(clients, positions, bits, i, m)[a]) <= m
    ensures forall a, b :: 0 <= a < b < |RelaySends(clients, positions, bits, i, m)| ==>
      IdBelow(RelaySends(clients, positions, bits, i, m)[a], RelaySends(clients, positions, bits, i, m)[b])
  {
    if m > 0 {
      RelaySendsOrdered(clients, positions, bits, i, m - 1);
      PlayerPayloadId(positions, bits, m - 1);
    }
  }

  /**
   * The paddle sends are ordered by destination and, within a destination,
   * by strictly increasing id, so no relay is sent twice.
   */
  lemma {:induction false} PlayerSendsOnce(clients: seq<Client>, positions: seq<RealPosition>, bits: real -> Float32, n: nat)
    requires Tables(clients, positions) && n <= |clients|
    ensures forall a :: 0 <= a < |PlayerSends(clients, positions, bits, n)| ==> PlayerSends(clients, positions, bits, n)[a].dest < n
    ensures forall a, b :: 0 <= a < b < |PlayerSends(clients, positions, bits, n)| ==>
      Precedes(PlayerSends(clients, positions, bits, n)[a], PlayerSends(clients, positions, bits, n)[b])
    ensures forall a, b :: 0 <= a < b < |PlayerSends(clients, positions, bits, n)| ==>
      PlayerSends(clients, positions, bits, n)[a] != PlayerSends(clients, positions, bits, n)[b]
  {
    if n > 0 {
      PlayerSendsOnce(clients, positions, bits, n - 1);
      RelaySendsOrdered(clients, positions, bits, n - 1, |clients|);
      var prev := PlayerSends(clients, positions, bits, n - 1);
      var tail := if clients[n - 1].active then RelaySends(clients, positions, bits, n - 1, |clients|) else [];
      var all := PlayerSends(clients, positions, bits, n);
      assert all == prev + tail;
      forall a, b | 0 <= a < b < |all|
        ensures Precedes(all[a], all[b])
      {
        if b < |prev| {
          assert all[a] == prev[a] && all[b] == prev[b];
        } else if a < |prev| {
          assert all[a] == prev[a] && all[b] == tail[b - |prev|];
        } else {
          assert all[a] == tail[a - |prev|] && all[b] == tail[b - |prev|];
        }
      }
    }
  }

  /** The first loop of `tick`: serialize the ball once and send it to every active slot. */
  method SendBall(clients: seq<Client>, ball: RealPosition, bits: real -> Float32) returns (sends: seq<Send>)
    requires |clients| == MAX_CLIENTS
    ensures sends == BallSends(clients, |clients|, BallPayload(ball, bits))
  {
    var msg := PositionMessage(0, ToWire(ball, bits));
    var messageBuffer := new u8[POSITION_MESSAGE_SIZE];
    SerializePositionMessage(msg, messageBuffer);
    var payload := messageBuffer[..];
    assert payload == BallPayload(ball, bits);

    sends := [];
    for i := 0 to MAX_CLIENTS
      invariant sends == BallSends(clients, i, payload)
    {
      if !clients[i].active {
        continue;
      }
      sends := sends + [Send(i, payload)];
    }
  }

  /**
   * The nested loops of `tick`: for every active slot i (the loop's
   * `broadcaster`, to whose address the message goes) and every other active
   * slot j, the paddle of j under id j + 1.
   */
  method RelayPlayers(clients: seq<Client>, playerPositions: seq<RealPosition>, bits: real -> Float32)
    returns (sends: seq<Send>)
    requires Tables(clients, playerPositions)
    ensures sends == PlayerSends(clients, playerPositions, bits, |clients|)
  {
    sends := [];
    for i := 0 to MAX_CLIENTS
      invariant sends == PlayerSends(clients, playerPositions, bits, i)
    {
      if !clients[i].active {
        continue;
      }
      for j := 0 to MAX_CLIENTS
        invariant sends == PlayerSends(clients, playerPositions, bits, i)
                           + RelaySends(clients, playerPositions, bits, i, j)
      {
        if j == i {
          continue;
        }
        if !clients[j].active {
          continue;
        }
        var playerMsg := PositionMessage((j + 1) as u32, ToWire(playerPositions[j], bits));
        var playerMessageBuffer := new u8[POSITION_MESSAGE_SIZE];
        SerializePositionMessage(playerMsg, playerMessageBuffer);
        assert playerMessageBuffer[..] == PlayerPayload(playerPositions, bits, j);
        sends := sends + [Send(i, playerMessageBuffer[..])];
      }
    }
  }

  /** The state the tick timer hands to `tick` (`TickState`). */
  class TickState {
    /** `*ball_position`. */
    var ball: RealPosition
    /** `player_positions[0 .. MAX_CLIENTS)`. */
    var playerPositions: seq<RealPosition>
    var latestTick: Timespec
    /** `clients[0 .. MAX_CLIENTS)`. */
    var clients: seq<Client>
    var gameActive: bool
    var scheduledStart: int
    var leftScore: u8
    var rightScore: u8

    /**
     * The tables `tick` scans have one entry per client slot. The server sets
     * `TickState` up before arming the timer; that set-up is not part of this
     * model, so `Valid` is what `tick` may rely on when it is called.
     */
    ghost predicate Valid()
      reads this
    {
      Tables(clients, playerPositions)
    }

    /**
     * `tick`: move and bounce the ball over the time since the last tick,
     * send it to every active client, relay the paddles, and remember `now`.
     * The paddle table, the client table, the scores and the schedule are
     * left as they were.
     */
    method Tick(now: Timespec, bits: real -> Float32) returns (sends: seq<Send>)
      requires Valid()
      modifies this`ball, this`latestTick
      ensures Valid()
      ensures ball == BallStep(old(ball), Elapsed(old(latestTick), now))
      ensures latestTick == now
      ensures sends == BallSends(clients, |clients|, BallPayload(ball, bits))
                       + PlayerSends(clients, playerPositions, bits, |clients|)
    {
      var timeDelta := Elapsed(latestTick, now);

      ball := ball.(x := ball.x + ball.dx * timeDelta);
      ball := ball.(y := ball.y + ball.dy * timeDelta);
      assert ball == Integrate(old(ball), timeDelta);

      if ball.x - BALL_RADIUS <= 0.0 {
        ball := ball.(x := BALL_RADIUS, dx := ball.dx * -1.0);
      } else if ball.x + BALL_RADIUS > COLS as real {
        ball := ball.(x := COLS as real - BALL_RADIUS, dx := ball.dx * -1.0);
      }
      assert ball == BounceX(Integrate(old(ball), timeDelta));
      if ball.y - BALL_RADIUS <= 0.0 {
        ball := ball.(y := BALL_RADIUS, dy := ball.dy * -1.0);
      } else if ball.y + BALL_RADIUS > ROWS as real {
        ball := ball.(y := ROWS as real - BALL_RADIUS, dy := ball.dy * -1.0);
      }
      assert ball == BallStep(old(ball), timeDelta);

      var ballSends := SendBall(clients, ball, bits);
      var playerSends := RelayPlayers(clients, playerPositions, bits);
      sends := ballSends + playerSends;

      latestTick := now;
    }
  }
}
