/**
 * The client's game state and its update rules (game_client/src/main.rs):
 * start positions, the waiting / countdown / active gate of the tick, the
 * key debounce and the paddle movement. Clock readings are integer
 * milliseconds passed in by the caller; `f32` and `f64` values are reals.
 */
module App {
  import opened Ints
  import opened ClientModels
  import UdpClient

  const COLS: int := 200
  const ROWS: int := 50
  const PLAYER_MOVE_SPEED: real := 5.0
  /** Milliseconds after the last press at which a key counts as released. */
  const ANTI_ALIASING_TIMEOUT: int := 350
  /** Largest drift, per axis, for which the predicted self position is kept. */
  const RECONCILE_THRESHOLD: real := 5.0

  const WAITING_MESSAGE: string := "Waiting on players..."

  /** An `Instant`, in milliseconds. */
  type Instant = int

  /** `Instant::duration_since`, which gives zero when `earlier` is in fact later. */
  function DurationSince(now: Instant, earlier: Instant): (d: nat)
    ensures now >= earlier ==> d == now - earlier
    ensures now < earlier ==> d == 0
  {
    if now >= earlier then now - earlier else 0
  }

  /** The crossterm events `handle_event` can be given, as far as it distinguishes them. */
  datatype KeyCode = Char(c: char) | OtherKey
  datatype KeyEventKind = Press | Repeat | Release
  datatype KeyEvent = KeyEvent(code: KeyCode, kind: KeyEventKind)
  datatype Event = Key(keyEvent: KeyEvent) | OtherEvent

  /** `anyhow::Result<()>`. */
  datatype Outcome = Ok | Err

  /** The left and right start places of a paddle, at mid-height. */
  const LEFT_POSITION: Position := Position(10.0, ROWS as real / 2.0, 0.0, 0.0)
  const RIGHT_POSITION: Position := Position(COLS as real - 10.0, ROWS as real / 2.0, 0.0, 0.0)

  /**
   * (player, opponent) at start: player 1 takes the left place at (10, 25)
   * and the opponent the right place at (190, 25); any other id swaps them.
   */
  function StartPositions(playerId: u32): (places: (Position, Position))
    ensures places.0 != places.1
    ensures places.0.y == places.1.y == 25.0
    ensures playerId == 1 ==> places.0.x == 10.0 && places.1.x == 190.0
    ensures playerId != 1 ==> places.0.x == 190.0 && places.1.x == 10.0
  {
    if playerId == 1 then (LEFT_POSITION, RIGHT_POSITION) else (RIGHT_POSITION, LEFT_POSITION)
  }

  // ---------------------------------------------------------------------
  // The countdown text

  function DigitChar(d: nat): (c: char)
    requires d < 10
    ensures '0' <= c <= '9'
    ensures (c - '0') as int == d
  {
    ('0' as int + d) as char
  }

  /** `n` in decimal, as `format!("{}", n)` writes a non-negative number. */
  function Decimal(n: nat): (s: string)
    ensures |s| >= 1
    ensures forall i :: 0 <= i < |s| ==> '0' <= s[i] <= '9'
    ensures n >= 10 ==> s[0] != '0'
  {
    if n < 10 then [DigitChar(n)] else Decimal(n / 10) + [DigitChar(n % 10)]
  }

  /** The number a string of decimal digits denotes. */
  function DecimalValue(s: string): nat
    requires forall i :: 0 <= i < |s| ==> '0' <= s[i] <= '9'
  {
    if s == [] then 0 else DecimalValue(s[..|s| - 1]) * 10 + (s[|s| - 1] - '0') as nat
  }

  /** The countdown text shows exactly the number of seconds left. */
  lemma {:induction false} DecimalRoundTrip(n: nat)
    ensures DecimalValue(Decimal(n)) == n
  {
    if n < 10 {
      assert Decimal(n) == [DigitChar(n)];
      assert Decimal(n)[..0] == [];
    } else {
      var q, d := n / 10, n % 10;
      DecimalRoundTrip(q);
      var s := Decimal(n);
      assert s == Decimal(q) + [DigitChar(d)];
      assert s[..|s| - 1] == Decimal(q);
      assert DecimalValue(s) == q * 10 + d;
    }
  }

  /** `format!("Starting in {}...", seconds_to_start)`, for a positive count. */
  function StartingMessage(seconds: nat): string
  {
    "Starting in " + Decimal(seconds) + "..."
  }

  // ---------------------------------------------------------------------
  // The tick's rules

  /** The gate at the top of `tick`. */
  datatype Phase = Waiting | Countdown(seconds: nat) | Active

  /**
   * Which branch `tick` takes: an active game stays active; otherwise a
   * positive countdown is shown; otherwise the game waits while nothing has
   * been received, and starts once something has.
   */
  function TickPhase(gameActive: bool, secondsToStart: i32, received: bool): (p: Phase)
    ensures gameActive ==> p == Active
    ensures p.Countdown? ==> p.seconds == secondsToStart as int > 0
    ensures p == Waiting <==> !gameActive && secondsToStart <= 0 && !received
    ensures p == Active <==> gameActive || (secondsToStart <= 0 && received)
  {
    if gameActive then Active
    else if secondsToStart > 0 then Countdown(secondsToStart as nat)
    else if !received then Waiting
    else Active
  }

  /** Whether a key flag survives the debounce: it was set and was seen at most 350 ms ago. */
  predicate StillHeld(pressed: bool, lastSeen: Instant, now: Instant)
  {
    pressed && !(DurationSince(now, lastSeen) > ANTI_ALIASING_TIMEOUT)
  }

  /** A key flag is dropped exactly when more than 350 ms have passed since its last press. */
  lemma DebounceWindow(lastSeen: Instant, now: Instant)
    ensures StillHeld(true, lastSeen, now) <==> now - lastSeen <= ANTI_ALIASING_TIMEOUT
  {
  }

  /** The clamp at the end of `tick`: `y >= ROWS` becomes ROWS, else `y <= 0` becomes 0. */
  function ClampRow(y: real): (r: real)
    ensures 0.0 <= r <= ROWS as real
    ensures 0.0 <= y <= ROWS as real ==> r == y
    ensures y > ROWS as real ==> r == ROWS as real
    ensures y < 0.0 ==> r == 0.0
  {
    if y >= ROWS as real then ROWS as real else if y <= 0.0 then 0.0 else y
  }

  /**
   * The paddle's new y: 's' moves it down by speed * dt, 'w' up by the same,
   * and the result is kept on the board.
   */
  function MovePaddle(y: real, sHeld: bool, wHeld: bool, deltaTime: real): (r: real)
    ensures 0.0 <= r <= ROWS as real
    ensures r == ClampRow(y + PLAYER_MOVE_SPEED * deltaTime * ((if wHeld then 1.0 else 0.0) - (if sHeld then 1.0 else 0.0)))
    ensures sHeld == wHeld && 0.0 <= y <= ROWS as real ==> r == y
    ensures !sHeld && wHeld && 0.0 <= y + PLAYER_MOVE_SPEED * deltaTime <= ROWS as real
            ==> r == y + PLAYER_MOVE_SPEED * deltaTime
    ensures sHeld && !wHeld && 0.0 <= y - PLAYER_MOVE_SPEED * deltaTime <= ROWS as real
            ==> r == y - PLAYER_MOVE_SPEED * deltaTime
  {
    var down := if sHeld then y - PLAYER_MOVE_SPEED * deltaTime else y;
    var up := if wHeld then down + PLAYER_MOVE_SPEED * deltaTime else down;
    ClampRow(up)
  }

  /** `App`: the state shared by the tick loop, the event handler and the UDP listener. */
  class App {
    var playerId: u32
    var player: Position
    var opponent: Position
    var playerScore: u8
    var opponentScore: u8
    var ball: Position
    var ballDx: u8
    var ballDy: u8

    var wPressed: bool
    var wLastSeen: Instant
    var sPressed: bool
    var sLastSeen: Instant
    var exit: bool

    var lastUdpSend: Instant
    var lastUdpRecv: Option<Instant>
    var pingMs: real

    var gameActive: bool
    var secondsToStart: i32
    var statusMsg: string

    /** `App::new`: the paddles at their start places, the ball at mid-board moving at (5, 5). */
    constructor (playerId: u32, now: Instant)
      ensures this.playerId == playerId
      ensures (player, opponent) == StartPositions(playerId)
      ensures ball == Position(100.0, 25.0, 5.0, 5.0)
      ensures playerScore == 0 && opponentScore == 0 && ballDx == 0 && ballDy == 0
      ensures !wPressed && !sPressed && wLastSeen == now && sLastSeen == now && !exit
      ensures lastUdpSend == now && lastUdpRecv == None && pingMs == 0.0
      ensures !gameActive && secondsToStart == 0 && statusMsg == WAITING_MESSAGE
    {
      var rightPosition := Position(COLS as real - 10.0, ROWS as real / 2.0, 0.0, 0.0);
      var leftPosition := Position(10.0, ROWS as real / 2.0, 0.0, 0.0);
      var playerPosition: Position;
      var opponentPosition: Position;
      if playerId == 1 {
        playerPosition := leftPosition;
        opponentPosition := rightPosition;
      } else {
        playerPosition := rightPosition;
        opponentPosition := leftPosition;
      }
      this.playerId := playerId;
      player := playerPosition;
      opponent := opponentPosition;
      playerScore := 0;
      opponentScore := 0;
      ball := Position(COLS as real / 2.0, ROWS as real / 2.0, 5.0, 5.0);
      ballDx := 0;
      ballDy := 0;
      wPressed := false;
      wLastSeen := now;
      sPressed := false;
      sLastSeen := now;
      exit := false;
      lastUdpSend := now;
      lastUdpRecv := None;
      pingMs := 0.0;
      gameActive := false;
      secondsToStart := 0;
      statusMsg := WAITING_MESSAGE;
    }

    /**
     * `App::tick`. The current position is always published first (so the
     * server learns the client's address) and `last_udp_send` stamped; a
     * failed send ends the tick with an error. Then the gate: a countdown or
     * waiting phase only sets the status text; otherwise the game becomes
     * active, stale key flags are dropped and the paddle moves and is clamped.
     * `now` is read at entry, `sentAt` after the send; `bits` gives an `f32`'s
     * bit pattern for the datagram.
     */
    method Tick(deltaTime: real, now: Instant, sendOk: bool, sentAt: Instant, bits: real -> Float32)
      returns (datagram: seq<u8>, result: Outcome)
      modifies this
      ensures datagram == UdpClient.SendPosition(old(player), playerId, bits)
      ensures result == Ok <==> sendOk
      ensures !sendOk ==> unchanged(this)
      ensures unchanged(this`playerId, this`opponent, this`playerScore, this`opponentScore, this`ball,
                        this`ballDx, this`ballDy, this`wLastSeen, this`sLastSeen, this`exit,
                        this`lastUdpRecv, this`pingMs, this`secondsToStart)
      ensures sendOk ==> lastUdpSend == sentAt
      ensures sendOk ==> match TickPhase(old(gameActive), old(secondsToStart), old(lastUdpRecv).Some?)
        case Countdown(n) =>
          statusMsg == StartingMessage(n)
          && unchanged(this`gameActive, this`player, this`wPressed, this`sPressed)
        case Waiting =>
          statusMsg == WAITING_MESSAGE
          && unchanged(this`gameActive, this`player, this`wPressed, this`sPressed)
        case Active =>
          && gameActive
          && statusMsg == (if old(gameActive) then old(statusMsg) else "")
          && sPressed == StillHeld(old(sPressed), sLastSeen, now)
          && wPressed == StillHeld(old(wPressed), wLastSeen, now)
          && player == old(player).(y := MovePaddle(old(player).y, sPressed, wPressed, deltaTime))
    {
      datagram := UdpClient.SendPosition(player, playerId, bits);
      if !sendOk {
        result := Err;
        return;
      }
      lastUdpSend := sentAt;
      result := Ok;

      if !gameActive {
        if secondsToStart > 0 {
          statusMsg := StartingMessage(secondsToStart as nat);
          return;
        } else if lastUdpRecv.None? {
          statusMsg := WAITING_MESSAGE;
          return;
        } else {
          // the countdown reached zero or below: the game has started
          gameActive := true;
          statusMsg := "";
        }
      }

      MovePlayer(deltaTime, now);
    }

    /** The active part of `tick`: drop stale key flags, move the paddle, clamp it to the board. */
    method MovePlayer(deltaTime: real, now: Instant)
      modifies this`sPressed, this`wPressed, this`player
      ensures sPressed == StillHeld(old(sPressed), sLastSeen, now)
      ensures wPressed == StillHeld(old(wPressed), wLastSeen, now)
      ensures player == old(player).(y := MovePaddle(old(player).y, sPressed, wPressed, deltaTime))
    {
      if sPressed && DurationSince(now, sLastSeen) > ANTI_ALIASING_TIMEOUT {
        sPressed := false;
      }
      if wPressed && DurationSince(now, wLastSeen) > ANTI_ALIASING_TIMEOUT {
        wPressed := false;
      }

      if sPressed {
        player := player.(y := player.y - PLAYER_MOVE_SPEED * deltaTime);
      }
      if wPressed {
        player := player.(y := player.y + PLAYER_MOVE_SPEED * deltaTime);
      }

      if player.y >= ROWS as real {
        player := player.(y := ROWS as real);
      } else if player.y <= 0.0 {
        player := player.(y := 0.0);
      }
    }

    /** `App::handle_event`: only key presses are passed on. */
    method HandleEvent(event: Event, now: Instant) returns (result: Outcome)
      modifies this
      ensures result == Ok
      ensures event.Key? && event.keyEvent.kind == Press ==> KeyEffect(event.keyEvent, now)
      ensures !(event.Key? && event.keyEvent.kind == Press) ==> unchanged(this)
    {
      match event {
        case Key(keyEvent) =>
          if keyEvent.kind == Press {
            HandleKeyEvent(keyEvent, now);
          }
        case OtherEvent =>
      }
      result := Ok;
    }

    /** The effect of a key event read at `now`, relating this object's state before and after. */
    twostate predicate KeyEffect(keyEvent: KeyEvent, now: Instant)
      reads this
    {
      if keyEvent.code == Char('q') then
        exit && unchanged(this`wPressed, this`wLastSeen, this`sPressed, this`sLastSeen) && Untouched()
      else if keyEvent.code == Char('w') && keyEvent.kind == Press then
        wPressed && wLastSeen == now && unchanged(this`exit, this`sPressed, this`sLastSeen) && Untouched()
      else if keyEvent.code == Char('s') && keyEvent.kind == Press then
        sPressed && sLastSeen == now && unchanged(this`exit, this`wPressed, this`wLastSeen) && Untouched()
      else
        unchanged(this)
    }

    /** No field outside the key flags, their stamps and `exit` has changed. */
    twostate predicate Untouched()
      reads this
    {
      unchanged(this`playerId, this`player, this`opponent, this`playerScore, this`opponentScore,
                this`ball, this`ballDx, this`ballDy, this`lastUdpSend, this`lastUdpRecv,
                this`pingMs, this`gameActive, this`secondsToStart, this`statusMsg)
    }

    /**
     * `App::handle_key_event`: 'q' asks to exit, a 'w' or 's' press sets
     * that key's flag and stamps the time, any other key is ignored.
     */
    method HandleKeyEvent(keyEvent: KeyEvent, now: Instant)
      modifies this
      ensures KeyEffect(keyEvent, now)
    {
      match (keyEvent.code, keyEvent.kind) {
        case (Char('q'), _) =>
          Exit();
        case (Char('w'), Press) =>
          wPressed := true;
          wLastSeen := now;
        case (Char('s'), Press) =>
          sPressed := true;
          sLastSeen := now;
        case _ =>
      }
    }

    /** `App::exit`: raise the flag the run loop polls. */
    method Exit()
      modifies this
      ensures exit
      ensures Untouched()
      ensures unchanged(this`wPressed, this`wLastSeen, this`sPressed, this`sLastSeen)
    {
      exit := true;
    }
  }
}
