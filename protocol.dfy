/**
 * The server's wire messages (server/src/protocol.h) and their big-endian
 * serializers (server/src/protocol.c). Floats travel as their 32-bit
 * patterns, so every float field here is a `Float32` word and no arithmetic
 * is done on it.
 */
module Protocol {
  import opened Ints
  import opened Wire
  import opened Config

  /** Size of the character body of a TCP message or response. */
  const BODY_SIZE: nat := 256
  /** Packed `Position`: four 4-byte floats. */
  const POSITION_SIZE: nat := 4 * 4
  /** Packed `PositionMessage`: a 4-byte id and a `Position`. */
  const POSITION_MESSAGE_SIZE: nat := 4 + POSITION_SIZE
  /** Number of `Position` slots in a `GameStateMessage`: every client plus the ball. */
  const MAX_POSITIONS: nat := MAX_CLIENTS + 1
  /** Packed `TcpMessage` and `TcpResponse`: a 4-byte code and the body. */
  const TCP_MESSAGE_SIZE: nat := 4 + BODY_SIZE
  /** Bytes written by `serialize_game_state_message` before the positions. */
  const GAME_STATE_HEADER_SIZE: nat := 4 + 4

  /** `char msg[256]`. */
  type Body = s: seq<u8> | |s| == BODY_SIZE witness seq(BODY_SIZE, _ => 0)

  /** `Position`: fields in the order x, y, dx, dy. */
  datatype Position = Position(x: Float32, y: Float32, dx: Float32, dy: Float32)

  /** `struct PositionMessage`: the sender's id, then its position. */
  datatype PositionMessage = PositionMessage(id: u32, position: Position)

  /** `Position positions[MAX_CLIENTS + 1]`. */
  type Slots = s: seq<Position> | |s| == MAX_POSITIONS
    witness [Position(0, 0, 0, 0), Position(0, 0, 0, 0), Position(0, 0, 0, 0)]

  /**
   * `GameStateMessage`, in declaration order. It has no `start_time` field,
   * although `serialize_game_state_message` reads one (see there).
   */
  datatype GameStateMessage = GameStateMessage(
    leftScore: u8,
    rightScore: u8,
    gameActive: bool,
    secondsToStart: i32,
    numPositions: u32,
    positions: Slots)

  /** `struct TcpMessage`. */
  datatype TcpMessage = TcpMessage(opcode: u32, msg: Body)

  /** `struct TcpResponse`. */
  datatype TcpResponse = TcpResponse(statuscode: u32, msg: Body)

  /** An IPv4 socket address, opaque to the model. */
  type Address = nat

  /** `Client`: one slot of the server's client table. */
  datatype Client = Client(
    addr: Address,
    tcpPort: u32,
    tcpFd: int,
    udpPort: u32,
    playerId: u32,
    active: bool)

  // ---------------------------------------------------------------------
  // Byte layouts

  /** The float fields of a position in wire order. */
  function Fields(p: Position): (ws: seq<Float32>)
    ensures |ws| == 4
  {
    [p.x, p.y, p.dx, p.dy]
  }

  /** A run of words, each in network byte order. */
  function EncodeWords(ws: seq<u32>): (b: seq<u8>)
    ensures |b| == 4 * |ws|
  {
    if ws == [] then [] else EncodeWords(ws[..|ws| - 1]) + EncodeU32(ws[|ws| - 1])
  }

  /** Word `k` of a run sits at bytes `4k .. 4k+4`. */
  lemma {:induction false} EncodeWordsAt(ws: seq<u32>, k: nat)
    requires k < |ws|
    ensures EncodeWords(ws)[4 * k .. 4 * k + 4] == EncodeU32(ws[k])
  {
    var init := ws[..|ws| - 1];
    assert EncodeWords(ws) == EncodeWords(init) + EncodeU32(ws[|ws| - 1]);
    if k < |ws| - 1 {
      EncodeWordsAt(init, k);
      assert EncodeWords(ws)[4 * k .. 4 * k + 4] == EncodeWords(init)[4 * k .. 4 * k + 4];
    }
  }

  /** The 16 bytes of a `Position`. */
  function EncodePosition(p: Position): (b: seq<u8>)
    ensures |b| == POSITION_SIZE
  {
    EncodeWords(Fields(p))
  }

  /** A `Position` read back from its 16 bytes. */
  function DecodePosition(b: seq<u8>): Position
    requires |b| == POSITION_SIZE
  {
    Position(DecodeU32(b[0..4]), DecodeU32(b[4..8]), DecodeU32(b[8..12]), DecodeU32(b[12..16]))
  }

  /** The 20 bytes `serialize_position_message` writes. */
  function EncodePositionMessage(m: PositionMessage): (b: seq<u8>)
    ensures |b| == POSITION_MESSAGE_SIZE
  {
    EncodeU32(m.id) + EncodePosition(m.position)
  }

  /** The message `deserialize_position_message` reads from 20 bytes. */
  function DecodePositionMessage(b: seq<u8>): PositionMessage
    requires |b| == POSITION_MESSAGE_SIZE
  {
    PositionMessage(DecodeU32(b[0..4]), DecodePosition(b[4..]))
  }

  /** A position's bytes are x, y, dx and dy, each big-endian. */
  lemma PositionLayout(p: Position)
    ensures EncodePosition(p) == EncodeU32(p.x) + EncodeU32(p.y) + EncodeU32(p.dx) + EncodeU32(p.dy)
  {
    var ws := Fields(p);
    assert ws[..3] == [p.x, p.y, p.dx] && [p.x, p.y, p.dx][..2] == [p.x, p.y];
    assert [p.x, p.y][..1] == [p.x] && [p.x][..0] == [];
    assert EncodeWords([p.x]) == EncodeU32(p.x);
    assert EncodeWords([p.x, p.y]) == EncodeU32(p.x) + EncodeU32(p.y);
    assert EncodeWords([p.x, p.y, p.dx]) == EncodeU32(p.x) + EncodeU32(p.y) + EncodeU32(p.dx);
  }

  /**
   * A position message's bytes: the id big-endian at offset 0, then the bit
   * patterns of x, y, dx, dy big-endian at offsets 4, 8, 12 and 16.
   */
  lemma PositionMessageLayout(m: PositionMessage)
    ensures |EncodePositionMessage(m)| == 20
    ensures EncodePositionMessage(m)[0..4] == EncodeU32(m.id)
    ensures EncodePositionMessage(m)[4..8] == EncodeU32(m.position.x)
    ensures EncodePositionMessage(m)[8..12] == EncodeU32(m.position.y)
    ensures EncodePositionMessage(m)[12..16] == EncodeU32(m.position.dx)
    ensures EncodePositionMessage(m)[16..20] == EncodeU32(m.position.dy)
  {
    PositionLayout(m.position);
  }

  /** Deserializing a serialized position message gives it back, bit for bit. */
  lemma DecodeEncodePositionMessage(m: PositionMessage)
    ensures DecodePositionMessage(EncodePositionMessage(m)) == m
  {
    var b := EncodePositionMessage(m);
    PositionMessageLayout(m);
    assert b[4..][0..4] == b[4..8] && b[4..][4..8] == b[8..12];
    assert b[4..][8..12] == b[12..16] && b[4..][12..16] == b[16..20];
    DecodeEncodeU32(m.id);
    DecodeEncodeU32(m.position.x);
    DecodeEncodeU32(m.position.y);
    DecodeEncodeU32(m.position.dx);
    DecodeEncodeU32(m.position.dy);
  }

  /** Every 20-byte buffer is the serialization of the message it decodes to. */
  lemma EncodeDecodePositionMessage(b: seq<u8>)
    requires |b| == POSITION_MESSAGE_SIZE
    ensures EncodePositionMessage(DecodePositionMessage(b)) == b
  {
    var m := DecodePositionMessage(b);
    PositionMessageLayout(m);
    var e := EncodePositionMessage(m);
    assert b[4..][0..4] == b[4..8] && b[4..][4..8] == b[8..12];
    assert b[4..][8..12] == b[12..16] && b[4..][12..16] == b[16..20];
    EncodeDecodeU32(b[0..4]);
    EncodeDecodeU32(b[4..8]);
    EncodeDecodeU32(b[8..12]);
    EncodeDecodeU32(b[12..16]);
    EncodeDecodeU32(b[16..20]);
    assert e == e[0..4] + e[4..8] + e[8..12] + e[12..16] + e[16..20];
    assert b == b[0..4] + b[4..8] + b[8..12] + b[12..16] + b[16..20];
  }

  /** The positions of a game state, one 16-byte record each, in index order. */
  function EncodePositions(ps: seq<Position>): (b: seq<u8>)
    ensures |b| == POSITION_SIZE * |ps|
  {
    if ps == [] then [] else EncodePositions(ps[..|ps| - 1]) + EncodePosition(ps[|ps| - 1])
  }

  /** Position `k` sits at bytes `16k .. 16k+16`. */
  lemma {:induction false} EncodePositionsAt(ps: seq<Position>, k: nat)
    requires k < |ps|
    ensures EncodePositions(ps)[POSITION_SIZE * k .. POSITION_SIZE * (k + 1)] == EncodePosition(ps[k])
  {
    var init := ps[..|ps| - 1];
    assert EncodePositions(ps) == EncodePositions(init) + EncodePosition(ps[|ps| - 1]);
    if k < |ps| - 1 {
      EncodePositionsAt(init, k);
      assert EncodePositions(ps)[POSITION_SIZE * k .. POSITION_SIZE * (k + 1)]
          == EncodePositions(init)[POSITION_SIZE * k .. POSITION_SIZE * (k + 1)];
    }
  }

  /**
   * How many slots the loop of `serialize_game_state_message` visits: it runs
   * while `i < (int)num_positions`, so a count of 2^31 or more, which the
   * cast makes negative, visits none.
   */
  function SlotsSerialized(numPositions: u32): (n: nat)
    ensures numPositions < 0x8000_0000 ==> n == numPositions as nat
    ensures numPositions >= 0x8000_0000 ==> n == 0
  {
    var count := AsInt32(numPositions);
    if count < 0 then 0 else count as nat
  }

  /**
   * The bytes `serialize_game_state_message` writes. The serializer reads a
   * `start_time` field that `GameStateMessage` does not declare; the model
   * takes that value as `startTime` (a `time_t`, cast to `uint32_t`). It
   * writes neither the scores, the active flag nor the countdown. The slots
   * are those the loop visits, which must lie inside `positions`.
   */
  function EncodeGameStateMessage(startTime: int, m: GameStateMessage): (b: seq<u8>)
    requires SlotsSerialized(m.numPositions) <= MAX_POSITIONS
  {
    EncodeU32(TruncateToU32(startTime)) + EncodeU32(m.numPositions)
      + EncodePositions(m.positions[..SlotsSerialized(m.numPositions)])
  }

  /**
   * A game state is 8 + 16 * num_positions bytes, or just the 8-byte header
   * when the count is 2^31 or more; it begins with the start time modulo 2^32
   * and the count as given.
   */
  lemma GameStateHeader(startTime: int, m: GameStateMessage)
    requires SlotsSerialized(m.numPositions) <= MAX_POSITIONS
    ensures m.numPositions < 0x8000_0000 ==>
      |EncodeGameStateMessage(startTime, m)| == GAME_STATE_HEADER_SIZE + POSITION_SIZE * m.numPositions as nat
    ensures m.numPositions >= 0x8000_0000 ==>
      |EncodeGameStateMessage(startTime, m)| == GAME_STATE_HEADER_SIZE
    ensures DecodeU32(EncodeGameStateMessage(startTime, m)[0..4]) as int == startTime % 0x1_0000_0000
    ensures DecodeU32(EncodeGameStateMessage(startTime, m)[4..8]) == m.numPositions
  {
    var b := EncodeGameStateMessage(startTime, m);
    assert b[0..4] == EncodeU32(TruncateToU32(startTime));
    assert b[4..8] == EncodeU32(m.numPositions);
    DecodeEncodeU32(TruncateToU32(startTime));
    DecodeEncodeU32(m.numPositions);
  }

  /** Slot k of a game state sits at offset 8 + 16k, for every slot the loop visits. */
  lemma GameStateLayout(startTime: int, m: GameStateMessage, k: nat)
    requires SlotsSerialized(m.numPositions) <= MAX_POSITIONS
    requires k < m.numPositions as nat < 0x8000_0000
    ensures EncodeGameStateMessage(startTime, m)[GAME_STATE_HEADER_SIZE + POSITION_SIZE * k .. GAME_STATE_HEADER_SIZE + POSITION_SIZE * (k + 1)]
         == EncodePosition(m.positions[k])
  {
    var b := EncodeGameStateMessage(startTime, m);
    var ps := m.positions[..m.numPositions];
    var header := EncodeU32(TruncateToU32(startTime)) + EncodeU32(m.numPositions);
    assert b == header + EncodePositions(ps);
    EncodePositionsAt(ps, k);
    assert b[GAME_STATE_HEADER_SIZE + POSITION_SIZE * k .. GAME_STATE_HEADER_SIZE + POSITION_SIZE * (k + 1)]
        == EncodePositions(ps)[POSITION_SIZE * k .. POSITION_SIZE * (k + 1)];
  }

  /** The 260 bytes of a TCP message: the opcode big-endian, then the body verbatim. */
  function EncodeTcpMessage(m: TcpMessage): (b: seq<u8>)
    ensures |b| == TCP_MESSAGE_SIZE
    ensures b[4..] == m.msg
  {
    EncodeU32(m.opcode) + m.msg
  }

  /**
   * `deserialize_tcp_message`: only the opcode is read from the buffer; the
   * body of the output message is left as it was.
   */
  function DecodeTcpMessage(b: seq<u8>, prior: TcpMessage): (r: TcpMessage)
    requires |b| >= 4
    ensures EncodeU32(r.opcode) == b[..4]
    ensures r.msg == prior.msg
  {
    EncodeDecodeU32(b[..4]);
    prior.(opcode := DecodeU32(b[..4]))
  }

  /** Deserializing a serialized TCP message recovers its opcode and nothing else. */
  lemma DecodeEncodeTcpMessage(m: TcpMessage, prior: TcpMessage)
    ensures DecodeTcpMessage(EncodeTcpMessage(m), prior) == prior.(opcode := m.opcode)
  {
    assert EncodeTcpMessage(m)[..4] == EncodeU32(m.opcode);
    DecodeEncodeU32(m.opcode);
  }

  /** The 260 bytes of a TCP response: the status code big-endian, then the body. */
  function EncodeTcpResponse(r: TcpResponse): (b: seq<u8>)
    ensures |b| == TCP_MESSAGE_SIZE
  {
    EncodeU32(r.statuscode) + r.msg
  }

  /** The response a reader of the 260-byte layout recovers. */
  function DecodeTcpResponse(b: seq<u8>): TcpResponse
    requires |b| == TCP_MESSAGE_SIZE
  {
    TcpResponse(DecodeU32(b[..4]), b[4..])
  }

  /** A TCP response survives the layout, and every 260 bytes are some response's layout. */
  lemma TcpResponseRoundTrip(r: TcpResponse, b: seq<u8>)
    requires |b| == TCP_MESSAGE_SIZE
    ensures DecodeTcpResponse(EncodeTcpResponse(r)) == r
    ensures EncodeTcpResponse(DecodeTcpResponse(b)) == b
  {
    var e := EncodeTcpResponse(r);
    assert e[..4] == EncodeU32(r.statuscode) && e[4..] == r.msg;
    DecodeEncodeU32(r.statuscode);
    EncodeDecodeU32(b[..4]);
    assert b == b[..4] + b[4..];
  }

  // ---------------------------------------------------------------------
  // The serializers, as the C code runs them on a caller's buffer

  /** The inner loop of both serializers: the four float words of `p` from `offset` on. */
  method WritePosition(buffer: array<u8>, offset: nat, p: Position)
    requires offset + POSITION_SIZE <= buffer.Length
    modifies buffer
    ensures buffer[..offset + POSITION_SIZE] == old(buffer[..offset]) + EncodePosition(p)
    ensures buffer[offset + POSITION_SIZE..] == old(buffer[offset + POSITION_SIZE..])
  {
    var fields := Fields(p);
    for j := 0 to 4
      invariant buffer[..offset + 4 * j] == old(buffer[..offset]) + EncodeWords(fields[..j])
      invariant buffer[offset + 4 * j..] == old(buffer[offset + 4 * j..])
    {
      ghost var rest := buffer[offset + 4 * j..];
      WriteU32(buffer, offset + j * 4, fields[j]);
      assert rest[4..] == old(buffer[offset + 4 * (j + 1)..]);
      assert fields[..j + 1][..j] == fields[..j];
      assert EncodeWords(fields[..j + 1]) == EncodeWords(fields[..j]) + EncodeU32(fields[j]);
    }
    assert fields[..4] == fields;
  }

  /** `serialize_position_message`: the id, then the four float words. */
  method SerializePositionMessage(msg: PositionMessage, buffer: array<u8>)
    requires buffer.Length >= POSITION_MESSAGE_SIZE
    modifies buffer
    ensures buffer[..] == EncodePositionMessage(msg) + old(buffer[POSITION_MESSAGE_SIZE..])
  {
    WriteU32(buffer, 0, msg.id);
    WritePosition(buffer, 4, msg.position);
    assert buffer[..] == buffer[..POSITION_MESSAGE_SIZE] + buffer[POSITION_MESSAGE_SIZE..];
  }

  /** `deserialize_position_message`: the id, then x, y, dx, dy at an advancing offset. */
  method DeserializePositionMessage(buffer: array<u8>) returns (msg: PositionMessage)
    requires buffer.Length >= POSITION_MESSAGE_SIZE
    ensures msg == DecodePositionMessage(buffer[..POSITION_MESSAGE_SIZE])
    ensures EncodePositionMessage(msg) == buffer[..POSITION_MESSAGE_SIZE]
  {
    var id := ReadU32(buffer, 0);
    var offset := 4;
    var x := ReadU32(buffer, offset);
    offset := offset + 4;
    var y := ReadU32(buffer, offset);
    offset := offset + 4;
    var dx := ReadU32(buffer, offset);
    offset := offset + 4;
    var dy := ReadU32(buffer, offset);
    msg := PositionMessage(id, Position(x, y, dx, dy));
    ghost var b := buffer[..POSITION_MESSAGE_SIZE];
    assert b[4..][0..4] == b[4..8] && b[4..][4..8] == b[8..12];
    assert b[4..][8..12] == b[12..16] && b[4..][12..16] == b[16..20];
    EncodeDecodePositionMessage(b);
  }

  /**
   * `serialize_tcp_message`. The `memset` clears `sizeof(*buffer)` bytes, which
   * is a single byte, and that byte is overwritten by the opcode.
   */
  method SerializeTcpMessage(tcpMessage: TcpMessage, buffer: array<u8>)
    requires buffer.Length >= TCP_MESSAGE_SIZE
    modifies buffer
    ensures buffer[..] == EncodeTcpMessage(tcpMessage) + old(buffer[TCP_MESSAGE_SIZE..])
  {
    buffer[0] := 0;
    WriteU32(buffer, 0, tcpMessage.opcode);
    var offset := 4;
    CopyBytes(buffer, offset, tcpMessage.msg);
  }

  /** `deserialize_tcp_message`: `msg` is an in-out parameter of which only the opcode is set. */
  method DeserializeTcpMessage(buffer: array<u8>, msg: TcpMessage) returns (r: TcpMessage)
    requires buffer.Length >= 4
    ensures r == DecodeTcpMessage(buffer[..], msg)
  {
    var opcode := ReadU32(buffer, 0);
    assert buffer[0..4] == buffer[..][..4];
    r := msg.(opcode := opcode);
  }

  /**
   * `serialize_game_state_message`, with `startTime` standing for the
   * `start_time` field the code reads. The loop indexes `positions` below
   * `(int)num_positions`: inside the array when that is at most
   * `MAX_CLIENTS + 1`, and not at all when the cast makes it negative.
   */
  method SerializeGameStateMessage(buffer: array<u8>, startTime: int, gameStateMessage: GameStateMessage)
    requires SlotsSerialized(gameStateMessage.numPositions) <= MAX_POSITIONS
    requires buffer.Length >= GAME_STATE_HEADER_SIZE + POSITION_SIZE * SlotsSerialized(gameStateMessage.numPositions)
    modifies buffer
    ensures buffer[..] == EncodeGameStateMessage(startTime, gameStateMessage)
                          + old(buffer[GAME_STATE_HEADER_SIZE + POSITION_SIZE * SlotsSerialized(gameStateMessage.numPositions)..])
  {
    var offset := 0;
    WriteU32(buffer, offset, TruncateToU32(startTime));
    offset := offset + 4;
    WriteU32(buffer, offset, gameStateMessage.numPositions);
    offset := offset + 4;
    ghost var header := EncodeU32(TruncateToU32(startTime)) + EncodeU32(gameStateMessage.numPositions);
    assert buffer[..offset] == header;
    assert buffer[offset..] == old(buffer[offset..]);
    var n := SlotsSerialized(gameStateMessage.numPositions);
    var ps := gameStateMessage.positions[..n];
    ghost var end := offset + POSITION_SIZE * n;
    ghost var mid := buffer[..];
    assert mid[end..] == old(buffer[end..]);
    WritePositions(buffer, offset, ps);
    assert buffer[..] == header + EncodePositions(ps) + mid[end..];
    assert EncodeGameStateMessage(startTime, gameStateMessage) == header + EncodePositions(ps);
  }

  /** The loop of `serialize_game_state_message`: each position in index order from `offset` on. */
  method WritePositions(buffer: array<u8>, offset: nat, ps: seq<Position>)
    requires offset + POSITION_SIZE * |ps| <= buffer.Length
    modifies buffer
    ensures buffer[..] == old(buffer[..offset]) + EncodePositions(ps) + old(buffer[offset + POSITION_SIZE * |ps|..])
  {
    var at := offset;
    for i := 0 to |ps|
      invariant at == offset + POSITION_SIZE * i
      invariant buffer[..at] == old(buffer[..offset]) + EncodePositions(ps[..i])
      invariant buffer[at..] == old(buffer[at..])
    {
      ghost var rest := buffer[at..];
      WritePosition(buffer, at, ps[i]);
      assert rest[POSITION_SIZE..] == old(buffer[at + POSITION_SIZE..]);
      at := at + POSITION_SIZE;
      assert ps[..i + 1][..i] == ps[..i];
      assert EncodePositions(ps[..i + 1]) == EncodePositions(ps[..i]) + EncodePosition(ps[i]);
    }
    assert ps[..|ps|] == ps;
    assert buffer[..] == buffer[..at] + buffer[at..];
  }

  /** `serialize_tcp_response`: the status code, then the body at offset 4. */
  method SerializeTcpResponse(tcpResponse: TcpResponse, buffer: array<u8>)
    requires buffer.Length >= TCP_MESSAGE_SIZE
    modifies buffer
    ensures buffer[..] == EncodeTcpResponse(tcpResponse) + old(buffer[TCP_MESSAGE_SIZE..])
  {
    WriteU32(buffer, 0, tcpResponse.statuscode);
    var offset := 4;
    CopyBytes(buffer, offset, tcpResponse.msg);
  }
}
