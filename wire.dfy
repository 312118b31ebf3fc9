/** Fixed-width machine integers shared by the server and the client. */
module Ints {
  /** An unsigned byte (`uint8_t`, Rust `u8`). */
  newtype u8 = x: int | 0 <= x < 0x100

  /** An unsigned 32-bit word (`uint32_t`, Rust `u32`). */
  newtype u32 = x: int | 0 <= x < 0x1_0000_0000

  /** A signed 32-bit integer (`int32_t`, Rust `i32`). */
  newtype i32 = x: int | -0x8000_0000 <= x < 0x8000_0000

  /** The 32-bit pattern of a float, as `memcpy` from a `float` gives it. */
  type Float32 = u32

  /** A C conversion to `uint32_t`: the value modulo 2^32. */
  function TruncateToU32(x: int): (w: u32)
    ensures w as int % 0x1_0000_0000 == x % 0x1_0000_0000
    ensures 0 <= x < 0x1_0000_0000 ==> w as int == x
  {
    (x % 0x1_0000_0000) as u32
  }

  /**
   * A C conversion of a `uint32_t` to a 32-bit two's-complement `int`: words
   * of 2^31 and above become negative.
   */
  function AsInt32(w: u32): (r: i32)
    ensures r as int % 0x1_0000_0000 == w as int
    ensures w < 0x8000_0000 <==> r >= 0
  {
    if w < 0x8000_0000 then w as int as i32 else (w as int - 0x1_0000_0000) as i32
  }
}

/**
 * Network byte order: `htonl` followed by a 4-byte `memcpy` into a buffer,
 * and a 4-byte `memcpy` out of a buffer followed by `ntohl`.
 */
module Wire {
  import opened Ints

  /** The four bytes of `w`, most significant first. */
  function EncodeU32(w: u32): (b: seq<u8>)
    ensures |b| == 4
  {
    var n := w as int;
    [(n / 0x100_0000) as u8, (n / 0x1_0000 % 0x100) as u8,
     (n / 0x100 % 0x100) as u8, (n % 0x100) as u8]
  }

  /** The word whose big-endian bytes are `b`. */
  function DecodeU32(b: seq<u8>): (w: u32)
    requires |b| == 4
  {
    (b[0] as int * 0x100_0000 + b[1] as int * 0x1_0000
     + b[2] as int * 0x100 + b[3] as int) as u32
  }

  lemma DivModUnique(n: int, q: int, r: int, d: int)
    requires 0 < d && 0 <= r < d && n == q * d + r
    ensures n / d == q && n % d == r
  {
    var q', r' := n / d, n % d;
    assert (q - q') * d == r' - r;
    if q > q' {
      MulAtLeast(q - q', d);
    } else if q < q' {
      MulAtLeast(q' - q, d);
    }
  }

  lemma MulAtLeast(a: int, d: int)
    requires a >= 1 && d > 0
    ensures a * d >= d
  {
    assert a * d == (a - 1) * d + d;
    assert (a - 1) * d >= 0;
  }

  /** Decoding inverts encoding. */
  lemma DecodeEncodeU32(w: u32)
    ensures DecodeU32(EncodeU32(w)) == w
  {
    var n := w as int;
    var b := EncodeU32(w);
    var a0, r0 := n / 0x100, n % 0x100;
    var a1, r1 := a0 / 0x100, a0 % 0x100;
    var a2, r2 := a1 / 0x100, a1 % 0x100;
    assert n / 0x1_0000 == a1 by { DivModUnique(n, a1, r1 * 0x100 + r0, 0x1_0000); }
    assert n / 0x100_0000 == a2 by { DivModUnique(n, a2, (r2 * 0x100 + r1) * 0x100 + r0, 0x100_0000); }
    assert b[0] as int == a2 && b[1] as int == r2 && b[2] as int == r1 && b[3] as int == r0;
  }

  /** Encoding inverts decoding: every 4-byte string is some word's encoding. */
  lemma EncodeDecodeU32(b: seq<u8>)
    requires |b| == 4
    ensures EncodeU32(DecodeU32(b)) == b
  {
    var n := DecodeU32(b) as int;
    var b0, b1, b2, b3 := b[0] as int, b[1] as int, b[2] as int, b[3] as int;
    DivModUnique(n, b0, b1 * 0x1_0000 + b2 * 0x100 + b3, 0x100_0000);
    DivModUnique(n, b0 * 0x100 + b1, b2 * 0x100 + b3, 0x1_0000);
    DivModUnique(n / 0x1_0000, b0, b1, 0x100);
    DivModUnique(n, (b0 * 0x100 + b1) * 0x100 + b2, b3, 0x100);
    DivModUnique(n / 0x100, b0 * 0x100 + b1, b2, 0x100);
    var e := EncodeU32(DecodeU32(b));
    assert e[0] == b[0] && e[1] == b[1] && e[2] == b[2] && e[3] == b[3];
  }

  /** `htonl(w)` copied into `buffer[offset..offset+4]`; nothing else changes. */
  method WriteU32(buffer: array<u8>, offset: nat, w: u32)
    requires offset + 4 <= buffer.Length
    modifies buffer
    ensures buffer[..offset + 4] == old(buffer[..offset]) + EncodeU32(w)
    ensures buffer[offset + 4..] == old(buffer[offset + 4..])
  {
    var b := EncodeU32(w);
    buffer[offset] := b[0];
    buffer[offset + 1] := b[1];
    buffer[offset + 2] := b[2];
    buffer[offset + 3] := b[3];
  }

  /** `ntohl` of the word copied out of `buffer[offset..offset+4]`. */
  method ReadU32(buffer: array<u8>, offset: nat) returns (w: u32)
    requires offset + 4 <= buffer.Length
    ensures w == DecodeU32(buffer[offset..offset + 4])
    ensures EncodeU32(w) == buffer[offset..offset + 4]
  {
    var b := [buffer[offset], buffer[offset + 1], buffer[offset + 2], buffer[offset + 3]];
    assert b == buffer[offset..offset + 4];
    w := DecodeU32(b);
    EncodeDecodeU32(b);
  }

  /** `memcpy(buffer + offset, src, |src|)`. */
  method CopyBytes(buffer: array<u8>, offset: nat, src: seq<u8>)
    requires offset + |src| <= buffer.Length
    modifies buffer
    ensures buffer[..] == old(buffer[..offset]) + src + old(buffer[offset + |src|..])
  {
    var i := 0;
    while i < |src|
      invariant 0 <= i <= |src|
      invariant forall k :: 0 <= k < offset ==> buffer[k] == old(buffer[k])
      invariant forall k :: 0 <= k < i ==> buffer[offset + k] == src[k]
      invariant forall k :: offset + i <= k < buffer.Length ==> buffer[k] == old(buffer[k])
    {
      buffer[offset + i] := src[i];
      i := i + 1;
    }
    assert buffer[..] == old(buffer[..offset]) + src + old(buffer[offset + |src|..]);
  }
}
