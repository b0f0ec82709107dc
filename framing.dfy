/**
 * The wire framing shared by the game server, the database service and the
 * lobby: every message is a 4-byte unsigned big-endian body length
 * (`struct.pack("!I", n)`) followed by the body. JSON serialisation is not
 * modelled: a body is an opaque byte string.
 */
module Framing {
  import opened Wrappers

  newtype byte = x: int | 0 <= x < 256

  const HeaderSize: nat := 4
  /** `struct.pack("!I", n)` raises for any n at or above 2^32. */
  const MaxLength: nat := 0x1_0000_0000

  /** `struct.pack("!I", n)`: most significant byte first. */
  function Header(n: nat): (h: seq<byte>)
    requires n < MaxLength
    ensures |h| == HeaderSize
  {
    [(n / 0x100_0000) as byte, (n / 0x1_0000 % 0x100) as byte,
     (n / 0x100 % 0x100) as byte, (n % 0x100) as byte]
  }

  /** `struct.unpack("!I", h)[0]`. */
  function ReadHeader(h: seq<byte>): (n: nat)
    requires |h| == HeaderSize
    ensures n < MaxLength
  {
    (h[0] as int) * 0x100_0000 + (h[1] as int) * 0x1_0000 + (h[2] as int) * 0x100 + h[3] as int
  }

  /** Reading a header back recovers the length that was packed. */
  lemma HeaderRoundTrip(n: nat)
    requires n < MaxLength
    ensures ReadHeader(Header(n)) == n
  {
    var d, q1 := n % 0x100, n / 0x100;
    var c, q2 := q1 % 0x100, q1 / 0x100;
    var b, a := q2 % 0x100, q2 / 0x100;
    DivMod(n, 0x1_0000, q2, c * 0x100 + d);
    DivMod(n, 0x100_0000, a, b * 0x1_0000 + c * 0x100 + d);
  }

  /** Every 4-byte header is the packing of the length it encodes. */
  lemma HeaderUnique(h: seq<byte>)
    requires |h| == HeaderSize
    ensures Header(ReadHeader(h)) == h
  {
    var n := ReadHeader(h);
    var a, b, c, d := h[0] as int, h[1] as int, h[2] as int, h[3] as int;
    DivMod(n, 0x100_0000, a, b * 0x1_0000 + c * 0x100 + d);
    DivMod(n, 0x1_0000, a * 0x100 + b, c * 0x100 + d);
    DivMod(a * 0x100 + b, 0x100, a, b);
    DivMod(n, 0x100, a * 0x1_0000 + b * 0x100 + c, d);
    DivMod(a * 0x1_0000 + b * 0x100 + c, 0x100, a * 0x100 + b, c);
  }

  /** Division by one of the three byte-place weights, when quotient and remainder are known. */
  lemma DivMod(n: int, m: int, q: int, r: int)
    requires m == 0x100 || m == 0x1_0000 || m == 0x100_0000
    requires 0 <= r < m && n == q * m + r
    ensures n / m == q && n % m == r
  {
    if m == 0x100 {
      assert n == q * 0x100 + r;
    } else if m == 0x1_0000 {
      assert n == q * 0x1_0000 + r;
    } else {
      assert n == q * 0x100_0000 + r;
    }
  }

  /** A header followed by the body, for bodies the header can describe. */
  function Frame(body: seq<byte>): (r: seq<byte>)
    requires |body| < MaxLength
    ensures |r| == HeaderSize + |body| && r[HeaderSize..] == body
    ensures ReadHeader(r[..HeaderSize]) == |body|
  {
    HeaderRoundTrip(|body|);
    Header(|body|) + body
  }

  /**
   * The reader side (`read_message`, `read_response`, and the loop of the
   * database's `handle_client`): `readexactly(4)`, unpack the length, then
   * `readexactly(length)`. Returns the body and the rest of the stream, or
   * None where `readexactly` would raise IncompleteReadError.
   */
  function ReadFrame(stream: seq<byte>): (r: Option<(seq<byte>, seq<byte>)>)
    ensures r.Some? ==> HeaderSize + |r.value.0| + |r.value.1| == |stream|
    ensures r.Some? ==> |r.value.0| < MaxLength
    ensures r.Some? ==> stream == Header(|r.value.0|) + r.value.0 + r.value.1
  {
    if |stream| < HeaderSize then None
    else
      var n := ReadHeader(stream[..HeaderSize]);
      if |stream| - HeaderSize < n then None
      else
        HeaderUnique(stream[..HeaderSize]);
        assert stream == stream[..HeaderSize] + stream[HeaderSize..HeaderSize + n] + stream[HeaderSize + n..];
        Some((stream[HeaderSize..HeaderSize + n], stream[HeaderSize + n..]))
  }

  /** Framing one message and reading it back yields the body and leaves the rest of the stream. */
  lemma {:induction false} ReadFrameOfFrame(body: seq<byte>, rest: seq<byte>)
    requires |body| < MaxLength
    ensures ReadFrame(Frame(body) + rest) == Some((body, rest))
  {
    var s := Frame(body) + rest;
    assert s[..HeaderSize] == Frame(body)[..HeaderSize];
    assert s[HeaderSize..HeaderSize + |body|] == body;
    assert s[HeaderSize + |body|..] == rest;
  }

  /**
   * game/server.py `encode_message`: None where `struct.pack` raises because
   * the body is 2^32 bytes or longer.
   */
  function EncodeMessage(body: seq<byte>): (r: Option<seq<byte>>)
    ensures r.Some? <==> |body| < MaxLength
    ensures r.Some? ==> ReadFrame(r.value) == Some((body, []))
  {
    if |body| < MaxLength then
      ReadFrameOfFrame(body, []);
      assert Frame(body) + [] == Frame(body);
      Some(Frame(body))
    else None
  }
}
