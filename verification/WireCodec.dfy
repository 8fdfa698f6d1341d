/** The byte-level headers of the world protocol (src/proto/MopWireCodec.h).

    Integers are unbounded here, so every width of the C++ code is written out: a byte is
    below 256, a 16-bit field below 0x1_0000, and shifting by 13 bits is multiplying or
    dividing by 0x2000.
 */
module WireCodec {

  type byte = b: int | 0 <= b < 0x100

  type uint32 = w: int | 0 <= w < 0x1_0000_0000

  datatype Header = Rejected | Header(size: nat, cmd: nat)

  const MAX_CLIENT_SIZE := 10240
  const MAX_CLIENT_PAYLOAD := 10236
  const OPCODE_SPACE := 0x2000

  // ---------------------------------------------------------------- little-endian integers

  function LE16(v: nat): (b: seq<byte>)
    requires v < 0x1_0000
    ensures |b| == 2
  {
    [v % 0x100, v / 0x100]
  }

  function LE32(v: nat): (b: seq<byte>)
    requires v < 0x1_0000_0000
    ensures |b| == 4
  {
    LE16(v % 0x1_0000) + LE16(v / 0x1_0000)
  }

  function FromLE16(b: seq<byte>): (v: nat)
    requires |b| == 2
    ensures v < 0x1_0000
    ensures LE16(v) == b
  {
    b[0] as int + 0x100 * b[1] as int
  }

  function FromLE32(b: seq<byte>): (v: nat)
    requires |b| == 4
    ensures v < 0x1_0000_0000
    ensures LE32(v) == b
  {
    var lo, hi := FromLE16(b[..2]), FromLE16(b[2..]);
    assert b == b[..2] + b[2..];
    Halves(lo, hi);
    lo + 0x1_0000 * hi
  }

  lemma Halves(lo: nat, hi: nat)
    requires lo < 0x1_0000
    ensures (lo + 0x1_0000 * hi) % 0x1_0000 == lo && (lo + 0x1_0000 * hi) / 0x1_0000 == hi
  {
  }

  lemma LERoundTrip(v: nat)
    ensures v < 0x1_0000 ==> FromLE16(LE16(v)) == v
    ensures v < 0x1_0000_0000 ==> FromLE32(LE32(v)) == v
  {
    if v < 0x1_0000_0000 {
      assert LE32(v)[..2] == LE16(v % 0x1_0000) && LE32(v)[2..] == LE16(v / 0x1_0000);
    }
  }

  lemma LE32Bytes(v: nat)
    requires v < 0x1_0000_0000
    ensures LE32(v) == [v % 0x100, v / 0x100 % 0x100, v / 0x1_0000 % 0x100, v / 0x100_0000]
  {
    var q0, q1, q2 := v / 0x100, v / 0x1_0000, v / 0x100_0000;
    assert q1 == q0 / 0x100 && q2 == q1 / 0x100;
    assert v % 0x1_0000 == v % 0x100 + 0x100 * (q0 % 0x100);
  }

  // ---------------------------------------------------------------- headers the client sends

  function ReadClientGreetingHeader(h: seq<byte>): Header
    requires |h| == 4
  {
    var size := FromLE16(h[..2]);
    if size < 2 || size > MAX_CLIENT_SIZE then Rejected else Header(size - 2, FromLE16(h[2..]))
  }

  function ReadClientPreCryptHeader(h: seq<byte>): Header
    requires |h| == 6
  {
    var size := FromLE16(h[..2]);
    if size < 4 || size > MAX_CLIENT_SIZE then Rejected else Header(size - 4, FromLE32(h[2..]))
  }

  function ReadClientPostCryptHeader(h: seq<byte>): Header
    requires |h| == 4
  {
    var v := FromLE32(h);
    if v / OPCODE_SPACE > MAX_CLIENT_PAYLOAD then Rejected else Header(v / OPCODE_SPACE, v % OPCODE_SPACE)
  }

  // The layouts the three readers claim to understand, written from the sending side.

  function ClientGreetingHeader(size: nat, cmd: nat): seq<byte>
    requires size + 2 < 0x1_0000 && cmd < 0x1_0000
  {
    LE16(size + 2) + LE16(cmd)
  }

  function ClientPreCryptHeader(size: nat, cmd: nat): seq<byte>
    requires size + 4 < 0x1_0000 && cmd < 0x1_0000_0000
  {
    LE16(size + 4) + LE32(cmd)
  }

  function PackedHeader(size: nat, cmd: nat): (h: seq<byte>)
    requires size < 0x8_0000 && cmd < OPCODE_SPACE
    ensures |h| == 4
  {
    LE32(size * OPCODE_SPACE + cmd)
  }

  /** Each reader accepts exactly the headers its layout can produce within the size limit,
      and gives back the size and opcode they were made of. */
  lemma GreetingHeaderExact(h: seq<byte>, size: nat, cmd: nat)
    requires |h| == 4
    ensures ReadClientGreetingHeader(h) == Header(size, cmd) <==>
            size <= MAX_CLIENT_SIZE - 2 && cmd < 0x1_0000 && h == ClientGreetingHeader(size, cmd)
  {
    assert h == h[..2] + h[2..];
    if size <= MAX_CLIENT_SIZE - 2 && cmd < 0x1_0000 && h == ClientGreetingHeader(size, cmd) {
      assert h[..2] == LE16(size + 2) && h[2..] == LE16(cmd);
      LERoundTrip(size + 2);
      LERoundTrip(cmd);
    }
  }

  lemma PreCryptHeaderExact(h: seq<byte>, size: nat, cmd: nat)
    requires |h| == 6
    ensures ReadClientPreCryptHeader(h) == Header(size, cmd) <==>
            size <= MAX_CLIENT_SIZE - 4 && cmd < 0x1_0000_0000 && h == ClientPreCryptHeader(size, cmd)
  {
    assert h == h[..2] + h[2..];
    if size <= MAX_CLIENT_SIZE - 4 && cmd < 0x1_0000_0000 && h == ClientPreCryptHeader(size, cmd) {
      assert h[..2] == LE16(size + 4) && h[2..] == LE32(cmd);
      LERoundTrip(size + 4); LERoundTrip(cmd);
    }
  }

  lemma Unpacked(v: nat, size: nat, cmd: nat)
    requires v == size * OPCODE_SPACE + cmd && cmd < OPCODE_SPACE
    ensures v / OPCODE_SPACE == size && v % OPCODE_SPACE == cmd
  {
  }

  lemma PostCryptHeaderExact(h: seq<byte>, size: nat, cmd: nat)
    requires |h| == 4
    ensures ReadClientPostCryptHeader(h) == Header(size, cmd) <==>
            size <= MAX_CLIENT_PAYLOAD && cmd < OPCODE_SPACE && h == PackedHeader(size, cmd)
  {
    var v := FromLE32(h);
    if v == size * OPCODE_SPACE + cmd && cmd < OPCODE_SPACE {
      Unpacked(v, size, cmd);
    }
    if size <= MAX_CLIENT_PAYLOAD && cmd < OPCODE_SPACE && h == PackedHeader(size, cmd) {
      LERoundTrip(size * OPCODE_SPACE + cmd);
    }
  }

  // ---------------------------------------------------------------- headers the server sends

  predicate Framable(postCrypt: bool, size: nat, cmd: nat) {
    if postCrypt then size <= 0x7_FFFF && cmd <= 0x1FFF else size <= 65533 && cmd <= 0xFFFF
  }

  function ServerHeader(postCrypt: bool, size: nat, cmd: nat): (h: seq<byte>)
    requires Framable(postCrypt, size, cmd)
    ensures |h| == 4
  {
    if postCrypt then PackedHeader(size, cmd) else LE16(size + 2) + LE16(cmd)
  }

  method WriteServerPreCryptHeader(out: array<byte>, size: nat, cmd: nat)
    requires out.Length == 4 && size < 0x1_0000 && cmd < 0x1_0000
    modifies out
    ensures out[..] == LE16(size) + LE16(cmd)
  {
    out[0], out[1] := size % 0x100, size / 0x100 % 0x100;
    out[2], out[3] := cmd % 0x100, cmd / 0x100 % 0x100;
  }

  lemma PackedBytes(size: nat, cmd: nat, v: nat)
    requires size < 0x8_0000 && cmd < 0x2000 && v == size * 0x2000 + cmd
    ensures v < 0x1_0000_0000
    ensures PackedHeader(size, cmd) == [v % 0x100, v / 0x100 % 0x100, v / 0x1_0000 % 0x100, v / 0x100_0000 % 0x100]
  {
    assert v < 0x1_0000_0000;
    LE32Bytes(v);
    TopByte(v);
  }

  lemma TopByte(v: nat)
    requires v < 0x1_0000_0000
    ensures v / 0x100_0000 % 0x100 == v / 0x100_0000
  {
  }

  method WriteServerPostCryptHeader(out: array<byte>, size: nat, cmd: nat)
    requires out.Length == 4 && size < 0x8_0000 && cmd < 0x1_0000
    modifies out
    ensures out[..] == PackedHeader(size, cmd % OPCODE_SPACE)
  {
    var low := cmd % OPCODE_SPACE;
    var v := size * 0x2000 + low;
    PackedBytes(size, low, v);
    out[0], out[1] := v % 0x100, v / 0x100 % 0x100;
    out[2], out[3] := v / 0x1_0000 % 0x100, v / 0x100_0000 % 0x100;
  }

  /** Validates the full-width size and opcode, then writes the header into the caller's four
      bytes; a packet that does not fit leaves them alone. */
  method BuildServerHeader(postCrypt: bool, size: nat, cmd: nat, out: array<byte>) returns (ok: bool)
    requires out.Length == 4
    modifies out
    ensures ok <==> Framable(postCrypt, size, cmd)
    ensures out[..] == if ok then ServerHeader(postCrypt, size, cmd) else old(out[..])
  {
    hide LE16, LE32;
    if postCrypt {
      if size > 0x7_FFFF || cmd > 0x1FFF { return false; }
      WriteServerPostCryptHeader(out, size, cmd);
    } else {
      if size > 65533 || cmd > 0xFFFF { return false; }
      WriteServerPreCryptHeader(out, size + 2, cmd);
    }
    return true;
  }

  /** No two framable packets share a header, before or after the switch to encryption. */
  lemma ServerHeaderInjective(postCrypt: bool, size: nat, cmd: nat, size': nat, cmd': nat)
    requires Framable(postCrypt, size, cmd) && Framable(postCrypt, size', cmd')
    requires ServerHeader(postCrypt, size, cmd) == ServerHeader(postCrypt, size', cmd')
    ensures size == size' && cmd == cmd'
  {
    if postCrypt {
      LERoundTrip(size * OPCODE_SPACE + cmd);
      LERoundTrip(size' * OPCODE_SPACE + cmd');
    } else {
      var h := ServerHeader(postCrypt, size, cmd);
      assert h[..2] == LE16(size + 2) && h[2..] == LE16(cmd);
      assert h[..2] == LE16(size' + 2) && h[2..] == LE16(cmd');
      LERoundTrip(size + 2);
      LERoundTrip(cmd);
    }
  }
}
