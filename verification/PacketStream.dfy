/** What the peer reads of a sequence of packets sent on an authenticated connection
    (EncodeForSend and SendPacket of src/proto/ClientConnection.cpp, read back by the frame reader
    of src/proto/MopFrameReader.h running with the matching cipher). */
module PacketStream {
  import opened WireCodec
  import opened Options
  import opened FrameReader
  import opened Draining
  import opened Handshake

  /** The peer's side: how far its cipher has advanced, and the frames it has received. */
  datatype Peer = Peer(pos: nat, frames: seq<Frame>)

  type Decipher = (nat, seq<byte>) -> seq<byte>

  function PeerHooks(decipher: Decipher): Hooks<Peer> {
    Hooks((p: Peer, h) => Deciphered(p.(pos := p.pos + |h|), true, decipher(p.pos, h)), (p, cmd, preCrypt) => true)
  }

  function PeerSide(decipher: Decipher): Consumer<Peer> {
    Consumer(p => PostCrypt, PeerHooks(decipher), (p: Peer, f) => (p.(frames := p.frames + [f]), true))
  }

  /** The peer's cipher undoes ours at every position of the keystream. */
  ghost predicate Matching(w: World, decipher: Decipher) {
    && w.Sane()
    && (forall pos: nat, h: seq<byte> :: |decipher(pos, h)| == |h|)
    && (forall pos: nat, h: seq<byte> :: w.encrypt(pos, h).0 && decipher(pos, w.encrypt(pos, h).1) == h)
  }

  // ---------------------------------------------------------------- the bytes sent

  predicate Fits(p: Packet) {
    Framable(true, |p.body|, p.opcode)
  }

  /** The bytes `packets` turn into, with the cipher at `pos` to begin with. */
  function StreamOf(w: World, pos: nat, packets: seq<Packet>): seq<byte>
    decreases |packets|
  {
    if packets == [] then []
    else if !Fits(packets[0]) then StreamOf(w, pos, packets[1..])
    else
      var p := packets[0];
      w.encrypt(pos, ServerHeader(true, |p.body|, p.opcode)).1 + p.body + StreamOf(w, pos + 4, packets[1..])
  }

  /** What of `packets` can be framed at all. */
  function Framed(packets: seq<Packet>): seq<Frame> {
    if packets == [] then []
    else if !Fits(packets[0]) then Framed(packets[1..])
    else [Frame(packets[0].opcode, packets[0].body)] + Framed(packets[1..])
  }

  /** The reader takes bodies of this size. */
  predicate Short(p: Packet) {
    Fits(p) ==> |p.body| <= MAX_CLIENT_PAYLOAD
  }

  predicate AllShort(packets: seq<Packet>) {
    forall p :: p in packets ==> Short(p)
  }

  /** The packets before the first that is too long for the reader. */
  function ShortPrefix(packets: seq<Packet>): seq<Packet> {
    if packets == [] || !Short(packets[0]) then [] else [packets[0]] + ShortPrefix(packets[1..])
  }

  lemma {:induction false} PrefixIsLess(packets: seq<Packet>)
    ensures AllShort(packets) ==> ShortPrefix(packets) == packets
    ensures !AllShort(packets) ==> |Framed(ShortPrefix(packets))| < |Framed(packets)|
  {
    if packets != [] && Short(packets[0]) {
      var p, rest := packets[0], packets[1..];
      PrefixIsLess(rest);
      assert packets == [p] + rest;
      assert ShortPrefix(packets)[0] == p && ShortPrefix(packets)[1..] == ShortPrefix(rest);
    } else if packets != [] {
      assert packets[0] in packets;
    }
  }

  function SendAll(w: World, c: Conn, packets: seq<Packet>): Conn
    decreases |packets|
  {
    if packets == [] then c else SendAll(w, SendPacket(w, c, packets[0]), packets[1..])
  }

  function Wires(trace: seq<Event>): seq<byte> {
    if trace == [] then []
    else
      var e := trace[|trace| - 1];
      Wires(trace[..|trace| - 1]) + if e.Wire? then e.bytes else []
  }

  lemma WiresNext(trace: seq<Event>, e: Event)
    ensures Wires(trace + [e]) == Wires(trace) + if e.Wire? then e.bytes else []
  {
    assert (trace + [e])[..|trace|] == trace;
  }

  ghost predicate Ready(w: World, c: Conn) {
    c.crypt == ACTIVE && !c.closed && w.hasSender
  }

  /** A packet that fits goes out as one enciphered header and its body and moves the keystream on
      by four bytes; one that does not fit leaves no byte and uses no keystream. */
  lemma SendOne(w: World, decipher: Decipher, c: Conn, p: Packet)
    requires Matching(w, decipher) && Ready(w, c)
    ensures var c' := SendPacket(w, c, p);
            Ready(w, c') &&
            if Fits(p) then
              && c'.sendPos == c.sendPos + 4
              && Wires(c'.trace) == Wires(c.trace) + (w.encrypt(c.sendPos, ServerHeader(true, |p.body|, p.opcode)).1 + p.body)
            else c' == c
  {
    if Fits(p) {
      var header := w.encrypt(c.sendPos, ServerHeader(true, |p.body|, p.opcode)).1;
      WiresNext(c.trace, Wire(header + p.body));
    }
  }

  lemma {:induction false} SendAllStreams(w: World, decipher: Decipher, c: Conn, packets: seq<Packet>)
    requires Matching(w, decipher) && Ready(w, c)
    ensures var c' := SendAll(w, c, packets);
            && Ready(w, c') && c'.sendPos == c.sendPos + 4 * |Framed(packets)|
            && Wires(c'.trace) == Wires(c.trace) + StreamOf(w, c.sendPos, packets)
    decreases |packets|
  {
    hide SendPacket, ServerHeader, Wires;
    if packets == [] {
      assert Wires(c.trace) + [] == Wires(c.trace);
    } else {
      SendOne(w, decipher, c, packets[0]);
      SendAllStreams(w, decipher, SendPacket(w, c, packets[0]), packets[1..]);
      if Fits(packets[0]) {
        var head := w.encrypt(c.sendPos, ServerHeader(true, |packets[0].body|, packets[0].opcode)).1 + packets[0].body;
        var tail := StreamOf(w, c.sendPos + 4, packets[1..]);
        assert Wires(c.trace) + head + tail == Wires(c.trace) + (head + tail);
      }
    }
  }

  // ---------------------------------------------------------------- the bytes read

  /** Reading one packet off the front of the stream. */
  lemma ReadOne(w: World, decipher: Decipher, peer: Peer, p: Packet, rest: seq<byte>)
    requires Matching(w, decipher) && Fits(p) && |p.body| <= MAX_CLIENT_PAYLOAD
    requires InPlace(PeerHooks(decipher))
    ensures var wire := w.encrypt(peer.pos, ServerHeader(true, |p.body|, p.opcode)).1 + p.body;
            TakeFrame(Reader(NoHeader, wire + rest), PostCrypt, peer, PeerHooks(decipher)) ==
            Step(Reader(NoHeader, rest), Status.Ready(peer.(pos := peer.pos + 4), Frame(p.opcode, p.body)))
  {
    var h := ServerHeader(true, |p.body|, p.opcode);
    var cipher := w.encrypt(peer.pos, h).1;
    var unread := cipher + p.body + rest;
    assert unread[..4] == cipher && unread[4..] == p.body + rest;
    ParsesBack(p);
    hide ParseHeader, ServerHeader;
    assert TakeHeader(cipher, PostCrypt, peer, PeerHooks(decipher)) == Accepted(peer.(pos := peer.pos + 4), p.opcode, |p.body|);
    assert (p.body + rest)[..|p.body|] == p.body && (p.body + rest)[|p.body|..] == rest;
  }

  lemma ParsesBack(p: Packet)
    requires Fits(p)
    ensures ParseHeader(PostCrypt, ServerHeader(true, |p.body|, p.opcode)) ==
            if |p.body| <= MAX_CLIENT_PAYLOAD then Header(|p.body|, p.opcode) else Rejected
  {
    var h := ServerHeader(true, |p.body|, p.opcode);
    PostCryptHeaderExact(h, |p.body|, p.opcode);
    LERoundTrip(|p.body| * OPCODE_SPACE + p.opcode);
  }

  lemma DrainNothing(decipher: Decipher, peer: Peer)
    requires InPlace(PeerSide(decipher).hooks)
    ensures Drain(EMPTY, peer, PeerSide(decipher)) == Drained(EMPTY, peer, Starved)
  {
  }

  /** Draining the bytes of `packets` yields exactly the framable ones, in order, unchanged. */
  lemma {:induction false} StreamReadBack(w: World, decipher: Decipher, peer: Peer, packets: seq<Packet>)
    requires Matching(w, decipher) && InPlace(PeerSide(decipher).hooks)
    requires AllShort(packets)
    ensures Drain(Reader(NoHeader, StreamOf(w, peer.pos, packets)), peer, PeerSide(decipher)) ==
            Drained(EMPTY, Peer(peer.pos + 4 * |Framed(packets)|, peer.frames + Framed(packets)), Starved)
    decreases |packets|
  {
    hide TakeFrame, ServerHeader;
    if packets == [] {
      DrainNothing(decipher, peer);
      assert peer.frames + [] == peer.frames;
    } else {
      var p, rest := packets[0], packets[1..];
      if Fits(p) {
        assert Short(p);
        var peer' := Peer(peer.pos + 4, peer.frames + [Frame(p.opcode, p.body)]);
        ReadOne(w, decipher, peer, p, StreamOf(w, peer.pos + 4, rest));
        StreamReadBack(w, decipher, peer', rest);
        assert peer'.frames + Framed(rest) == peer.frames + Framed(packets);
      } else {
        StreamReadBack(w, decipher, peer, rest);
      }
    }
  }

  /** A packet that fits the frame but is too long for the reader is sent, and the reader gives up on
      its header. */
  lemma LongerIsRefused(w: World, decipher: Decipher, peer: Peer, p: Packet, rest: seq<byte>)
    requires Matching(w, decipher) && InPlace(PeerSide(decipher).hooks)
    requires Fits(p) && |p.body| > MAX_CLIENT_PAYLOAD
    ensures var wire := w.encrypt(peer.pos, ServerHeader(true, |p.body|, p.opcode)).1 + p.body;
            var d := Drain(Reader(NoHeader, wire + rest), peer, PeerSide(decipher));
            d.end == Broken(BadSize) && d.ctx.frames == peer.frames
  {
    var h := ServerHeader(true, |p.body|, p.opcode);
    var cipher := w.encrypt(peer.pos, h).1;
    var unread := cipher + p.body + rest;
    assert unread[..4] == cipher;
    ParsesBack(p);
    hide ParseHeader, ServerHeader;
    assert TakeHeader(cipher, PostCrypt, peer, PeerHooks(decipher)).Refused?;
  }

  /** With a packet that is too long for the reader among them, exactly the framable packets before it
      are read; then the reader gives up. */
  lemma {:induction false} StreamReadUpTo(w: World, decipher: Decipher, peer: Peer, packets: seq<Packet>)
    requires Matching(w, decipher) && InPlace(PeerSide(decipher).hooks) && !AllShort(packets)
    ensures var d := Drain(Reader(NoHeader, StreamOf(w, peer.pos, packets)), peer, PeerSide(decipher));
            d.end == Broken(BadSize) && d.ctx.frames == peer.frames + Framed(ShortPrefix(packets))
    decreases |packets|
  {
    hide TakeFrame, ServerHeader;
    var p, rest := packets[0], packets[1..];
    if !Short(p) {
      LongerIsRefused(w, decipher, peer, p, StreamOf(w, peer.pos + 4, rest));
      assert peer.frames + [] == peer.frames;
    } else {
      assert packets == [p] + rest;
      var before := ShortPrefix(rest);
      assert ShortPrefix(packets)[0] == p && ShortPrefix(packets)[1..] == before;
      if Fits(p) {
        var peer' := Peer(peer.pos + 4, peer.frames + [Frame(p.opcode, p.body)]);
        ReadOne(w, decipher, peer, p, StreamOf(w, peer.pos + 4, rest));
        StreamReadUpTo(w, decipher, peer', rest);
        assert peer'.frames + Framed(before) == peer.frames + ([Frame(p.opcode, p.body)] + Framed(before));
      } else {
        StreamReadUpTo(w, decipher, peer, rest);
      }
    }
  }

  /** What is sent is what is read, exactly as long as no packet is too long for the reader: however the
      transport cuts the bytes that sending `packets` puts on the wire, the peer receives those packets
      that fit the 13-bit frame, in order, up to the first that is too long. The dropped ones do not
      disturb the keystream, so both ends finish at the same position. */
  lemma SentIsReceived(w: World, decipher: Decipher, c: Conn, packets: seq<Packet>, pieces: seq<seq<byte>>)
    requires Matching(w, decipher) && Ready(w, c) && InPlace(PeerSide(decipher).hooks)
    requires Wires(SendAll(w, c, packets).trace) == Wires(c.trace) + Join(pieces)
    ensures var d := Feed(EMPTY, Peer(c.sendPos, []), PeerSide(decipher), pieces);
            && (d.ctx.frames == Framed(packets) <==> AllShort(packets))
            && d.ctx.frames == Framed(ShortPrefix(packets))
            && (AllShort(packets) ==> d == Drained(EMPTY, Peer(SendAll(w, c, packets).sendPos, Framed(packets)), Starved))
            && (!AllShort(packets) ==> d.end == Broken(BadSize))
  {
    hide StreamOf, SendAll, Feed, Drain;
    DrainNothing(decipher, Peer(c.sendPos, []));
    var stream, peer := StreamOf(w, c.sendPos, packets), Peer(c.sendPos, []);
    SendAllStreams(w, decipher, c, packets);
    SamePrefix(Wires(c.trace), Join(pieces), stream);
    PrefixIsLess(packets);
    assert [] + Framed(packets) == Framed(packets) && [] + Framed(ShortPrefix(packets)) == Framed(ShortPrefix(packets));
    if AllShort(packets) {
      StreamReadBack(w, decipher, peer, packets);
    } else {
      StreamReadUpTo(w, decipher, peer, packets);
    }
    assert EMPTY.Append(stream) == Reader(NoHeader, stream);
    hide AllShort;
    CutsDoNotMatter(EMPTY, peer, PeerSide(decipher), pieces);
  }

  lemma SamePrefix(a: seq<byte>, b: seq<byte>, c: seq<byte>)
    requires a + b == a + c
    ensures b == c
  {
    assert b == (a + b)[|a|..];
    assert c == (a + c)[|a|..];
  }

  // ---------------------------------------------------------------- an XOR keystream

  /** Exclusive or of the n lowest bits. */
  function XorBits(a: nat, b: nat, n: nat): (r: nat)
    ensures n <= 8 ==> r < Limit(n)
  {
    if n == 0 then 0 else XorBit(a % 2, b % 2) + 2 * XorBits(a / 2, b / 2, n - 1)
  }

  function XorBit(p: nat, q: nat): nat {
    (p + q) % 2
  }

  function Limit(n: nat): nat {
    if n == 0 then 1 else 2 * Limit(n - 1)
  }

  lemma {:induction false} XorBitsUndone(a: nat, b: nat, n: nat)
    requires a < Limit(n)
    ensures XorBits(XorBits(a, b, n), b, n) == a
  {
    if n > 0 {
      var p, q, a', b' := a % 2, b % 2, a / 2, b / 2;
      XorBitsUndone(a', b', n - 1);
      XorBitUndone(p, q);
      XorStep(a', p, b', q, n);
      XorStep(XorBits(a', b', n - 1), XorBit(p, q), b', q, n);
    }
  }

  lemma XorStep(a: nat, p: nat, b: nat, q: nat, n: nat)
    requires n > 0 && p < 2 && q < 2
    ensures XorBits(2 * a + p, 2 * b + q, n) == 2 * XorBits(a, b, n - 1) + XorBit(p, q)
  {
  }

  lemma XorBitUndone(p: nat, q: nat)
    requires p < 2 && q < 2
    ensures XorBit(p, q) < 2 && XorBit(XorBit(p, q), q) == p
  {
  }

  function Xor(a: byte, b: byte): byte {
    assert Limit(8) == 0x100;
    XorBits(a, b, 8)
  }

  /** A stream cipher such as ARC4: byte i of the keystream is combined with byte i of the input. */
  function XorAt(keystream: nat -> byte, pos: nat, h: seq<byte>): (r: seq<byte>)
    ensures |r| == |h|
  {
    seq(|h|, i requires 0 <= i < |h| => Xor(h[i], keystream(pos + i)))
  }

  lemma XorUndone(a: byte, b: byte)
    ensures Xor(Xor(a, b), b) == a
  {
    assert Limit(8) == 0x100;
    XorBitsUndone(a, b, 8);
  }

  /** Two ends that share such a keystream match, so SentIsReceived applies to them. */
  lemma KeystreamMatches(w: World, keystream: nat -> byte)
    requires w.Sane()
    requires forall pos: nat, h: seq<byte> :: w.encrypt(pos, h) == (true, XorAt(keystream, pos, h))
    ensures Matching(w, (pos, h) => XorAt(keystream, pos, h))
    ensures InPlace(PeerSide((pos, h) => XorAt(keystream, pos, h)).hooks)
  {
    forall pos: nat, h: seq<byte> ensures XorAt(keystream, pos, XorAt(keystream, pos, h)) == h {
      var e := XorAt(keystream, pos, h);
      forall i | 0 <= i < |h| ensures XorAt(keystream, pos, e)[i] == h[i] {
        XorUndone(h[i], keystream(pos + i));
      }
    }
  }
}
