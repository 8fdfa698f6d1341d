/** One client connection (src/proto/ClientConnection.cpp): the object the transport and the
    world talk to. Every method is proved to do to the connection's state, and to put on its
    trace, exactly what the functions of Handshake.dfy say. */
module ClientConnection {
  import opened WireCodec
  import opened Options
  import opened FrameReader
  import opened Draining
  import opened Handshake
  import AuthSession

  class ClientConnection {
    const world: World
    const frameReader: MopFrameReader
    var connState: ConnectionState
    var crypt: CryptState
    var recvPos: nat
    var sendPos: nat
    var session: nat
    var closed: bool
    var seed: nat
    var hadPing: bool
    var pings: nat
    var fastPingRun: nat
    var trace: seq<Event>

    /** The fields as one value, for the reader hooks, which are handed the whole connection. */
    function Snapshot(): Conn
      reads this
    {
      Conn(connState, crypt, recvPos, sendPos, session, closed, seed, hadPing, pings, fastPingRun, trace)
    }

    ghost predicate Valid()
      reads this, frameReader
    {
      world.Sane() && frameReader.Valid()
    }

    ghost function State(): Link
      reads this, frameReader
      requires Valid()
    {
      Link(Snapshot(), frameReader.State())
    }

    constructor (world: World)
      requires world.Sane()
      ensures Valid() && this.world == world && fresh(frameReader)
      ensures State() == FRESH_LINK
    {
      this.world := world;
      frameReader := new MopFrameReader();
      connState, crypt, recvPos, sendPos, session, closed := GREETING, FRESH, 0, 0, 0, false;
      seed, hadPing, pings, fastPingRun, trace := 0, false, 0, 0, [];
    }

    method Restore(c: Conn)
      modifies this
      ensures Snapshot() == c
    {
      connState, crypt, recvPos, sendPos, session, closed := c.state, c.crypt, c.recvPos, c.sendPos, c.session, c.closed;
      seed, hadPing, pings, fastPingRun, trace := c.seed, c.hadPing, c.pings, c.fastPingRun, c.trace;
    }

    // -------------------------------------------------------------- sending

    method EncodeForSend(packet: Packet) returns (out: Encoded)
      modifies this`sendPos
      ensures (Snapshot(), out) == Handshake.EncodeForSend(world, old(Snapshot()), packet)
    {
      var header := new byte[4];
      var postCrypt := crypt == ACTIVE;
      var fits := BuildServerHeader(postCrypt, |packet.body|, packet.opcode, header);
      if !fits { return Dropped; }
      var bytes := header[..];
      if postCrypt {
        var (ok, cipher) := world.encrypt(sendPos, bytes);
        sendPos := sendPos + 4;
        if !ok { return Fatal; }
        bytes := cipher;
      }
      return Bytes(bytes + packet.body);
    }

    method SendPacket(packet: Packet)
      modifies this
      ensures Snapshot() == Handshake.SendPacket(world, old(Snapshot()), packet)
    {
      if closed || !world.hasSender { return; }
      var out := EncodeForSend(packet);
      if out.Fatal? {
        Close();
        return;
      }
      if out.Bytes? {
        trace := trace + [Wire(out.wire)];
      }
    }

    method Close()
      modifies this`closed, this`trace
      ensures Snapshot() == old(Snapshot()).Close()
    {
      closed := true;
      trace := trace + [CloseRequested];
    }

    method OnConnect()
      modifies this
      ensures Snapshot() == Handshake.OnConnect(world, old(Snapshot()))
    {
      var out := EncodeForSend(Packet(MSG_WOW_CONNECTION, SERVER_GREETING));
      if !out.Bytes? {
        Close();
        return;
      }
      trace := trace + [Wire(out.wire)];
    }

    method OnClose()
      modifies this
      ensures Snapshot() == Handshake.OnClose(old(Snapshot()))
    {
      closed := true;
      if session != 0 {
        trace := trace + [Detach(session)];
        session := 0;
      }
    }

    // -------------------------------------------------------------- receiving

    method OnData(data: seq<byte>)
      requires Valid()
      modifies this, frameReader
      ensures Valid()
      ensures State() == Handshake.OnData(world, old(State()), data)
    {
      if closed { return; }
      HooksInPlace(world);
      frameReader.Push(data);
      ghost var start := Drain(frameReader.State(), Snapshot(), Endpoint(world));
      while true
        invariant Valid()
        invariant Drain(frameReader.State(), Snapshot(), Endpoint(world)) == start
        decreases frameReader.State().Weight()
      {
        var kind := if crypt == ACTIVE then PostCrypt else if connState == GREETING then Greeting else PreCrypt;
        var status := frameReader.TryFrame(kind, Snapshot(), ReaderHooks(world));
        Restore(status.ctx);
        if status.NeedMore? { break; }
        if status.Malformed? {
          Close();
          break;
        }
        var go := DispatchFrame(status.frame);
        if !go {
          Close();
          break;
        }
      }
    }

    method DispatchFrame(frame: Frame) returns (go: bool)
      modifies this
      ensures (Snapshot(), go) == Dispatch(world, old(Snapshot()), frame)
    {
      var packet := Packet(frame.cmd % 0x1_0000, frame.payload);
      if !IsHandshakeOpcodeLegal(connState, ClassOf(frame.cmd)) { return false; }
      if frame.cmd == MSG_WOW_CONNECTION {
        go := HandleWowConnection(frame.payload);
      } else if frame.cmd == CMSG_PING {
        go := HandlePing(frame.payload);
      } else if frame.cmd == CMSG_AUTH_SESSION {
        connState := AUTHENTICATING;
        go := HandleAuthSession(frame.payload);
      } else if frame.cmd == CMSG_KEEP_ALIVE || frame.cmd == CMSG_LOG_DISCONNECT {
        trace := trace + [Notify(session, packet)];
        go := true;
      } else if session == 0 {
        trace := trace + [Unauthenticated(frame.cmd)];
        go := false;
      } else {
        trace := trace + [Deliver(session, packet)];
        go := true;
      }
    }

    method ReadCString(payload: seq<byte>) returns (s: seq<byte>)
      ensures s == CString(payload)
    {
      s := [];
      var i := 0;
      while i < |payload| && payload[i] != 0
        invariant i <= |payload|
        invariant s + CString(payload[i..]) == CString(payload)
      {
        s := s + [payload[i]];
        i := i + 1;
      }
    }

    method HandleWowConnection(payload: seq<byte>) returns (go: bool)
      modifies this
      ensures (Snapshot(), go) == Handshake.HandleWowConnection(world, old(Snapshot()), payload)
    {
      var greeting := ReadCString(payload);
      if greeting != CLIENT_GREETING { return false; }
      go := SendAuthChallenge();
    }

    method SendAuthChallenge() returns (go: bool)
      modifies this
      ensures world.random == None ==> !go && Snapshot() == old(Snapshot())
      ensures world.random.Some? ==>
                var (field, s) := world.random.value;
                var c := Handshake.SendPacket(world, old(Snapshot()), Packet(SMSG_AUTH_CHALLENGE, AuthChallengePayload(field, s)));
                if c.closed then !go && Snapshot() == c
                else go && Snapshot() == c.(seed := s, state := CHALLENGED)
    {
      if world.random == None { return false; }
      var (field, s) := world.random.value;
      SendPacket(Packet(SMSG_AUTH_CHALLENGE, AuthChallengePayload(field, s)));
      if closed { return false; }
      seed := s;
      connState := CHALLENGED;
      return true;
    }

    method RejectAuth(status: AuthStatus)
      modifies this
      ensures (Snapshot(), false) == Handshake.RejectAuth(world, old(Snapshot()), status)
    {
      SendPacket(world.errorResponse(status));
    }

    /** AuthCrypt::Prepare: possible once, from a fresh object. */
    method PrepareCrypt(key: seq<byte>) returns (ok: bool)
      modifies this`crypt
      ensures crypt == Prepare(world, old(crypt), key)
      ensures ok <==> old(crypt) == FRESH && crypt == PREPARED
    {
      if crypt != FRESH {
        if crypt == PREPARED { crypt := FAILED; }
        return false;
      }
      crypt := FAILED;
      if !world.prepare(key) { return false; }
      crypt := PREPARED;
      return true;
    }

    /** Run by the world while it publishes the session: the only way the cipher goes active. */
    method CommitCrypt()
      modifies this`crypt, this`connState
      ensures crypt == Activate(old(crypt)) && connState == AUTHED
    {
      if crypt == PREPARED { crypt := ACTIVE; }
      connState := AUTHED;
    }

    method HandleAuthSession(payload: seq<byte>) returns (go: bool)
      modifies this
      ensures (Snapshot(), go) == Handshake.HandleAuthSession(world, old(Snapshot()), payload)
    {
      hide Handshake.Authenticate, Handshake.SendPacket;
      var request := new AuthSession.AuthRequest(AuthSession.Fields([], 0, 0, [], [], false));
      var buffer := new AuthSession.ByteBuffer(payload);
      var result := AuthSession.DecodeAuthSession(buffer, request);
      assert payload[0..] == payload;
      if result != AuthSession.Ok {
        RejectAuth(Failed);
        return false;
      }
      go := Authenticate(request.fields);
    }

    /** The rest of HandleAuthSession: account lookup, proof, cipher, session, in this order. */
    method Authenticate(fields: AuthSession.Fields) returns (go: bool)
      modifies this
      ensures (Snapshot(), go) == Handshake.Authenticate(world, old(Snapshot()), fields)
    {
      hide Handshake.RejectAuth, Handshake.AttachSession;
      trace := trace + [Lookup(fields)];
      var found := world.lookup(fields);
      if found.status != Approved {
        RejectAuth(found.status);
        return false;
      }
      var proof := world.proof(fields.account, fields.clientSeed, seed, found.sessionKey);
      if proof != fields.digest {
        RejectAuth(Failed);
        return false;
      }
      var prepared := PrepareCrypt(found.sessionKey);
      if !prepared {
        RejectAuth(SystemError);
        return false;
      }
      trace := trace + [KeyPrepared(found.sessionKey)];
      go := AttachSession(fields);
    }

    /** The last part of onAuthSession: the world takes the connection over, or does not. */
    method AttachSession(fields: AuthSession.Fields) returns (go: bool)
      modifies this
      ensures (Snapshot(), go) == Handshake.AttachSession(world, old(Snapshot()), fields)
    {
      hide Handshake.RejectAuth;
      trace := trace + [AttachCalled(fields)];
      var id := world.attach(fields);
      if id == 0 {
        RejectAuth(SystemError);
        return false;
      }
      CommitCrypt();
      session := id;
      trace := trace + [Attached(id)];
      return true;
    }

    method HandlePing(payload: seq<byte>) returns (go: bool)
      modifies this
      ensures (Snapshot(), go) == Handshake.HandlePing(world, old(Snapshot()), payload)
    {
      hide Handshake.SendPacket, FromLE32;
      if |payload| < 8 { return false; }
      var latency, ping := FromLE32(payload[..4]), payload[4..8];
      var n := pings;
      if hadPing {
        fastPingRun := if world.fastPing(n) then (fastPingRun + 1) % 0x1_0000_0000 else 0;
      }
      hadPing, pings := true, pings + 1;
      trace := trace + [PingReported(session, latency, fastPingRun)];
      if !world.acceptPing(n) { return false; }
      SendPacket(Packet(SMSG_PONG, ping));
      return true;
    }
  }
}
