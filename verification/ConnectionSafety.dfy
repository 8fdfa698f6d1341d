/** What holds of a connection over every run, whatever the peer sends, however the bytes are
    cut, and whatever the world answers. */
module ConnectionSafety {
  import opened WireCodec
  import opened Options
  import opened FrameReader
  import opened Draining
  import opened AuthSession
  import opened Handshake

  /** A summary of a trace, enough to say which orders of events are allowed. */
  datatype Seen = Seen(
    kinds: seq<HeaderKind>,       // the widths in which headers were read
    lookups: nat,
    attachCalls: nat,
    attached: seq<nat>,           // the session ids the world handed out
    detached: seq<nat>,
    foreign: bool,                // something was handed over under an id the world did not hand out
    anonymous: bool)              // an ordinary packet got past the handshake without a session
  {
    function See(e: Event): Seen {
      match e
      case HeaderRead(kind) => this.(kinds := kinds + [kind])
      case Lookup(_) => this.(lookups := lookups + 1)
      case KeyPrepared(_) => this
      case AttachCalled(_) => this.(attachCalls := attachCalls + 1)
      case Attached(id) => this.(attached := attached + [id])
      case Deliver(id, _) => this.(foreign := foreign || attached != [id])
      case Notify(id, _) => this.(foreign := foreign || attached != [id])
      case PingReported(id, _, _) => this.(foreign := foreign || attached != [id])
      case Detach(id) => this.(detached := detached + [id], foreign := foreign || attached != [id])
      case Unauthenticated(_) => this.(anonymous := true)
      case Wire(_) => this
      case CloseRequested => this
    }
  }

  function Observe(trace: seq<Event>): Seen {
    if trace == [] then Seen([], 0, 0, [], [], false, false)
    else Observe(trace[..|trace| - 1]).See(trace[|trace| - 1])
  }

  lemma ObserveNext(trace: seq<Event>, e: Event)
    ensures Observe(trace + [e]) == Observe(trace).See(e)
  {
    assert (trace + [e])[..|trace|] == trace;
  }

  /** The header width of the n-th frame: greeting, then the 6-byte form, then encrypted. */
  function ExpectedKind(n: nat): HeaderKind {
    if n == 0 then Greeting else if n == 1 then PreCrypt else PostCrypt
  }

  predicate InOrder(kinds: seq<HeaderKind>) {
    forall i :: 0 <= i < |kinds| ==> kinds[i] == ExpectedKind(i)
  }

  /** Always true of a connection. */
  ghost predicate Safe(c: Conn) {
    var o := Observe(c.trace);
    && InOrder(o.kinds)
    && o.lookups <= 1 && o.attachCalls <= o.lookups && |o.attached| <= o.attachCalls && |o.detached| <= |o.attached|
    && !o.foreign && !o.anonymous
    && (c.crypt == ACTIVE <==> c.state == AUTHED)
    && (c.session != 0 ==> o.attached == [c.session] && o.detached == [] && c.state == AUTHED)
    && (c.session == 0 ==> |o.detached| == |o.attached|)
    && c.recvPos == if |o.kinds| > 2 then 4 * (|o.kinds| - 2) else 0
  }

  /** Also true while the reader may still be asked for frames; `ahead` is 1 when a header has
      been taken off the stream and its payload has not. */
  ghost predicate Live(c: Conn, ahead: nat) {
    var o := Observe(c.trace);
    && Safe(c)
    && (c.state == GREETING || c.state == CHALLENGED ==> o.lookups == 0 && c.crypt == FRESH)
    && match c.state
       case GREETING => |o.kinds| == ahead
       case CHALLENGED => |o.kinds| == 1 + ahead
       case AUTHENTICATING => false
       case AUTHED => |o.kinds| >= 2 && c.session != 0
  }

  function Ahead(r: Reader): nat {
    if r.pending.Awaiting? then 1 else 0
  }

  // ---------------------------------------------------------------- single steps

  lemma EncodeKeeps(w: World, c: Conn, p: Packet)
    ensures var (c', out) := EncodeForSend(w, c, p);
            c' == c.(sendPos := c'.sendPos)
  {
  }

  /** Sending changes nothing the handshake depends on, except that it may close. */
  lemma SendKeeps(w: World, c: Conn, p: Packet)
    ensures var c' := SendPacket(w, c, p);
            && c' == c.(sendPos := c'.sendPos, closed := c'.closed, trace := c'.trace)
            && Observe(c'.trace) == Observe(c.trace)
            && (c.closed ==> c' == c)
  {
    hide EncodeForSend, Observe;
    EncodeKeeps(w, c, p);
    var (c', out) := EncodeForSend(w, c, p);
    ObserveNext(c.trace, CloseRequested);
    if out.Bytes? {
      ObserveNext(c.trace, Wire(out.wire));
    }
  }

  lemma RejectKeeps(w: World, c: Conn, status: AuthStatus)
    requires Safe(c)
    ensures Safe(RejectAuth(w, c, status).0) && !RejectAuth(w, c, status).1
  {
    SendKeeps(w, c, w.errorResponse(status));
  }

  lemma WowConnectionKeeps(w: World, c: Conn, payload: seq<byte>)
    requires Live(c, 1) && c.state == GREETING
    ensures var (c', go) := HandleWowConnection(w, c, payload);
            Safe(c') && (go ==> Live(c', 0))
  {
    if w.random.Some? {
      var (field, seed) := w.random.value;
      SendKeeps(w, c, Packet(SMSG_AUTH_CHALLENGE, AuthChallengePayload(field, seed)));
    }
  }

  lemma PingKeeps(w: World, c: Conn, payload: seq<byte>)
    requires Live(c, 0) && c.state == AUTHED
    ensures var (c', go) := HandlePing(w, c, payload);
            Safe(c') && (go ==> Live(c', 0))
  {
    hide SendPacket, FromLE32, Observe, InOrder;
    if |payload| >= 8 {
      var run := if !c.hadPing then c.fastPingRun
                 else if w.fastPing(c.pings) then (c.fastPingRun + 1) % 0x1_0000_0000
                 else 0;
      var e := PingReported(c.session, FromLE32(payload[..4]), run);
      ObserveNext(c.trace, e);
      var c1 := c.(hadPing := true, pings := c.pings + 1, fastPingRun := run).Did(e);
      assert Live(c1, 0);
      SendKeeps(w, c1, Packet(SMSG_PONG, payload[4..8]));
    }
  }

  lemma AuthSessionKeeps(w: World, c: Conn, payload: seq<byte>)
    requires Live(c, 1) && c.state == CHALLENGED
    ensures var (c', go) := HandleAuthSession(w, c.(state := AUTHENTICATING), payload);
            Safe(c') && (go ==> Live(c', 0))
  {
    var c0 := c.(state := AUTHENTICATING);
    var (_, decoded) := Parse(payload);
    if decoded == None {
      RejectKeeps(w, c0, Failed);
    } else {
      AuthenticateKeeps(w, c0, decoded.value);
    }
  }

  lemma AuthenticateKeeps(w: World, c: Conn, fields: Fields)
    requires Safe(c) && c.state == AUTHENTICATING && c.crypt == FRESH
    requires Observe(c.trace).lookups == 0 && |Observe(c.trace).kinds| == 2
    ensures var (c', go) := Authenticate(w, c, fields);
            Safe(c') && (go ==> Live(c', 0))
  {
    hide RejectAuth, Observe, InOrder;
    var found := w.lookup(fields);
    ObserveNext(c.trace, Lookup(fields));
    var c1 := c.Did(Lookup(fields));
    RejectKeeps(w, c1, found.status);
    RejectKeeps(w, c1, Failed);
    var c2 := c1.(crypt := Prepare(w, c1.crypt, found.sessionKey));
    RejectKeeps(w, c2, SystemError);
    ObserveNext(c2.trace, KeyPrepared(found.sessionKey));
    var prepared := c2.Did(KeyPrepared(found.sessionKey));
    ObserveNext(prepared.trace, AttachCalled(fields));
    var c3 := prepared.Did(AttachCalled(fields));
    RejectKeeps(w, c3, SystemError);
    ObserveNext(c3.trace, Attached(w.attach(fields)));
  }

  /** A complete frame is handled within the allowed orders; handling goes on only from a state
      in which the next header can be read. */
  lemma DispatchKeeps(w: World, c: Conn, f: Frame)
    requires Live(c, 1)
    ensures var (c', go) := Dispatch(w, c, f);
            Safe(c') && (go ==> Live(c', 0))
  {
    hide HandleWowConnection, HandlePing, HandleAuthSession, Observe;
    var packet := Packet(f.cmd % 0x1_0000, f.payload);
    if IsHandshakeOpcodeLegal(c.state, ClassOf(f.cmd)) {
      if f.cmd == MSG_WOW_CONNECTION {
        WowConnectionKeeps(w, c, f.payload);
      } else if f.cmd == CMSG_PING {
        PingKeeps(w, c, f.payload);
      } else if f.cmd == CMSG_AUTH_SESSION {
        AuthSessionKeeps(w, c, f.payload);
      } else {
        ObserveNext(c.trace, Notify(c.session, packet));
        ObserveNext(c.trace, Deliver(c.session, packet));
      }
    }
  }

  /** Reading a header moves on to the width that is due, and the receive cipher by four bytes
      exactly when it is active. */
  lemma DecryptKeeps(w: World, c: Conn, h: seq<byte>)
    requires Live(c, 0) && |h| == HeaderLength(KindOf(c))
    ensures var d := DecryptHeader(w, c, h);
            Live(d.ctx, 1) && KindOf(d.ctx) == KindOf(c)
  {
    ObserveNext(c.trace, HeaderRead(KindOf(c)));
  }

  lemma StepKeeps(w: World, r: Reader, c: Conn)
    requires w.Sane() && Live(c, Ahead(r))
    ensures var step := TakeFrame(r, KindOf(c), c, ReaderHooks(w));
            match step.status
            case NeedMore(c') => Live(c', Ahead(step.reader))
            case Ready(c', _) => Live(c', 1) && step.reader.pending.NoHeader?
            case Malformed(c', _, _) => Safe(c')
  {
    hide ParseHeader;
    HooksInPlace(w);
    if r.pending.NoHeader? && |r.unread| >= HeaderLength(KindOf(c)) {
      DecryptKeeps(w, c, r.unread[..HeaderLength(KindOf(c))]);
    }
  }

  lemma {:induction false} DrainKeeps(w: World, r: Reader, c: Conn)
    requires w.Sane() && InPlace(Endpoint(w).hooks) && Live(c, Ahead(r))
    ensures var d := Drain(r, c, Endpoint(w));
            Safe(d.ctx) && (d.end.Starved? ==> Live(d.ctx, Ahead(d.reader)))
    decreases r.Weight()
  {
    StepKeeps(w, r, c);
    var step := TakeFrame(r, KindOf(c), c, ReaderHooks(w));
    if step.status.Ready? {
      DispatchKeeps(w, step.status.ctx, step.status.frame);
      var (c', go) := Dispatch(w, step.status.ctx, step.status.frame);
      if go {
        DrainKeeps(w, step.reader, c');
      }
    }
  }

  // ---------------------------------------------------------------- whole runs

  ghost predicate LinkSafe(l: Link) {
    Safe(l.conn) && (!l.conn.closed ==> Live(l.conn, Ahead(l.reader)))
  }

  lemma ConnectKeeps(w: World, c: Conn)
    ensures var c' := OnConnect(w, c);
            && c' == c.(sendPos := c'.sendPos, closed := c'.closed, trace := c'.trace)
            && Observe(c'.trace) == Observe(c.trace)
            && (c.closed ==> c'.closed)
  {
    hide EncodeForSend, SERVER_GREETING;
    var p := Packet(MSG_WOW_CONNECTION, SERVER_GREETING);
    EncodeKeeps(w, c, p);
    var (c', out) := EncodeForSend(w, c, p);
    ObserveNext(c'.trace, CloseRequested);
    if out.Bytes? {
      ObserveNext(c'.trace, Wire(out.wire));
    }
  }

  lemma ApplyKeeps(w: World, l: Link, op: Op)
    requires w.Sane() && LinkSafe(l)
    ensures LinkSafe(Apply(w, l, op))
  {
    hide OnConnect, SendPacket, Observe, TakeFrame, Drain;
    match op
    case Connect => ConnectKeeps(w, l.conn);
    case Data(bytes) =>
      if !l.conn.closed {
        HooksInPlace(w);
        DrainKeeps(w, l.reader.Append(bytes), l.conn);
        ObserveNext(Drain(l.reader.Append(bytes), l.conn, Endpoint(w)).ctx.trace, CloseRequested);
      }
    case Send(packet) => SendKeeps(w, l.conn, packet);
    case CloseByWorld => ObserveNext(l.conn.trace, CloseRequested);
    case TransportGone => ObserveNext(l.conn.trace, Detach(l.conn.session));
  }

  /** Over every run of a connection, from its creation: headers are read in the widths greeting,
      6-byte, encrypted, encrypted, ...; at most one account lookup and one attach happen, in that
      order; the cipher is active exactly when the peer is authenticated; everything delivered goes
      to the one session the world handed out; no ordinary packet gets through without a session;
      that session is detached at most once; and the receive keystream has advanced by exactly
      four bytes for each encrypted header. */
  lemma {:induction false} EveryRunIsSafe(w: World, ops: seq<Op>)
    requires w.Sane()
    ensures Safe(Run(w, FRESH_LINK, ops).conn)
  {
    RunKeeps(w, FRESH_LINK, ops);
  }

  lemma {:induction false} RunKeeps(w: World, l: Link, ops: seq<Op>)
    requires w.Sane() && LinkSafe(l)
    ensures LinkSafe(Run(w, l, ops))
    decreases |ops|
  {
    if ops != [] {
      ApplyKeeps(w, l, ops[0]);
      RunKeeps(w, Apply(w, l, ops[0]), ops[1..]);
    }
  }

  /** When the transport is gone the connection is closed and has no session any more: the one it had, if
      it had one, has been detached. */
  lemma GoneMeansDetached(w: World, l: Link)
    requires w.Sane() && LinkSafe(l)
    ensures var c := Apply(w, l, TransportGone).conn;
            c.closed && c.session == 0 && |Observe(c.trace).detached| == |Observe(c.trace).attached|
  {
    ApplyKeeps(w, l, TransportGone);
    hide Observe, InOrder, Live;
  }

  /** Once the connection has been closed, by anyone, later input and later sends do nothing. */
  lemma {:induction false} ClosedIsFinal(w: World, l: Link, ops: seq<Op>)
    requires w.Sane() && l.conn.closed
    requires forall i :: 0 <= i < |ops| ==> ops[i].Data? || ops[i].Send?
    ensures Run(w, l, ops) == l
    decreases |ops|
  {
    if ops != [] {
      ClosedIsFinal(w, l, ops[1..]);
    }
  }
}
