/** The login protocol of one client connection (src/proto/ClientConnection.cpp,
    src/proto/MopHandshake.h, src/shared/Auth/AuthCrypt.h), as functions on the connection's
    state. The class in ClientConnection.dfy is proved to follow them step by step.

    What the connection cannot decide itself - the cipher, the random source, the clock, the
    account database and the world - is a `World`: a set of answers, indexed so that each
    question asked in a run has its own.
 */
module Handshake {
  import opened WireCodec
  import opened Options
  import opened FrameReader
  import opened Draining
  import opened AuthSession

  const MSG_WOW_CONNECTION := 0x4F57
  const SMSG_AUTH_CHALLENGE := 0x0949
  const CMSG_AUTH_SESSION := 0x00B2
  const CMSG_PING := 0x0012
  const SMSG_PONG := 0x1969
  const CMSG_KEEP_ALIVE := 0x1A87
  const CMSG_LOG_DISCONNECT := 0x10B3

  function Ascii(s: string): seq<byte> {
    seq(|s|, i requires 0 <= i < |s| => s[i] as int % 0x100)
  }

  const CLIENT_GREETING := Ascii("RLD OF WARCRAFT CONNECTION - CLIENT TO SERVER")
  const SERVER_GREETING := Ascii("RLD OF WARCRAFT CONNECTION - SERVER TO CLIENT") + [0]

  datatype ConnectionState = GREETING | CHALLENGED | AUTHENTICATING | AUTHED

  datatype OpcodeClass = OPC_GREETING | OPC_AUTH_SESSION | OPC_NORMAL

  function ClassOf(cmd: nat): OpcodeClass {
    if cmd == MSG_WOW_CONNECTION then OPC_GREETING
    else if cmd == CMSG_AUTH_SESSION then OPC_AUTH_SESSION
    else OPC_NORMAL
  }

  predicate IsHandshakeOpcodeLegal(st: ConnectionState, cl: OpcodeClass) {
    match cl
    case OPC_GREETING => st == GREETING
    case OPC_AUTH_SESSION => st == CHALLENGED
    case OPC_NORMAL => st == AUTHED
  }

  datatype CryptState = FRESH | FAILED | PREPARED | ACTIVE

  datatype Packet = Packet(opcode: nat, body: seq<byte>)

  datatype AuthStatus = Approved | Failed | SystemError | Denied(code: nat)

  datatype AuthLookup = AuthLookup(status: AuthStatus, sessionKey: seq<byte>)

  /** Everything outside the connection that its calls get an answer from. A session id of 0
      means that the world declined; only a non-zero id goes with a committed session. */
  datatype World = World(
    hasSender: bool,
    decrypt: (nat, seq<byte>) -> (bool, seq<byte>),     // by position in the receive keystream
    encrypt: (nat, seq<byte>) -> (bool, seq<byte>),     // by position in the send keystream
    random: Option<(seq<byte>, uint32)>,                // the field and the seed of the challenge
    lookup: Fields -> AuthLookup,
    proof: (seq<byte>, nat, nat, seq<byte>) -> seq<byte>,
    prepare: seq<byte> -> bool,
    attach: Fields -> nat,
    fastPing: nat -> bool,                              // did ping n follow the last within 27 s
    acceptPing: nat -> bool,
    errorResponse: AuthStatus -> Packet)
  {
    ghost predicate Sane() {
      && (forall pos: nat, h: seq<byte> :: |decrypt(pos, h).1| == |h|)
      && (forall pos: nat, h: seq<byte> :: |encrypt(pos, h).1| == |h|)
      && (random.Some? ==> |random.value.0| == 32)
    }
  }

  /** What the connection is seen to do, in order. */
  datatype Event =
    | HeaderRead(kind: HeaderKind)
    | Lookup(fields: Fields)
    | KeyPrepared(key: seq<byte>)
    | AttachCalled(fields: Fields)
    | Attached(session: nat)
    | Deliver(session: nat, packet: Packet)
    | Notify(session: nat, packet: Packet)
    | PingReported(session: nat, latency: nat, fastPingRun: nat)
    | Detach(session: nat)
    | Unauthenticated(cmd: nat)
    | Wire(bytes: seq<byte>)
    | CloseRequested

  datatype Conn = Conn(
    state: ConnectionState,
    crypt: CryptState,
    recvPos: nat,
    sendPos: nat,
    session: nat,
    closed: bool,
    seed: nat,
    hadPing: bool,
    pings: nat,
    fastPingRun: nat,
    trace: seq<Event>)
  {
    function Did(e: Event): Conn {
      this.(trace := trace + [e])
    }

    /** Marks the connection dead and asks the transport to tear it down. */
    function Close(): Conn {
      this.(closed := true).Did(CloseRequested)
    }
  }

  const NEW := Conn(GREETING, FRESH, 0, 0, 0, false, 0, false, 0, 0, [])

  // ---------------------------------------------------------------- sending

  datatype Encoded = Dropped | Fatal | Bytes(wire: seq<byte>)

  function EncodeForSend(w: World, c: Conn, p: Packet): (Conn, Encoded) {
    var postCrypt := c.crypt == ACTIVE;
    if !Framable(postCrypt, |p.body|, p.opcode) then (c, Dropped)
    else
      var header := ServerHeader(postCrypt, |p.body|, p.opcode);
      if !postCrypt then (c, Bytes(header + p.body))
      else
        var (ok, cipher) := w.encrypt(c.sendPos, header);
        var c' := c.(sendPos := c.sendPos + 4);
        if ok then (c', Bytes(cipher + p.body)) else (c', Fatal)
  }

  function SendPacket(w: World, c: Conn, p: Packet): Conn {
    if c.closed || !w.hasSender then c
    else
      var (c', out) := EncodeForSend(w, c, p);
      match out
      case Dropped => c'
      case Fatal => c'.Close()
      case Bytes(wire) => c'.Did(Wire(wire))
  }

  function OnConnect(w: World, c: Conn): Conn {
    var (c', out) := EncodeForSend(w, c, Packet(MSG_WOW_CONNECTION, SERVER_GREETING));
    if out.Bytes? then c'.Did(Wire(out.wire)) else c'.Close()
  }

  // ---------------------------------------------------------------- receiving

  function KindOf(c: Conn): HeaderKind {
    if c.crypt == ACTIVE then PostCrypt else if c.state == GREETING then Greeting else PreCrypt
  }

  function DecryptHeader(w: World, c: Conn, h: seq<byte>): Deciphered<Conn> {
    var c' := c.Did(HeaderRead(KindOf(c)));
    if c.crypt != ACTIVE then Deciphered(c', true, h)
    else
      var (ok, plain) := w.decrypt(c.recvPos, h);
      Deciphered(c'.(recvPos := c.recvPos + |h|), ok, plain)
  }

  predicate CmdValid(cmd: nat, preCrypt: bool) {
    !preCrypt || cmd == MSG_WOW_CONNECTION || cmd < OPCODE_SPACE
  }

  function ReaderHooks(w: World): Hooks<Conn> {
    Hooks((c, h) => DecryptHeader(w, c, h), (c, cmd, preCrypt) => CmdValid(cmd, preCrypt))
  }

  function Endpoint(w: World): Consumer<Conn> {
    Consumer(c => KindOf(c), ReaderHooks(w), (c, f) => Dispatch(w, c, f))
  }

  /** The bytes up to the first NUL, or all of them. */
  function CString(b: seq<byte>): seq<byte> {
    if b == [] || b[0] == 0 then [] else [b[0]] + CString(b[1..])
  }

  function Dispatch(w: World, c: Conn, f: Frame): (Conn, bool) {
    var packet := Packet(f.cmd % 0x1_0000, f.payload);
    if !IsHandshakeOpcodeLegal(c.state, ClassOf(f.cmd)) then (c, false)
    else if f.cmd == MSG_WOW_CONNECTION then HandleWowConnection(w, c, f.payload)
    else if f.cmd == CMSG_PING then HandlePing(w, c, f.payload)
    else if f.cmd == CMSG_AUTH_SESSION then HandleAuthSession(w, c.(state := AUTHENTICATING), f.payload)
    else if f.cmd == CMSG_KEEP_ALIVE || f.cmd == CMSG_LOG_DISCONNECT then (c.Did(Notify(c.session, packet)), true)
    else if c.session == 0 then (c.Did(Unauthenticated(f.cmd)), false)
    else (c.Did(Deliver(c.session, packet)), true)
  }

  function AuthChallengePayload(field: seq<byte>, seed: uint32): seq<byte> {
    [0, 0] + field + [1] + LE32(seed)
  }

  function HandleWowConnection(w: World, c: Conn, payload: seq<byte>): (Conn, bool) {
    if CString(payload) != CLIENT_GREETING || w.random == None then (c, false)
    else
      var (field, seed) := w.random.value;
      var c' := SendPacket(w, c, Packet(SMSG_AUTH_CHALLENGE, AuthChallengePayload(field, seed)));
      if c'.closed then (c', false) else (c'.(seed := seed, state := CHALLENGED), true)
  }

  function RejectAuth(w: World, c: Conn, status: AuthStatus): (Conn, bool) {
    (SendPacket(w, c, w.errorResponse(status)), false)
  }

  function Prepare(w: World, st: CryptState, key: seq<byte>): CryptState {
    match st
    case FRESH => if w.prepare(key) then PREPARED else FAILED
    case PREPARED => FAILED
    case FAILED => FAILED
    case ACTIVE => ACTIVE
  }

  function Activate(st: CryptState): CryptState {
    if st == PREPARED then ACTIVE else st
  }

  function HandleAuthSession(w: World, c: Conn, payload: seq<byte>): (Conn, bool) {
    var (_, decoded) := Parse(payload);
    if decoded == None then RejectAuth(w, c, Failed) else Authenticate(w, c, decoded.value)
  }

  function Authenticate(w: World, c: Conn, fields: Fields): (Conn, bool) {
    var found := w.lookup(fields);
    var c1 := c.Did(Lookup(fields));
    if found.status != Approved then RejectAuth(w, c1, found.status)
    else if w.proof(fields.account, fields.clientSeed, c.seed, found.sessionKey) != fields.digest then
      RejectAuth(w, c1, Failed)
    else
      var c2 := c1.(crypt := Prepare(w, c1.crypt, found.sessionKey));
      if c1.crypt != FRESH || c2.crypt != PREPARED then RejectAuth(w, c2, SystemError)
      else AttachSession(w, c2.Did(KeyPrepared(found.sessionKey)), fields)
  }

  /** The world makes a session of the connection, or does not. */
  function AttachSession(w: World, c: Conn, fields: Fields): (Conn, bool) {
    var c1 := c.Did(AttachCalled(fields));
    var id := w.attach(fields);
    if id == 0 then RejectAuth(w, c1, SystemError)
    else (c1.(crypt := Activate(c1.crypt), state := AUTHED, session := id).Did(Attached(id)), true)
  }

  function HandlePing(w: World, c: Conn, payload: seq<byte>): (Conn, bool) {
    if |payload| < 8 then (c, false)
    else
      var latency, ping := FromLE32(payload[..4]), payload[4..8];
      var run := if !c.hadPing then c.fastPingRun
                 else if w.fastPing(c.pings) then (c.fastPingRun + 1) % 0x1_0000_0000
                 else 0;
      var c' := c.(hadPing := true, pings := c.pings + 1, fastPingRun := run)
                 .Did(PingReported(c.session, latency, run));
      if w.acceptPing(c.pings) then (SendPacket(w, c', Packet(SMSG_PONG, ping)), true) else (c', false)
  }

  // ---------------------------------------------------------------- whole runs

  /** A connection together with what its reader has buffered. */
  datatype Link = Link(conn: Conn, reader: Reader)

  const FRESH_LINK := Link(NEW, EMPTY)

  lemma HooksInPlace(w: World)
    requires w.Sane()
    ensures InPlace(ReaderHooks(w)) && InPlace(Endpoint(w).hooks)
  {
  }

  ghost function OnData(w: World, l: Link, data: seq<byte>): Link
    requires w.Sane()
  {
    if l.conn.closed then l
    else
      HooksInPlace(w);
      var d := Drain(l.reader.Append(data), l.conn, Endpoint(w));
      Link(if d.end.Starved? then d.ctx else d.ctx.Close(), d.reader)
  }

  function OnClose(c: Conn): Conn {
    if c.session == 0 then c.(closed := true)
    else c.(closed := true, session := 0).Did(Detach(c.session))
  }

  /** Everything that can happen to a connection: the transport reports that it is up, that bytes
      came, or that it is gone; the world sends a packet or closes it. */
  datatype Op = Connect | Data(bytes: seq<byte>) | Send(packet: Packet) | CloseByWorld | TransportGone

  ghost function Apply(w: World, l: Link, op: Op): Link
    requires w.Sane()
  {
    match op
    case Connect => l.(conn := OnConnect(w, l.conn))
    case Data(bytes) => OnData(w, l, bytes)
    case Send(packet) => l.(conn := SendPacket(w, l.conn, packet))
    case CloseByWorld => l.(conn := l.conn.Close())
    case TransportGone => l.(conn := OnClose(l.conn))
  }

  ghost function Run(w: World, l: Link, ops: seq<Op>): Link
    requires w.Sane()
    decreases |ops|
  {
    if ops == [] then l else Run(w, Apply(w, l, ops[0]), ops[1..])
  }
}
