/** Who gets in. Over every run of a connection, the world is asked for a session only for a peer
    whose account lookup was approved and whose digest is the proof for the challenge this
    connection sent; every other login is answered with the status it deserves. */
module Logins {
  import opened WireCodec
  import opened Options
  import opened FrameReader
  import opened Draining
  import opened AuthSession
  import opened Handshake
  import opened ConnectionSafety

  // ---------------------------------------------------------------- what a login leads to

  /** The answer to a rejected peer: the world's error packet under a plain header, if there is
      somebody to send to and the packet fits. */
  function Refusal(w: World, status: AuthStatus): seq<Event> {
    var p := w.errorResponse(status);
    if w.hasSender && |p.body| <= 65533 && p.opcode <= 0xFFFF then
      [Wire(LE16(|p.body| + 2) + LE16(p.opcode) + p.body)]
    else []
  }

  /** The digest is the proof for this seed, under the key the account database knows. */
  predicate Proven(w: World, seed: nat, f: Fields) {
    w.proof(f.account, f.clientSeed, seed, w.lookup(f).sessionKey) == f.digest
  }

  /** Everything that follows the lookup of a login. */
  function Outcome(w: World, seed: nat, f: Fields): seq<Event> {
    var found, id := w.lookup(f), w.attach(f);
    if found.status != Approved then Refusal(w, found.status)
    else if !Proven(w, seed, f) then Refusal(w, Failed)
    else if !w.prepare(found.sessionKey) then Refusal(w, SystemError)
    else [KeyPrepared(found.sessionKey), AttachCalled(f)] + if id == 0 then Refusal(w, SystemError) else [Attached(id)]
  }

  predicate GetsIn(w: World, seed: nat, f: Fields) {
    w.lookup(f).status == Approved && Proven(w, seed, f) && w.prepare(w.lookup(f).sessionKey) && w.attach(f) != 0
  }

  /** The bytes of the challenge: a plain header for 39 bytes, two zeros, the random field, a one,
      and the seed. */
  function ChallengeBytes(field: seq<byte>, seed: uint32): seq<byte> {
    [41, 0] + [0x49, 0x09] + ([0, 0] + field + [1] + LE32(seed))
  }

  lemma RefusalIs(w: World, c: Conn, status: AuthStatus)
    requires c.crypt != ACTIVE && !c.closed
    ensures RejectAuth(w, c, status) == (c.(trace := c.trace + Refusal(w, status)), false)
  {
    hide LE16, PackedHeader;
    var p := w.errorResponse(status);
    assert c.trace + [] == c.trace;
  }

  /** A body that decodes: exactly the looked-up, proven and prepared ones reach the world, and the
      connection goes on exactly when the world makes a session of it. */
  lemma AuthenticateIs(w: World, c: Conn, f: Fields)
    requires c.state == AUTHENTICATING && c.crypt == FRESH && !c.closed
    ensures var (c', go) := Authenticate(w, c, f);
            && c'.trace == c.trace + ([Lookup(f)] + Outcome(w, c.seed, f)) && !c'.closed && c'.seed == c.seed
            && (go <==> GetsIn(w, c.seed, f))
            && (if go then c'.state == AUTHED && c'.crypt == ACTIVE && c'.session == w.attach(f)
                else c'.state == AUTHENTICATING && c'.crypt != ACTIVE && c'.session == c.session)
  {
    hide RejectAuth, Refusal;
    var found := w.lookup(f);
    var c1 := c.Did(Lookup(f));
    RefusalIs(w, c1, found.status);
    RefusalIs(w, c1, Failed);
    var c2 := c1.(crypt := Prepare(w, c1.crypt, found.sessionKey));
    RefusalIs(w, c2, SystemError);
    var c3 := c2.Did(KeyPrepared(found.sessionKey)).Did(AttachCalled(f));
    RefusalIs(w, c3, SystemError);
    Regroup(c.trace, Lookup(f), KeyPrepared(found.sessionKey), AttachCalled(f), Refusal(w, SystemError));
    Regroup(c.trace, Lookup(f), KeyPrepared(found.sessionKey), AttachCalled(f), [Attached(w.attach(f))]);
    RegroupOne(c.trace, Lookup(f), Refusal(w, found.status));
    RegroupOne(c.trace, Lookup(f), Refusal(w, Failed));
    RegroupOne(c.trace, Lookup(f), Refusal(w, SystemError));
  }

  lemma Regroup(t: seq<Event>, a: Event, b: Event, e: Event, rest: seq<Event>)
    ensures t + [a] + [b] + [e] + rest == t + ([a] + ([b, e] + rest))
  {
  }

  lemma RegroupOne(t: seq<Event>, a: Event, rest: seq<Event>)
    ensures t + [a] + rest == t + ([a] + rest)
  {
  }

  /** The greeting, on its own or up to a NUL. */
  predicate Greets(payload: seq<byte>) {
    var n := |CLIENT_GREETING|;
    payload == CLIENT_GREETING || (|payload| > n && payload[..n] == CLIENT_GREETING && payload[n] == 0)
  }

  lemma {:induction false} CStringIs(b: seq<byte>, g: seq<byte>)
    requires 0 !in g
    ensures CString(b) == g <==> b == g || (|b| > |g| && b[..|g|] == g && b[|g|] == 0)
  {
    if b != [] && b[0] != 0 && g != [] {
      CStringIs(b[1..], g[1..]);
      assert g == [g[0]] + g[1..] && b == [b[0]] + b[1..];
      if |b| > |g| { assert b[..|g|] == [b[0]] + b[1..][..|g| - 1]; }
    } else if b == [] || g == [] {
      assert |b| > 0 ==> b[..0] == [];
    }
  }

  lemma FirstThird()
    ensures forall i :: 0 <= i < 15 ==> 0 < "RLD OF WARCRAFT CONNECTION - CLIENT TO SERVER"[i] as int < 0x100
  {
    assert forall i :: 0 <= i < 15 ==> "RLD OF WARCRAFT CONNECTION - CLIENT TO SERVER"[i] in "RLD OF WACT";
  }

  lemma SecondThird()
    ensures forall i :: 15 <= i < 30 ==> 0 < "RLD OF WARCRAFT CONNECTION - CLIENT TO SERVER"[i] as int < 0x100
  {
    assert forall i :: 15 <= i < 30 ==> "RLD OF WARCRAFT CONNECTION - CLIENT TO SERVER"[i] in " CONETI-";
  }

  lemma LastThird()
    ensures forall i :: 30 <= i < 45 ==> 0 < "RLD OF WARCRAFT CONNECTION - CLIENT TO SERVER"[i] as int < 0x100
  {
    assert forall i :: 30 <= i < 45 ==> "RLD OF WARCRAFT CONNECTION - CLIENT TO SERVER"[i] in "LIENT OSRV";
  }

  lemma NoZeroGreeting()
    ensures 0 !in CLIENT_GREETING && |CLIENT_GREETING| == 45
  {
    FirstThird();
    SecondThird();
    LastThird();
  }

  /** The right greeting is answered with the challenge, and with nothing else. */
  lemma ChallengeIs(w: World, c: Conn, payload: seq<byte>)
    requires c.crypt != ACTIVE && !c.closed && (w.random.Some? ==> |w.random.value.0| == 32)
    ensures var (c', go) := HandleWowConnection(w, c, payload);
            if w.random.Some? && Greets(payload) then
              var (field, seed) := w.random.value;
              && go
              && c' == c.(seed := seed, state := CHALLENGED,
                          trace := c.trace + if w.hasSender then [Wire(ChallengeBytes(field, seed))] else [])
            else !go && c' == c
  {
    hide CString, CLIENT_GREETING, LE32, PackedHeader;
    NoZeroGreeting();
    CStringIs(payload, CLIENT_GREETING);
    assert c.trace + [] == c.trace;
  }

  /** A frame with a login body, from the peer that was sent the challenge. */
  lemma LoginIs(w: World, c: Conn, payload: seq<byte>)
    requires c.state == CHALLENGED && c.crypt == FRESH && !c.closed
    ensures var (c', go) := Dispatch(w, c, Frame(CMSG_AUTH_SESSION, payload));
            var decoded := Parse(payload).1;
            && c'.trace == c.trace + (if decoded.Some? then [Lookup(decoded.value)] + Outcome(w, c.seed, decoded.value)
                                      else Refusal(w, Failed))
            && (go <==> decoded.Some? && GetsIn(w, c.seed, decoded.value))
            && (go ==> c'.state == AUTHED && c'.crypt == ACTIVE && c'.session == w.attach(decoded.value))
            && (!go ==> c'.state == AUTHENTICATING && c'.crypt != ACTIVE && c'.session == c.session)
            && !c'.closed && c'.seed == c.seed
  {
    hide Parse, Authenticate, RejectAuth, Refusal, Outcome, GetsIn;
    var c0 := c.(state := AUTHENTICATING);
    var decoded := Parse(payload).1;
    if decoded.Some? {
      AuthenticateIs(w, c0, decoded.value);
    } else {
      RefusalIs(w, c0, Failed);
    }
  }

  /** The server's own greeting: a plain header for 46 bytes, and the text with its NUL. */
  lemma GreetingIs(w: World, c: Conn)
    requires c.crypt != ACTIVE
    ensures OnConnect(w, c) == c.Did(Wire([48, 0] + [0x57, 0x4F] + SERVER_GREETING))
  {
    hide PackedHeader;
    assert |SERVER_GREETING| == 46;
    hide SERVER_GREETING;
  }

  /** A frame out of turn is refused and leaves no trace at all. */
  lemma OutOfTurn(w: World, c: Conn, f: Frame)
    requires if f.cmd == 0x4F57 then c.state != GREETING
             else if f.cmd == 0x00B2 then c.state != CHALLENGED
             else c.state != AUTHED
    ensures Dispatch(w, c, f) == (c, false)
  {
    hide HandleWowConnection, HandlePing, HandleAuthSession;
  }

  /** Once the peer is in, keep-alives and log-disconnects are reported and every other ordinary
      frame is delivered, each to the session, with the opcode cut to 16 bits and the payload as
      it came. */
  lemma OrdinaryIs(w: World, c: Conn, f: Frame)
    requires c.state == AUTHED && c.session != 0
    requires f.cmd != 0x4F57 && f.cmd != 0x00B2 && f.cmd != 0x0012
    ensures var packet := Packet(f.cmd % 0x1_0000, f.payload);
            Dispatch(w, c, f) ==
            (c.Did(if f.cmd == 0x1A87 || f.cmd == 0x10B3 then Notify(c.session, packet)
                   else Deliver(c.session, packet)), true)
  {
    hide HandleWowConnection, HandlePing, HandleAuthSession;
  }

  function Little(b0: int, b1: int, b2: int, b3: int): int {
    b0 + 0x100 * b1 + 0x1_0000 * b2 + 0x100_0000 * b3
  }

  /** A ping is reported with its first four bytes as the latency and the run of fast pings it
      belongs to; the answer carries its next four bytes unchanged, under an encrypted header. */
  lemma PingIs(w: World, c: Conn, payload: seq<byte>)
    requires c.crypt == ACTIVE && !c.closed && |payload| >= 8
    ensures var (c', go) := HandlePing(w, c, payload);
            var latency := Little(payload[0], payload[1], payload[2], payload[3]);
            var (ok, header) := w.encrypt(c.sendPos, PackedHeader(4, SMSG_PONG));
            && go == w.acceptPing(c.pings) && c'.pings == c.pings + 1 && c'.hadPing
            && (c.hadPing && w.fastPing(c.pings) ==> c'.fastPingRun == (c.fastPingRun + 1) % 0x1_0000_0000)
            && (c.hadPing && !w.fastPing(c.pings) ==> c'.fastPingRun == 0)
            && (!c.hadPing ==> c'.fastPingRun == c.fastPingRun)
            && c'.trace == c.trace + [PingReported(c.session, latency, c'.fastPingRun)]
                           + (if !go || !w.hasSender then []
                              else if ok then [Wire(header + [payload[4], payload[5], payload[6], payload[7]])]
                              else [CloseRequested])
  {
    hide LE16, PackedHeader;
    LatencyIs(payload);
    assert payload[4..8] == [payload[4], payload[5], payload[6], payload[7]];
    var e := PingReported(c.session, FromLE32(payload[..4]), HandlePing(w, c, payload).0.fastPingRun);
    hide FromLE32;
    assert c.trace + [e] + [] == c.trace + [e];
  }

  lemma LatencyIs(payload: seq<byte>)
    requires |payload| >= 8
    ensures FromLE32(payload[..4]) == Little(payload[0], payload[1], payload[2], payload[3])
  {
  }

  // ---------------------------------------------------------------- whole runs

  predicate Follows(t: seq<Event>, i: nat, events: seq<Event>) {
    i + |events| <= |t| && t[i..i + |events|] == events
  }

  /** The challenge that was sent, and on the trace if there was somebody to send it to. */
  predicate Challenged(w: World, t: seq<Event>) {
    && w.random.Some? && |w.random.value.0| == 32
    && (w.hasSender ==> Wire(ChallengeBytes(w.random.value.0, w.random.value.1)) in t)
  }

  /** What must be so for one entry of the trace to be there. */
  predicate Justified(w: World, t: seq<Event>, i: nat)
    requires i < |t|
  {
    match t[i]
    case Lookup(f) => Challenged(w, t[..i]) && Follows(t, i + 1, Outcome(w, w.random.value.1, f))
    case KeyPrepared(key) => i >= 1 && t[i - 1].Lookup? && key == w.lookup(t[i - 1].fields).sessionKey
    case AttachCalled(f) =>
      && i >= 2 && t[i - 2] == Lookup(f) && t[i - 1] == KeyPrepared(w.lookup(f).sessionKey)
      && w.lookup(f).status == Approved
      && Challenged(w, t[..i - 2]) && Proven(w, w.random.value.1, f)
      && w.prepare(w.lookup(f).sessionKey)
    case Attached(id) =>
      i >= 1 && t[i - 1].AttachCalled? && id == w.attach(t[i - 1].fields) && id != 0
    case _ => true
  }

  ghost predicate AllJustified(w: World, t: seq<Event>) {
    forall i: nat | i < |t| :: Justified(w, t, i)
  }

  /** An event that needs no justification. */
  predicate Quiet(e: Event) {
    !e.Lookup? && !e.KeyPrepared? && !e.AttachCalled? && !e.Attached?
  }

  lemma JustifiedStays(w: World, t: seq<Event>, u: seq<Event>, i: nat)
    requires i < |t| && Justified(w, t, i)
    ensures Justified(w, t + u, i)
  {
    hide Outcome, Proven, ChallengeBytes;
    assert (t + u)[..i] == t[..i];
    if i >= 2 { assert (t + u)[..i - 2] == t[..i - 2]; }
    if t[i].Lookup? {
      var n := |Outcome(w, w.random.value.1, t[i].fields)|;
      assert (t + u)[i + 1..i + 1 + n] == t[i + 1..i + 1 + n];
    }
  }

  lemma AllJustifiedNext(w: World, t: seq<Event>, u: seq<Event>)
    requires AllJustified(w, t)
    requires forall i: nat | |t| <= i < |t + u| :: Justified(w, t + u, i)
    ensures AllJustified(w, t + u)
  {
    hide Justified;
    forall i: nat | i < |t + u| ensures Justified(w, t + u, i) {
      if i < |t| { JustifiedStays(w, t, u, i); }
    }
  }

  lemma QuietKeeps(w: World, t: seq<Event>, e: Event)
    requires AllJustified(w, t) && Quiet(e)
    ensures AllJustified(w, t + [e])
  {
    assert Justified(w, t + [e], |t|);
    hide Justified;
    AllJustifiedNext(w, t, [e]);
  }

  lemma RefusalKeeps(w: World, t: seq<Event>, status: AuthStatus)
    requires AllJustified(w, t)
    ensures AllJustified(w, t + Refusal(w, status))
  {
    hide AllJustified;
    var u := Refusal(w, status);
    if u == [] { assert t + u == t; } else { QuietKeeps(w, t, u[0]); }
  }

  /** A login leaves a trace that is justified throughout. */
  lemma OutcomeKeeps(w: World, t: seq<Event>, f: Fields)
    requires AllJustified(w, t) && Challenged(w, t)
    ensures AllJustified(w, t + ([Lookup(f)] + Outcome(w, w.random.value.1, f)))
  {
    var u := [Lookup(f)] + Outcome(w, w.random.value.1, f);
    OutcomeJustified(w, t, f);
    hide *;
    AllJustifiedNext(w, t, u);
  }

  lemma OutcomeJustified(w: World, t: seq<Event>, f: Fields)
    requires Challenged(w, t)
    ensures var u := [Lookup(f)] + Outcome(w, w.random.value.1, f);
            forall i: nat | |t| <= i < |t + u| :: Justified(w, t + u, i)
  {
    var u := [Lookup(f)] + Outcome(w, w.random.value.1, f);
    hide *;
    forall i: nat | |t| <= i < |t + u| ensures Justified(w, t + u, i) {
      if i == |t| { LookupJustified(w, t, f); } else { RestJustified(w, t, f, i); }
    }
  }

  lemma LookupJustified(w: World, t: seq<Event>, f: Fields)
    requires Challenged(w, t)
    ensures Justified(w, t + ([Lookup(f)] + Outcome(w, w.random.value.1, f)), |t|)
  {
    var out := Outcome(w, w.random.value.1, f);
    hide Outcome, ChallengeBytes;
    var s := t + ([Lookup(f)] + out);
    assert s[..|t|] == t && s[|t| + 1..|t| + 1 + |out|] == out;
  }

  lemma RestJustified(w: World, t: seq<Event>, f: Fields, i: nat)
    requires Challenged(w, t) && |t| < i < |t| + 1 + |Outcome(w, w.random.value.1, f)|
    ensures Justified(w, t + ([Lookup(f)] + Outcome(w, w.random.value.1, f)), i)
  {
    var out := Outcome(w, w.random.value.1, f);
    hide ChallengeBytes, Proven, Follows, LE16;
    var s := t + ([Lookup(f)] + out);
    assert s[..|t|] == t && s[i] == out[i - |t| - 1];
    assert s[|t|] == Lookup(f);
    if i >= |t| + 2 { assert s[i - 1] == out[i - |t| - 2]; }
  }

  /** The connection's record is justified, and a challenged peer was sent the seed it is held to. */
  ghost predicate Honest(w: World, c: Conn) {
    AllJustified(w, c.trace) && (c.state == CHALLENGED ==> Challenged(w, c.trace) && c.seed == w.random.value.1)
  }

  /** Nothing closes a connection in the middle of the handshake. */
  predicate OpenAtFirst(c: Conn) {
    c.state == GREETING || c.state == CHALLENGED ==> !c.closed
  }

  /** A change that adds at most one quiet event. */
  predicate Quietly(c: Conn, c': Conn) {
    && c'.state == c.state && c'.seed == c.seed
    && (c'.trace == c.trace || (c.trace < c'.trace && |c'.trace| == |c.trace| + 1 && Quiet(c'.trace[|c.trace|])))
  }

  lemma ChallengedStays(w: World, t: seq<Event>, e: Event)
    requires Challenged(w, t)
    ensures Challenged(w, t + [e])
  {
    hide ChallengeBytes;
  }

  lemma QuietlyKeeps(w: World, c: Conn, c': Conn)
    requires Honest(w, c) && Quietly(c, c')
    ensures Honest(w, c')
  {
    hide AllJustified, Challenged, Quiet;
    if c'.trace != c.trace {
      var e := c'.trace[|c.trace|];
      assert c'.trace == c.trace + [e];
      QuietKeeps(w, c.trace, e);
      if c.state == CHALLENGED { ChallengedStays(w, c.trace, e); }
    }
  }

  lemma SendsQuietly(w: World, c: Conn, p: Packet)
    ensures Quietly(c, SendPacket(w, c, p))
  {
    hide EncodeForSend;
    EncodeKeeps(w, c, p);
  }

  lemma PingsQuietly(w: World, c: Conn, payload: seq<byte>)
    requires Honest(w, c)
    ensures Honest(w, HandlePing(w, c, payload).0)
  {
    hide SendPacket, FromLE32, Honest;
    if |payload| >= 8 {
      var run := if !c.hadPing then c.fastPingRun
                 else if w.fastPing(c.pings) then (c.fastPingRun + 1) % 0x1_0000_0000
                 else 0;
      var c1 := c.(hadPing := true, pings := c.pings + 1, fastPingRun := run)
                 .Did(PingReported(c.session, FromLE32(payload[..4]), run));
      QuietlyKeeps(w, c, c1);
      SendsQuietly(w, c1, Packet(SMSG_PONG, payload[4..8]));
      QuietlyKeeps(w, c1, SendPacket(w, c1, Packet(SMSG_PONG, payload[4..8])));
    }
  }

  lemma ChallengeKeeps(w: World, c: Conn, payload: seq<byte>)
    requires w.Sane() && Honest(w, c) && c.state == GREETING && c.crypt != ACTIVE && !c.closed
    ensures var c' := HandleWowConnection(w, c, payload).0;
            Honest(w, c') && OpenAtFirst(c')
  {
    hide HandleWowConnection, AllJustified, ChallengeBytes, Greets;
    ChallengeIs(w, c, payload);
    if w.random.Some? && Greets(payload) {
      var e := Wire(ChallengeBytes(w.random.value.0, w.random.value.1));
      QuietKeeps(w, c.trace, e);
      assert c.trace + [] == c.trace;
    }
  }

  lemma LoginKeeps(w: World, c: Conn, payload: seq<byte>)
    requires Honest(w, c) && c.state == CHALLENGED && c.crypt == FRESH && !c.closed
    ensures var c' := Dispatch(w, c, Frame(CMSG_AUTH_SESSION, payload)).0;
            Honest(w, c') && OpenAtFirst(c')
  {
    hide Dispatch, AllJustified, Challenged, Parse, Outcome, Refusal, GetsIn;
    LoginIs(w, c, payload);
    var decoded := Parse(payload).1;
    if decoded.Some? {
      OutcomeKeeps(w, c.trace, decoded.value);
    } else {
      RefusalKeeps(w, c.trace, Failed);
    }
  }

  lemma DispatchIsHonest(w: World, c: Conn, f: Frame)
    requires w.Sane() && Live(c, 1) && Honest(w, c) && OpenAtFirst(c)
    ensures var c' := Dispatch(w, c, f).0;
            Honest(w, c') && OpenAtFirst(c')
  {
    hide Honest, HandleWowConnection, HandlePing, HandleAuthSession, Observe, InOrder;
    var packet := Packet(f.cmd % 0x1_0000, f.payload);
    if IsHandshakeOpcodeLegal(c.state, ClassOf(f.cmd)) {
      if f.cmd == MSG_WOW_CONNECTION {
        ChallengeKeeps(w, c, f.payload);
      } else if f.cmd == CMSG_PING {
        PingsQuietly(w, c, f.payload);
        PingKeepsState(w, c, f.payload);
      } else if f.cmd == CMSG_AUTH_SESSION {
        assert f == Frame(CMSG_AUTH_SESSION, f.payload);
        LoginKeeps(w, c, f.payload);
      } else {
        QuietlyKeeps(w, c, c.Did(Notify(c.session, packet)));
        QuietlyKeeps(w, c, c.Did(Deliver(c.session, packet)));
        QuietlyKeeps(w, c, c.Did(Unauthenticated(f.cmd)));
      }
    }
  }

  lemma PingKeepsState(w: World, c: Conn, payload: seq<byte>)
    ensures HandlePing(w, c, payload).0.state == c.state
  {
    hide FromLE32;
  }

  lemma HeaderIsHonest(w: World, r: Reader, c: Conn)
    requires w.Sane() && InPlace(ReaderHooks(w)) && Honest(w, c) && OpenAtFirst(c)
    ensures var c' := TakeFrame(r, KindOf(c), c, ReaderHooks(w)).status.ctx;
            Honest(w, c') && OpenAtFirst(c')
  {
    hide Honest, ParseHeader;
    if r.pending.NoHeader? && |r.unread| >= HeaderLength(KindOf(c)) {
      QuietlyKeeps(w, c, DecryptHeader(w, c, r.unread[..HeaderLength(KindOf(c))]).ctx);
    }
  }

  lemma {:induction false} DrainIsHonest(w: World, r: Reader, c: Conn)
    requires w.Sane() && InPlace(Endpoint(w).hooks)
    requires Live(c, Ahead(r)) && Honest(w, c) && OpenAtFirst(c)
    ensures var d := Drain(r, c, Endpoint(w));
            Honest(w, d.ctx)
    decreases r.Weight()
  {
    hide Honest, OpenAtFirst, Live;
    StepKeeps(w, r, c);
    HeaderIsHonest(w, r, c);
    var step := TakeFrame(r, KindOf(c), c, ReaderHooks(w));
    if step.status.Ready? {
      DispatchKeeps(w, step.status.ctx, step.status.frame);
      DispatchIsHonest(w, step.status.ctx, step.status.frame);
      var (c', go) := Dispatch(w, step.status.ctx, step.status.frame);
      if go {
        DrainIsHonest(w, step.reader, c');
      }
    }
  }

  lemma ApplyIsHonest(w: World, l: Link, op: Op)
    requires w.Sane() && LinkSafe(l) && Honest(w, l.conn)
    ensures Honest(w, Apply(w, l, op).conn)
  {
    hide Honest, OnConnect, SendPacket, TakeFrame, Drain, Live, Safe;
    match op
    case Connect => ConnectsQuietly(w, l.conn); QuietlyKeeps(w, l.conn, OnConnect(w, l.conn));
    case Data(bytes) =>
      if !l.conn.closed {
        HooksInPlace(w);
        DrainIsHonest(w, l.reader.Append(bytes), l.conn);
        var c := Drain(l.reader.Append(bytes), l.conn, Endpoint(w)).ctx;
        QuietlyKeeps(w, c, c.Close());
      }
    case Send(packet) => SendsQuietly(w, l.conn, packet); QuietlyKeeps(w, l.conn, SendPacket(w, l.conn, packet));
    case CloseByWorld => QuietlyKeeps(w, l.conn, l.conn.Close());
    case TransportGone => QuietlyKeeps(w, l.conn, OnClose(l.conn));
  }

  lemma ConnectsQuietly(w: World, c: Conn)
    ensures Quietly(c, OnConnect(w, c))
  {
    hide EncodeForSend, SERVER_GREETING;
    EncodeKeeps(w, c, Packet(MSG_WOW_CONNECTION, SERVER_GREETING));
  }

  lemma {:induction false} RunIsHonest(w: World, l: Link, ops: seq<Op>)
    requires w.Sane() && LinkSafe(l) && Honest(w, l.conn)
    ensures Honest(w, Run(w, l, ops).conn)
    decreases |ops|
  {
    hide Honest, LinkSafe, Apply;
    if ops != [] {
      ApplyKeeps(w, l, ops[0]);
      ApplyIsHonest(w, l, ops[0]);
      RunIsHonest(w, Apply(w, l, ops[0]), ops[1..]);
    }
  }

  /** Over every run of a connection: the world is asked to attach a peer only right after the
      lookup of exactly those fields and the preparation of the cipher with exactly the key that
      was looked up, after the challenge of this connection, and only if the lookup was approved
      and the digest is the proof for the seed of that challenge; a session is the one the world
      gave for that request. And every login that was looked up is followed by all that it
      deserves, which is the session exactly if all of this holds, and otherwise the refusal with
      its own status. */
  lemma EveryLoginIsProven(w: World, ops: seq<Op>)
    requires w.Sane()
    ensures AllJustified(w, Run(w, FRESH_LINK, ops).conn.trace)
  {
    hide Run, Justified;
    RunIsHonest(w, FRESH_LINK, ops);
  }

  /** So a connection that has a session belongs to a peer that proved itself. */
  lemma SessionIsProven(w: World, ops: seq<Op>) returns (f: Fields)
    requires w.Sane() && Run(w, FRESH_LINK, ops).conn.session != 0
    ensures w.random.Some? && GetsIn(w, w.random.value.1, f)
    ensures Run(w, FRESH_LINK, ops).conn.session == w.attach(f)
  {
    hide Run, InOrder;
    EveryLoginIsProven(w, ops);
    EveryRunIsSafe(w, ops);
    var c := Run(w, FRESH_LINK, ops).conn;
    var i := AttachedAt(c.trace, c.session);
    assert Justified(w, c.trace, i) && Justified(w, c.trace, i - 1);
    f := c.trace[i - 1].fields;
  }

  lemma {:induction false} AttachedAt(t: seq<Event>, id: nat) returns (i: nat)
    requires id in Observe(t).attached
    ensures i < |t| && t[i] == Attached(id)
  {
    var last := |t| - 1;
    if t[last] == Attached(id) { i := last; } else { i := AttachedAt(t[..last], id); }
  }
}
