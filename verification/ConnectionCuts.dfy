/** Does it matter to a connection how the peer's bytes are cut into onData calls?

    Not as long as the header cipher works. The loop of onData (src/proto/ClientConnection.cpp)
    looks at `closed()` only on entry, so when answering a ping closes the connection because the
    header cannot be encrypted, frames that came in the same piece are still handled while frames
    that come in a later piece are not. Nothing else that the loop itself does has this effect; what
    the world does to the connection happens between two pieces here, never between two frames.
 */
module ConnectionCuts {
  import opened WireCodec
  import opened Options
  import opened FrameReader
  import opened Draining
  import opened Handshake
  import opened ConnectionSafety

  /** Same connection state and same trace; what a dead connection has buffered is no matter. */
  ghost predicate Agree(l: Link, m: Link) {
    l.conn == m.conn && (!l.conn.closed ==> l.reader == m.reader)
  }

  /** A ping is accepted and cannot be answered: the header of the answer is not encrypted. This is the
      branch that closes the connection and lets the loop go on. */
  ghost predicate PongFails(w: World, c: Conn, f: Frame) {
    && c.state == AUTHED && c.crypt == ACTIVE && !c.closed && w.hasSender
    && f.cmd == CMSG_PING && |f.payload| >= 8 && w.acceptPing(c.pings)
    && !w.encrypt(c.sendPos, ServerHeader(true, 4, SMSG_PONG)).0
  }

  /** Among the frames of the piece `a` is such a ping, and the loop goes on until it runs dry. */
  ghost predicate ClosedMidway(w: World, l: Link, a: seq<byte>)
    requires w.Sane()
  {
    HooksInPlace(w);
    var r := l.reader.Append(a);
    Drain(r, l.conn, Endpoint(w)).end.Starved? && SomePongFails(w, Handled(r, l.conn, Endpoint(w)))
  }

  ghost predicate SomePongFails(w: World, h: seq<(Conn, Frame)>) {
    exists k :: 0 <= k < |h| && PongFails(w, h[k].0, h[k].1)
  }

  lemma FirstOrRest(w: World, c: Conn, f: Frame, rest: seq<(Conn, Frame)>)
    ensures SomePongFails(w, [(c, f)] + rest) <==> PongFails(w, c, f) || SomePongFails(w, rest)
  {
    var h := [(c, f)] + rest;
    if PongFails(w, c, f) { assert PongFails(w, h[0].0, h[0].1); }
    if k :| 0 <= k < |rest| && PongFails(w, rest[k].0, rest[k].1) { assert h[k + 1] == rest[k]; }
    if k :| 1 <= k < |h| && PongFails(w, h[k].0, h[k].1) { assert rest[k - 1] == h[k]; }
  }

  lemma DispatchClosesExactly(w: World, c: Conn, f: Frame)
    requires !c.closed
    ensures var (c', go) := Dispatch(w, c, f);
            go ==> (c'.closed <==> PongFails(w, c, f))
  {
    hide CString, AuthSession.Parse, FromLE32, ServerHeader, CLIENT_GREETING;
  }

  lemma {:induction false} DrainStaysClosed(w: World, r: Reader, c: Conn)
    requires w.Sane() && InPlace(Endpoint(w).hooks) && c.closed
    ensures Drain(r, c, Endpoint(w)).ctx.closed
    decreases r.Weight()
  {
    hide ParseHeader, Dispatch;
    var step := TakeFrame(r, KindOf(c), c, ReaderHooks(w));
    if step.status.Ready? {
      DispatchMarks(w, step.status.ctx, step.status.frame);
      var (c', go) := Dispatch(w, step.status.ctx, step.status.frame);
      if go { DrainStaysClosed(w, step.reader, c'); }
    }
  }

  /** The loop leaves an open connection closed, when it has run dry, exactly if one of the frames was
      such a ping. */
  lemma {:induction false} DrainClosesExactly(w: World, r: Reader, c: Conn)
    requires w.Sane() && InPlace(Endpoint(w).hooks) && !c.closed && Drain(r, c, Endpoint(w)).end.Starved?
    ensures Drain(r, c, Endpoint(w)).ctx.closed <==> SomePongFails(w, Handled(r, c, Endpoint(w)))
    decreases r.Weight()
  {
    hide ParseHeader, Dispatch, PongFails, SomePongFails;
    var step := TakeFrame(r, KindOf(c), c, ReaderHooks(w));
    if step.status.Ready? {
      DispatchClosesExactly(w, step.status.ctx, step.status.frame);
      var (c', go) := Dispatch(w, step.status.ctx, step.status.frame);
      FirstOrRest(w, step.status.ctx, step.status.frame, Handled(step.reader, c', Endpoint(w)));
      if c'.closed { DrainStaysClosed(w, step.reader, c'); } else { DrainClosesExactly(w, step.reader, c'); }
    } else {
      assert !SomePongFails(w, []) by { NoPongFails(w); }
    }
    hide TakeFrame;
  }

  lemma NoPongFails(w: World)
    ensures !SomePongFails(w, [])
  {
  }

  lemma OnDataSplit(w: World, l: Link, a: seq<byte>, b: seq<byte>)
    requires w.Sane() && !l.conn.closed
    requires InPlace(Endpoint(w).hooks)
    ensures var d := Drain(l.reader.Append(a), l.conn, Endpoint(w));
            Drain(l.reader.Append(a + b), l.conn, Endpoint(w)) ==
            if d.end.Starved? then Drain(d.reader.Append(b), d.ctx, Endpoint(w)) else d.(reader := d.reader.Append(b))
  {
    DrainAppend(l.reader.Append(a), l.conn, Endpoint(w), b);
    assert l.reader.Append(a).Append(b) == l.reader.Append(a + b);
  }

  lemma CutAgrees(w: World, l: Link, a: seq<byte>, b: seq<byte>)
    requires w.Sane() && !l.conn.closed && !ClosedMidway(w, l, a)
    ensures Agree(OnData(w, OnData(w, l, a), b), OnData(w, l, a + b))
  {
    HooksInPlace(w);
    MidwayIsClosed(w, l, a);
    hide ClosedMidway;
    OnDataSplit(w, l, a, b);
  }

  lemma MidwayIsClosed(w: World, l: Link, a: seq<byte>)
    requires w.Sane() && !l.conn.closed
    requires InPlace(Endpoint(w).hooks)
    ensures var d := Drain(l.reader.Append(a), l.conn, Endpoint(w));
            ClosedMidway(w, l, a) <==> d.end.Starved? && d.ctx.closed
  {
    var r := l.reader.Append(a);
    if Drain(r, l.conn, Endpoint(w)).end.Starved? { DrainClosesExactly(w, r, l.conn); }
    hide Drain, Handled, SomePongFails;
  }

  /** Sending on a closed connection does nothing, and sending never erases the trace. */
  lemma SendMarks(w: World, c: Conn, p: Packet)
    ensures var c' := SendPacket(w, c, p);
            |c'.trace| >= |c.trace| && (c.closed ==> c' == c)
  {
    EncodeKeeps(w, c, p);
  }

  /** Every frame handled on a closed connection leaves a mark: an event, or a refusal. */
  lemma DispatchMarks(w: World, c: Conn, f: Frame)
    requires c.closed
    ensures var (c', go) := Dispatch(w, c, f);
            c'.closed && |c'.trace| >= |c.trace| && (go ==> |c'.trace| > |c.trace|)
  {
    hide HandleWowConnection, HandlePing, HandleAuthSession;
    WowMarks(w, c, f.payload);
    PingMarks(w, c, f.payload);
    AuthMarks(w, c.(state := AUTHENTICATING), f.payload);
  }

  lemma WowMarks(w: World, c: Conn, payload: seq<byte>)
    requires c.closed
    ensures HandleWowConnection(w, c, payload) == (c, false)
  {
    if w.random.Some? {
      SendMarks(w, c, Packet(SMSG_AUTH_CHALLENGE, AuthChallengePayload(w.random.value.0, w.random.value.1)));
    }
  }

  lemma PingMarks(w: World, c: Conn, payload: seq<byte>)
    requires c.closed
    ensures var (c', go) := HandlePing(w, c, payload);
            c'.closed && |c'.trace| >= |c.trace| && (go ==> |c'.trace| > |c.trace|)
  {
    if |payload| >= 8 {
      var run := if !c.hadPing then c.fastPingRun
                 else if w.fastPing(c.pings) then (c.fastPingRun + 1) % 0x1_0000_0000
                 else 0;
      var c1 := c.(hadPing := true, pings := c.pings + 1, fastPingRun := run)
                 .Did(PingReported(c.session, FromLE32(payload[..4]), run));
      SendMarks(w, c1, Packet(SMSG_PONG, payload[4..8]));
    }
  }

  lemma RejectMarks(w: World, c: Conn, status: AuthStatus)
    requires c.closed
    ensures RejectAuth(w, c, status) == (c, false)
  {
    SendMarks(w, c, w.errorResponse(status));
  }

  lemma AuthMarks(w: World, c: Conn, payload: seq<byte>)
    requires c.closed
    ensures var (c', go) := HandleAuthSession(w, c, payload);
            c'.closed && |c'.trace| >= |c.trace| && (go ==> |c'.trace| > |c.trace|)
  {
    hide RejectAuth, AuthSession.Parse;
    var (_, decoded) := AuthSession.Parse(payload);
    RejectMarks(w, c, Failed);
    if decoded.Some? {
      var fields, found := decoded.value, w.lookup(decoded.value);
      var c1 := c.Did(Lookup(fields));
      var c2 := c1.(crypt := Prepare(w, c1.crypt, found.sessionKey));
      RejectMarks(w, c1, found.status);
      RejectMarks(w, c1, Failed);
      RejectMarks(w, c2, SystemError);
      RejectMarks(w, c2.Did(KeyPrepared(found.sessionKey)).Did(AttachCalled(fields)), SystemError);
    }
  }

  lemma {:induction false} DrainMarks(w: World, r: Reader, c: Conn)
    requires w.Sane() && InPlace(Endpoint(w).hooks) && c.closed
    ensures |Drain(r, c, Endpoint(w)).ctx.trace| >= |c.trace|
    decreases r.Weight()
  {
    hide ParseHeader, Dispatch;
    var step := TakeFrame(r, KindOf(c), c, ReaderHooks(w));
    TakeMarks(w, r, c);
    if step.status.Ready? {
      DispatchMarks(w, step.status.ctx, step.status.frame);
      DrainMarks(w, step.reader, Dispatch(w, step.status.ctx, step.status.frame).0);
    }
  }

  /** Taking a frame keeps a closed connection closed, and reading a header is itself a mark. */
  lemma TakeMarks(w: World, r: Reader, c: Conn)
    requires w.Sane() && InPlace(ReaderHooks(w)) && c.closed
    ensures var step := TakeFrame(r, KindOf(c), c, ReaderHooks(w));
            && step.status.ctx.closed && |step.status.ctx.trace| >= |c.trace|
            && (r.pending.NoHeader? && |r.unread| >= 6 ==> |step.status.ctx.trace| > |c.trace|)
            && (r.pending.Awaiting? && |r.unread| >= r.pending.need ==> step.status.Ready?)
  {
    hide ParseHeader;
  }

  function Zeros(n: nat): seq<byte> {
    seq(n, _ => 0)
  }

  /** Whatever such a connection has buffered, some further bytes would still be acted upon had
      they been in the same piece. */
  lemma MidwayReacts(w: World, r: Reader, c: Conn) returns (more: seq<byte>)
    requires w.Sane() && InPlace(Endpoint(w).hooks) && c.closed
    requires TakeFrame(r, KindOf(c), c, ReaderHooks(w)).status.NeedMore?
    ensures var d := Drain(r.Append(more), c, Endpoint(w));
            |d.ctx.trace| > |c.trace| || !d.end.Starved?
  {
    more := Zeros(if r.pending.Awaiting? then r.pending.need else 6);
    hide ParseHeader, Dispatch;
    var q := r.Append(more);
    TakeMarks(w, q, c);
    var step := TakeFrame(q, KindOf(c), c, ReaderHooks(w));
    if step.status.Ready? {
      DispatchMarks(w, step.status.ctx, step.status.frame);
      DrainMarks(w, step.reader, Dispatch(w, step.status.ctx, step.status.frame).0);
    }
  }

  lemma {:induction false} StarvedNeedsMore(w: World, r: Reader, c: Conn)
    requires w.Sane() && InPlace(Endpoint(w).hooks)
    requires Drain(r, c, Endpoint(w)).end.Starved?
    ensures var d := Drain(r, c, Endpoint(w));
            TakeFrame(d.reader, KindOf(d.ctx), d.ctx, ReaderHooks(w)).status.NeedMore?
  {
    DrainedIsQuiescent(r, c, Endpoint(w));
    var d := Drain(r, c, Endpoint(w));
    QuiescentNeedsMore(w, d.reader, d.ctx);
  }

  lemma QuiescentNeedsMore(w: World, r: Reader, c: Conn)
    requires w.Sane() && InPlace(Endpoint(w).hooks)
    requires Quiescent(r, c, Endpoint(w))
    ensures TakeFrame(r, KindOf(c), c, ReaderHooks(w)).status.NeedMore?
  {
    var step := TakeFrame(r, KindOf(c), c, ReaderHooks(w));
    if step.status.Ready? {
      var (c', go) := Dispatch(w, step.status.ctx, step.status.frame);
      if go {
        DrainShrinks(w, step.reader, c');
      }
    }
  }

  lemma {:induction false} DrainShrinks(w: World, r: Reader, c: Conn)
    requires w.Sane() && InPlace(Endpoint(w).hooks)
    ensures Drain(r, c, Endpoint(w)).reader.Weight() <= r.Weight()
    decreases r.Weight()
  {
    hide ParseHeader, Dispatch;
    var step := TakeFrame(r, KindOf(c), c, ReaderHooks(w));
    if step.status.Ready? {
      DrainShrinks(w, step.reader, Dispatch(w, step.status.ctx, step.status.frame).0);
    }
  }

  /** The exact condition: cutting a stream after `a` never makes a difference, whatever follows,
      if and only if there is no accepted ping in `a` whose answer cannot be encrypted, or the loop
      ends otherwise. */
  lemma CutsAgreeExactly(w: World, l: Link, a: seq<byte>)
    requires w.Sane() && !l.conn.closed
    ensures (forall b :: Agree(OnData(w, OnData(w, l, a), b), OnData(w, l, a + b))) <==> !ClosedMidway(w, l, a)
  {
    HooksInPlace(w);
    MidwayIsClosed(w, l, a);
    if ClosedMidway(w, l, a) {
      hide ClosedMidway;
      var d := Drain(l.reader.Append(a), l.conn, Endpoint(w));
      StarvedNeedsMore(w, l.reader.Append(a), l.conn);
      var b := MidwayReacts(w, d.reader, d.ctx);
      OnDataSplit(w, l, a, b);
      DrainMarks(w, d.reader.Append(b), d.ctx);
      assert OnData(w, OnData(w, l, a), b).conn == d.ctx;
      assert |OnData(w, l, a + b).conn.trace| > |d.ctx.trace|;
      assert !Agree(OnData(w, OnData(w, l, a), b), OnData(w, l, a + b));
    } else {
      hide *;
      forall b ensures Agree(OnData(w, OnData(w, l, a), b), OnData(w, l, a + b)) {
        CutAgrees(w, l, a, b);
      }
    }
  }

  // ---------------------------------------------------------------- when the condition holds

  ghost predicate CipherWorks(w: World) {
    forall pos: nat, h: seq<byte> :: w.encrypt(pos, h).0
  }

  lemma SendStaysOpen(w: World, c: Conn, p: Packet)
    requires CipherWorks(w) && !c.closed
    ensures !SendPacket(w, c, p).closed
  {
  }

  lemma DispatchStaysOpen(w: World, c: Conn, f: Frame)
    requires CipherWorks(w) && !c.closed
    ensures var (c', go) := Dispatch(w, c, f);
            go ==> !c'.closed
  {
    hide SendPacket, CString, AuthSession.Parse, FromLE32;
    if f.cmd == CMSG_PING && |f.payload| >= 8 {
      var run := if !c.hadPing then c.fastPingRun
                 else if w.fastPing(c.pings) then (c.fastPingRun + 1) % 0x1_0000_0000
                 else 0;
      var c1 := c.(hadPing := true, pings := c.pings + 1, fastPingRun := run)
                 .Did(PingReported(c.session, FromLE32(f.payload[..4]), run));
      SendStaysOpen(w, c1, Packet(SMSG_PONG, f.payload[4..8]));
    }
  }

  lemma {:induction false} WorkingCipherStaysOpen(w: World, r: Reader, c: Conn)
    requires w.Sane() && InPlace(Endpoint(w).hooks) && CipherWorks(w) && !c.closed
    ensures var d := Drain(r, c, Endpoint(w)); d.end.Starved? ==> !d.ctx.closed
    decreases r.Weight()
  {
    hide ParseHeader, Dispatch;
    var step := TakeFrame(r, KindOf(c), c, ReaderHooks(w));
    if step.status.Ready? {
      DispatchStaysOpen(w, step.status.ctx, step.status.frame);
      var (c', go) := Dispatch(w, step.status.ctx, step.status.frame);
      if go {
        WorkingCipherStaysOpen(w, step.reader, c');
      }
    }
  }

  function Pieces(pieces: seq<seq<byte>>): seq<Op> {
    seq(|pieces|, i requires 0 <= i < |pieces| => Data(pieces[i]))
  }

  /** With a working cipher the cut of the stream is invisible: feeding any pieces one after the
      other leads to the state, trace and buffer that feeding their concatenation leads to. */
  lemma {:induction false} CutsDoNotMatterToConnection(w: World, l: Link, pieces: seq<seq<byte>>)
    requires w.Sane() && CipherWorks(w) && !l.conn.closed
    requires InPlace(Endpoint(w).hooks) && Quiescent(l.reader, l.conn, Endpoint(w))
    ensures Agree(Run(w, l, Pieces(pieces)), OnData(w, l, Join(pieces)))
    decreases |pieces|
  {
    if pieces == [] {
      assert l.reader.Append([]) == l.reader;
    } else {
      var first, rest := pieces[0], Join(pieces[1..]);
      var l1 := OnData(w, l, first);
      assert Pieces(pieces)[1..] == Pieces(pieces[1..]);
      WorkingCipherStaysOpen(w, l.reader.Append(first), l.conn);
      CutAgrees(w, l, first, rest);
      if l1.conn.closed {
        ClosedIsFinal(w, l1, Pieces(pieces[1..]));
      } else {
        DrainedIsQuiescent(l.reader.Append(first), l.conn, Endpoint(w));
        CutsDoNotMatterToConnection(w, l1, pieces[1..]);
      }
    }
  }

  /** How the exception comes about: an authenticated peer pings, and the pong's header cannot be
      encrypted. Frames cut off behind the ping are lost, frames sent with it are not. */
  lemma PingClosesMidway(w: World, l: Link, header: seq<byte>, latency: seq<byte>, ping: seq<byte>)
    requires w.Sane() && w.hasSender
    requires l.conn.state == AUTHED && l.conn.crypt == ACTIVE && !l.conn.closed && l.reader == EMPTY
    requires |header| == |latency| == |ping| == 4
    requires w.decrypt(l.conn.recvPos, header) == (true, PackedHeader(8, CMSG_PING))
    requires w.acceptPing(l.conn.pings) && !w.encrypt(l.conn.sendPos, ServerHeader(true, 4, SMSG_PONG)).0
    ensures ClosedMidway(w, l, header + latency + ping)
  {
    hide ClosedMidway, DecryptHeader;
    HooksInPlace(w);
    var body := latency + ping;
    var r := l.reader.Append(header + latency + ping);
    assert r.unread == header + body && body[4..8] == ping;
    PingTaken(w, l.conn, header, body);
    FailedPongCloses(w, DecryptHeader(w, l.conn, header).ctx, body);
    hide PongFails, TakeFrame, Dispatch;
    MidwayIsClosed(w, l, header + latency + ping);
  }

  /** The ping is handed out whole, after its header has been deciphered. */
  lemma PingTaken(w: World, c: Conn, header: seq<byte>, body: seq<byte>)
    requires w.Sane() && c.state == AUTHED && c.crypt == ACTIVE && |header| == 4 && |body| == 8
    requires w.decrypt(c.recvPos, header) == (true, PackedHeader(8, CMSG_PING))
    ensures KindOf(c) == PostCrypt && InPlace(ReaderHooks(w))
    ensures var c1 := DecryptHeader(w, c, header).ctx;
            && TakeFrame(Reader(NoHeader, header + body), PostCrypt, c, ReaderHooks(w))
               == Step(EMPTY, Ready(c1, Frame(CMSG_PING, body)))
            && c1 == c.(recvPos := c1.recvPos, trace := c1.trace)
  {
    HooksInPlace(w);
    PingHeaderParses();
    hide ParseHeader, PackedHeader;
    var c1 := DecryptHeader(w, c, header).ctx;
    assert TakeHeader(header, PostCrypt, c, ReaderHooks(w)) == Accepted(c1, CMSG_PING, 8);
    assert (header + body)[..4] == header && (header + body)[4..] == body;
    assert body[8..] == [] && body[..8] == body;
  }

  lemma PingHeaderParses()
    ensures ParseHeader(PostCrypt, PackedHeader(8, CMSG_PING)) == Header(8, CMSG_PING)
  {
    PostCryptHeaderExact(PackedHeader(8, CMSG_PING), 8, CMSG_PING);
  }

  lemma FailedPongCloses(w: World, c: Conn, body: seq<byte>)
    requires w.Sane() && InPlace(Endpoint(w).hooks) && w.hasSender && |body| == 8
    requires c.state == AUTHED && c.crypt == ACTIVE && !c.closed
    requires w.acceptPing(c.pings) && !w.encrypt(c.sendPos, ServerHeader(true, 4, SMSG_PONG)).0
    ensures var (c', go) := Dispatch(w, c, Frame(CMSG_PING, body));
            go && c'.closed && Drain(EMPTY, c', Endpoint(w)) == Drained(EMPTY, c', Starved)
  {
    hide FromLE32, ServerHeader;
  }
}
