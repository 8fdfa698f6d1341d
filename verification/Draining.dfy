/** What a connection makes of a byte stream by calling TryFrame until no frame is left
    (the loop of ClientConnection::onData, src/proto/ClientConnection.cpp), and why it does not
    matter how the stream was cut into pieces. */
module Draining {
  import opened WireCodec
  import opened FrameReader

  /** The receiving end: which header width applies next, the two reader hooks, and what a
      complete frame does to the caller's state (false stops the loop). */
  datatype Consumer<!S> =
    Consumer(kind: S -> HeaderKind, hooks: Hooks<S>, dispatch: (S, Frame) -> (S, bool))

  datatype End = Starved | Broken(reason: Reason) | Stopped

  datatype Drained<S> = Drained(reader: Reader, ctx: S, end: End)

  ghost function Drain<S(!new)>(r: Reader, s: S, c: Consumer<S>): (d: Drained<S>)
    requires InPlace(c.hooks)
    decreases r.Weight()
  {
    var step := TakeFrame(r, c.kind(s), s, c.hooks);
    match step.status
    case NeedMore(ctx) => Drained(step.reader, ctx, Starved)
    case Malformed(ctx, reason, _) => Drained(step.reader, ctx, Broken(reason))
    case Ready(ctx, frame) =>
      var (ctx', go) := c.dispatch(ctx, frame);
      if go then Drain(step.reader, ctx', c) else Drained(step.reader, ctx', Stopped)
  }

  /** The frames handed over while draining, each with the state it was handed over in. */
  ghost function Handled<S(!new)>(r: Reader, s: S, c: Consumer<S>): seq<(S, Frame)>
    requires InPlace(c.hooks)
    decreases r.Weight()
  {
    var step := TakeFrame(r, c.kind(s), s, c.hooks);
    if !step.status.Ready? then []
    else
      var (ctx', go) := c.dispatch(step.status.ctx, step.status.frame);
      [(step.status.ctx, step.status.frame)] + if go then Handled(step.reader, ctx', c) else []
  }

  /** Feeding the pieces one by one, draining after each, until the loop has ended for good. */
  ghost function Feed<S(!new)>(r: Reader, s: S, c: Consumer<S>, pieces: seq<seq<byte>>): Drained<S>
    requires InPlace(c.hooks)
    decreases |pieces|
  {
    if pieces == [] then Drained(r, s, Starved)
    else
      var d := Drain(r.Append(pieces[0]), s, c);
      if d.end.Starved? then Feed(d.reader, d.ctx, c, pieces[1..]) else d
  }

  ghost function Join(pieces: seq<seq<byte>>): seq<byte> {
    if pieces == [] then [] else pieces[0] + Join(pieces[1..])
  }

  /** A reader that has been drained has nothing more to say until bytes arrive. */
  ghost predicate Quiescent<S(!new)>(r: Reader, s: S, c: Consumer<S>)
    requires InPlace(c.hooks)
  {
    Drain(r, s, c) == Drained(r, s, Starved)
  }

  /** Equal for every purpose but the leftover bytes of a stream that is no longer read. */
  ghost predicate SameOutcome<S(!new)>(d: Drained<S>, e: Drained<S>) {
    && d.ctx == e.ctx && d.end == e.end
    && (d.end.Starved? ==> d.reader == e.reader)
  }

  // ---------------------------------------------------------------- bytes that arrive later

  lemma BodyAppend<S>(r: Reader, s: S, more: seq<byte>)
    requires r.pending.Awaiting?
    requires TakeBody(r, s).status.Ready?
    ensures TakeBody(r.Append(more), s) == Step(TakeBody(r, s).reader.Append(more), TakeBody(r, s).status)
  {
    var need := r.pending.need;
    assert (r.unread + more)[..need] == r.unread[..need];
    assert (r.unread + more)[need..] == r.unread[need..] + more;
  }

  /** A call that already had an answer gives the same one however many bytes follow. */
  lemma StepAppend<S(!new)>(r: Reader, kind: HeaderKind, s: S, hooks: Hooks<S>, more: seq<byte>)
    requires InPlace(hooks)
    requires !TakeFrame(r, kind, s, hooks).status.NeedMore?
    ensures var step := TakeFrame(r, kind, s, hooks);
            TakeFrame(r.Append(more), kind, s, hooks) == Step(step.reader.Append(more), step.status)
  {
    if r.pending.Awaiting? {
      BodyAppend(r, s, more);
    } else {
      var n := HeaderLength(kind);
      assert (r.unread + more)[..n] == r.unread[..n];
      assert (r.unread + more)[n..] == r.unread[n..] + more;
      var h := TakeHeader(r.unread[..n], kind, s, hooks);
      if h.Accepted? {
        BodyAppend(Reader(Awaiting(h.cmd, h.size), r.unread[n..]), h.ctx, more);
      }
    }
  }

  /** A call that had to wait has kept everything it needs: asking again with the header kind
      the new state calls for continues exactly where one call on all the bytes would be.
      When the header was taken off the stream meanwhile, its kind no longer matters. */
  lemma StepResume<S(!new)>(r: Reader, kind: HeaderKind, s: S, hooks: Hooks<S>, kind': HeaderKind, more: seq<byte>)
    requires InPlace(hooks)
    requires TakeFrame(r, kind, s, hooks).status.NeedMore?
    requires kind' == kind || TakeFrame(r, kind, s, hooks).reader.pending.Awaiting?
    ensures var step := TakeFrame(r, kind, s, hooks);
            TakeFrame(r.Append(more), kind, s, hooks) == TakeFrame(step.reader.Append(more), kind', step.status.ctx, hooks)
  {
    if r.pending.NoHeader? && |r.unread| >= HeaderLength(kind) {
      var n := HeaderLength(kind);
      assert (r.unread + more)[..n] == r.unread[..n];
      assert (r.unread + more)[n..] == r.unread[n..] + more;
    }
  }

  lemma {:induction false} DrainedIsQuiescent<S(!new)>(r: Reader, s: S, c: Consumer<S>)
    requires InPlace(c.hooks)
    requires Drain(r, s, c).end.Starved?
    ensures var d := Drain(r, s, c); Quiescent(d.reader, d.ctx, c)
    decreases r.Weight()
  {
    var step := TakeFrame(r, c.kind(s), s, c.hooks);
    if step.status.Ready? {
      DrainedIsQuiescent(step.reader, c.dispatch(step.status.ctx, step.status.frame).0, c);
    }
  }

  /** Draining, then draining again when more bytes have come, is draining once over all of them;
      and a loop that has ended for good does not look at later bytes at all. */
  lemma {:induction false} DrainAppend<S(!new)>(r: Reader, s: S, c: Consumer<S>, more: seq<byte>)
    requires InPlace(c.hooks)
    ensures var d := Drain(r, s, c);
            Drain(r.Append(more), s, c) ==
            if d.end.Starved? then Drain(d.reader.Append(more), d.ctx, c) else d.(reader := d.reader.Append(more))
    decreases r.Weight()
  {
    var kind := c.kind(s);
    var step := TakeFrame(r, kind, s, c.hooks);
    if step.status.NeedMore? {
      StepResume(r, kind, s, c.hooks, c.kind(step.status.ctx), more);
    } else {
      StepAppend(r, kind, s, c.hooks, more);
      if step.status.Ready? {
        var (ctx, go) := c.dispatch(step.status.ctx, step.status.frame);
        if go { DrainAppend(step.reader, ctx, c, more); }
      }
    }
  }

  /** However a byte stream is cut, draining after each piece gives the outcome of draining it
      all at once: the same caller state (hence the same frames, decipher calls and verdicts, which
      are all that ever change it) and the same way of ending. */
  lemma {:induction false} CutsDoNotMatter<S(!new)>(r: Reader, s: S, c: Consumer<S>, pieces: seq<seq<byte>>)
    requires InPlace(c.hooks) && Quiescent(r, s, c)
    ensures SameOutcome(Feed(r, s, c, pieces), Drain(r.Append(Join(pieces)), s, c))
    decreases |pieces|
  {
    hide TakeFrame, Drain;
    if pieces == [] {
      assert r.Append([]) == r;
    } else {
      var first, rest := pieces[0], Join(pieces[1..]);
      var d := Drain(r.Append(first), s, c);
      DrainAppend(r.Append(first), s, c, rest);
      assert r.Append(first).Append(rest) == r.Append(first + rest);
      if d.end.Starved? {
        DrainedIsQuiescent(r.Append(first), s, c);
        CutsDoNotMatter(d.reader, d.ctx, c, pieces[1..]);
      }
    }
  }

  /** In particular two cuts of the same stream, starting from a new connection, agree. */
  lemma AnyTwoCutsAgree<S(!new)>(s: S, c: Consumer<S>, pieces: seq<seq<byte>>, pieces': seq<seq<byte>>)
    requires InPlace(c.hooks)
    requires Join(pieces) == Join(pieces')
    ensures SameOutcome(Feed(EMPTY, s, c, pieces), Feed(EMPTY, s, c, pieces'))
  {
    CutsDoNotMatter(EMPTY, s, c, pieces);
    CutsDoNotMatter(EMPTY, s, c, pieces');
  }
}
