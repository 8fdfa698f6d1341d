/** The incremental frame reader of the world protocol (src/proto/MopFrameReader.h).

    The reader is fed arbitrary pieces of the byte stream and hands out whole frames. The
    caller picks the header width for every call and supplies two hooks: one deciphers a
    complete header in place and moves the caller's cipher state on, the other decides whether
    an opcode may be accepted. `S` is that caller state; the C++ hooks reach it through a
    `void*`, here it is passed in and handed back.
 */
module FrameReader {
  import opened WireCodec
  import opened Options

  datatype HeaderKind = Greeting | PreCrypt | PostCrypt

  datatype Frame = Frame(cmd: nat, payload: seq<byte>)

  datatype Reason = DecryptFailure | BadSize | BadCommand

  /** What one decipher call leaves behind: the caller's new state, whether it worked, and the
      header bytes as they now stand (arbitrary if it failed). */
  datatype Deciphered<S> = Deciphered(ctx: S, ok: bool, header: seq<byte>)

  datatype Hooks<!S> = Hooks(decrypt: (S, seq<byte>) -> Deciphered<S>, cmdValid: (S, nat, bool) -> bool)

  /** Deciphering works in place, so it cannot change the number of bytes. */
  ghost predicate InPlace<S(!new)>(hooks: Hooks<S>) {
    forall s: S, h: seq<byte> :: |hooks.decrypt(s, h).header| == |h|
  }

  // ---------------------------------------------------------------- what one call means

  datatype Pending = NoHeader | Awaiting(cmd: nat, need: nat)

  /** The reader as its caller can tell it apart: the header already taken off the stream, if
      any, and the bytes not yet consumed. */
  datatype Reader = Reader(pending: Pending, unread: seq<byte>) {
    function Append(more: seq<byte>): Reader {
      this.(unread := unread + more)
    }

    function Weight(): nat {
      |unread| + if pending.Awaiting? then 1 else 0
    }
  }

  const EMPTY := Reader(NoHeader, [])

  datatype Status<S> =
    | NeedMore(ctx: S)
    | Ready(ctx: S, frame: Frame)
    | Malformed(ctx: S, reason: Reason, header: seq<byte>)

  datatype Step<S> = Step(reader: Reader, status: Status<S>)

  function HeaderLength(kind: HeaderKind): nat {
    if kind.PreCrypt? then 6 else 4
  }

  function ParseHeader(kind: HeaderKind, h: seq<byte>): Header
    requires |h| == HeaderLength(kind)
  {
    match kind
    case Greeting => ReadClientGreetingHeader(h)
    case PreCrypt => ReadClientPreCryptHeader(h)
    case PostCrypt => ReadClientPostCryptHeader(h)
  }

  ghost function TakeFrame<S(!new)>(r: Reader, kind: HeaderKind, s: S, hooks: Hooks<S>): (step: Step<S>)
    requires InPlace(hooks)
    ensures step.status.Ready? ==> step.reader.Weight() < r.Weight()
  {
    if r.pending.Awaiting? then TakeBody(r, s)
    else if |r.unread| < HeaderLength(kind) then Step(r, NeedMore(s))
    else
      var h := TakeHeader(r.unread[..HeaderLength(kind)], kind, s, hooks);
      if h.Refused? then Step(r, h.status)
      else TakeBody(Reader(Awaiting(h.cmd, h.size), r.unread[HeaderLength(kind)..]), h.ctx)
  }

  datatype HeaderResult<S> = Refused(status: Status<S>) | Accepted(ctx: S, cmd: nat, size: nat)

  function TakeHeader<S>(h: seq<byte>, kind: HeaderKind, s: S, hooks: Hooks<S>): HeaderResult<S>
    requires |h| == HeaderLength(kind) == |hooks.decrypt(s, h).header|
  {
    var d := hooks.decrypt(s, h);
    if !d.ok then Refused(Malformed(d.ctx, DecryptFailure, d.header))
    else
      match ParseHeader(kind, d.header)
      case Rejected => Refused(Malformed(d.ctx, BadSize, d.header))
      case Header(size, cmd) =>
        if hooks.cmdValid(d.ctx, cmd, !kind.PostCrypt?) then Accepted(d.ctx, cmd, size)
        else Refused(Malformed(d.ctx, BadCommand, d.header))
  }

  ghost function TakeBody<S>(r: Reader, s: S): (step: Step<S>)
    requires r.pending.Awaiting?
  {
    if |r.unread| < r.pending.need then Step(r, NeedMore(s))
    else
      var frame := Frame(r.pending.cmd, r.unread[..r.pending.need]);
      Step(Reader(NoHeader, r.unread[r.pending.need..]), Ready(s, frame))
  }

  /** The header is the one a client writes for a payload of this size, within the limit, under
      this opcode. */
  predicate Announces(kind: HeaderKind, h: seq<byte>, size: nat, cmd: nat) {
    match kind
    case Greeting => size <= MAX_CLIENT_SIZE - 2 && cmd < 0x1_0000 && h == ClientGreetingHeader(size, cmd)
    case PreCrypt => size <= MAX_CLIENT_SIZE - 4 && cmd < 0x1_0000_0000 && h == ClientPreCryptHeader(size, cmd)
    case PostCrypt => size <= MAX_CLIENT_PAYLOAD && cmd < OPCODE_SPACE && h == PackedHeader(size, cmd)
  }

  lemma AnnouncedExactly(kind: HeaderKind, h: seq<byte>, size: nat, cmd: nat)
    requires |h| == HeaderLength(kind)
    ensures ParseHeader(kind, h) == Header(size, cmd) <==> Announces(kind, h, size, cmd)
  {
    hide ReadClientGreetingHeader, ReadClientPreCryptHeader, ReadClientPostCryptHeader;
    match kind
    case Greeting => GreetingHeaderExact(h, size, cmd);
    case PreCrypt => PreCryptHeaderExact(h, size, cmd);
    case PostCrypt => PostCryptHeaderExact(h, size, cmd);
  }

  /** When a complete header lies ahead: it is refused for what it says exactly if no size within
      the limit and no opcode are written that way, and otherwise the opcode decides; an accepted
      one yields its payload as soon as that is there. Deciphering comes before all of this, and a
      refused header stays where it is. */
  lemma HeaderTakenExactly<S(!new)>(r: Reader, kind: HeaderKind, s: S, hooks: Hooks<S>, size: nat, cmd: nat)
    requires InPlace(hooks) && r.pending.NoHeader? && |r.unread| >= HeaderLength(kind)
    ensures var n := HeaderLength(kind);
            var d := hooks.decrypt(s, r.unread[..n]);
            var (rest, step) := (r.unread[n..], TakeFrame(r, kind, s, hooks));
            && (!d.ok ==> step == Step(r, Malformed(d.ctx, DecryptFailure, d.header)))
            && (d.ok && Announces(kind, d.header, size, cmd) ==>
                  step == if !hooks.cmdValid(d.ctx, cmd, kind != PostCrypt) then
                            Step(r, Malformed(d.ctx, BadCommand, d.header))
                          else if size > |rest| then Step(Reader(Awaiting(cmd, size), rest), NeedMore(d.ctx))
                          else Step(Reader(NoHeader, rest[size..]), Ready(d.ctx, Frame(cmd, rest[..size]))))
            && (d.ok && (forall size: nat, cmd: nat :: !Announces(kind, d.header, size, cmd)) ==>
                  step == Step(r, Malformed(d.ctx, BadSize, d.header)))
  {
    hide ParseHeader, Announces;
    var header := hooks.decrypt(s, r.unread[..HeaderLength(kind)]).header;
    AnnouncedExactly(kind, header, size, cmd);
    var parsed := ParseHeader(kind, header);
    if parsed.Header? { AnnouncedExactly(kind, header, parsed.size, parsed.cmd); }
  }

  // ---------------------------------------------------------------- the reader itself

  class MopFrameReader {
    var buf: seq<byte>
    var rpos: nat
    var haveHeader: bool
    var cmd: nat
    var need: nat
    var lastReason: seq<Reason>      // empty until a frame has been refused
    var lastHeader: seq<byte>
    var lastPreCrypt: bool

    ghost predicate Valid()
      reads this
    {
      rpos <= |buf|
    }

    ghost function State(): Reader
      reads this
      requires Valid()
    {
      Reader(if haveHeader then Awaiting(cmd, need) else NoHeader, buf[rpos..])
    }

    /** Consumed bytes never pile up: at most 4096 of them are kept, and none once all are read. */
    ghost predicate Compacted()
      reads this
    {
      rpos <= 4096 && (rpos == 0 || rpos < |buf|)
    }

    constructor ()
      ensures Valid() && State() == EMPTY && lastReason == []
    {
      buf, rpos, haveHeader, cmd, need := [], 0, false, 0, 0;
      lastReason, lastHeader, lastPreCrypt := [], [], false;
    }

    method Push(data: seq<byte>)
      requires Valid()
      modifies this`buf, this`rpos
      ensures Valid() && Compacted()
      ensures State() == old(State()).Append(data)
    {
      assert (buf + data)[rpos..] == buf[rpos..] + data;
      buf := buf + data;
      Compact();
    }

    method Compact()
      requires Valid()
      modifies this`buf, this`rpos
      ensures Valid() && Compacted()
      ensures State() == old(State())
    {
      if rpos != 0 && rpos == |buf| {
        buf, rpos := [], 0;
      } else if rpos > 4096 {
        buf, rpos := buf[rpos..], 0;
      }
    }

    method Fail(reason: Reason, header: seq<byte>, preCrypt: bool)
      modifies this`lastReason, this`lastHeader, this`lastPreCrypt
      ensures lastReason == [reason] && lastPreCrypt == preCrypt
      ensures lastHeader == if |header| < 6 then header else header[..6]
    {
      lastReason, lastPreCrypt := [reason], preCrypt;
      lastHeader := if |header| < 6 then header else header[..6];
    }

    method TryFrame<S(!new)>(kind: HeaderKind, s: S, hooks: Hooks<S>) returns (status: Status<S>)
      requires Valid() && InPlace(hooks)
      modifies this
      ensures Valid()
      ensures Step(State(), status) == TakeFrame(old(State()), kind, s, hooks)
      ensures status.Ready? ==> Compacted()
      ensures status.Malformed? ==>
                lastReason == [status.reason] && lastHeader == status.header && lastPreCrypt == !kind.PostCrypt?
      ensures !status.Malformed? ==>
                lastReason == old(lastReason) && lastHeader == old(lastHeader) && lastPreCrypt == old(lastPreCrypt)
    {
      hide TakeHeader, TakeBody, ParseHeader;
      var ctx := s;
      if !haveHeader {
        var hlen := if kind.PreCrypt? then 6 else 4;
        if |buf| - rpos < hlen {
          return NeedMore(ctx);
        }
        assert buf[rpos..][..hlen] == buf[rpos..rpos + hlen];
        var bad: Option<Status<S>>;
        bad, ctx := DecodeHeader(buf[rpos..rpos + hlen], kind, ctx, hooks);
        if bad.Some? {
          return bad.value;
        }
        assert buf[rpos..][hlen..] == buf[rpos + hlen..];
        rpos, haveHeader := rpos + hlen, true;
      }
      status := TakePayload(ctx);
    }

    /** Deciphers and checks a complete header; refusing it records why. */
    method DecodeHeader<S>(header: seq<byte>, kind: HeaderKind, s: S, hooks: Hooks<S>)
      returns (bad: Option<Status<S>>, ctx: S)
      requires |header| == HeaderLength(kind) == |hooks.decrypt(s, header).header|
      modifies this`cmd, this`need, this`lastReason, this`lastHeader, this`lastPreCrypt
      ensures match TakeHeader(header, kind, s, hooks)
              case Accepted(ctx', c, n) => bad == None && ctx == ctx' && cmd == c && need == n
              case Refused(status) => bad == Some(status)
      ensures bad.Some? ==>
                && bad.value.Malformed? && lastReason == [bad.value.reason]
                && lastHeader == bad.value.header && lastPreCrypt == !kind.PostCrypt?
      ensures bad == None ==>
                lastReason == old(lastReason) && lastHeader == old(lastHeader) && lastPreCrypt == old(lastPreCrypt)
    {
      var preCrypt := !kind.PostCrypt?;
      var d := hooks.decrypt(s, header);
      ctx := d.ctx;
      if !d.ok {
        Fail(DecryptFailure, d.header, preCrypt);
        return Some(Malformed(ctx, DecryptFailure, d.header)), ctx;
      }
      var parsed := ParseHeader(kind, d.header);
      if parsed.Rejected? {
        Fail(BadSize, d.header, preCrypt);
        return Some(Malformed(ctx, BadSize, d.header)), ctx;
      }
      cmd := parsed.cmd;
      if !hooks.cmdValid(ctx, cmd, preCrypt) {
        Fail(BadCommand, d.header, preCrypt);
        return Some(Malformed(ctx, BadCommand, d.header)), ctx;
      }
      need := parsed.size;
      return None, ctx;
    }

    /** The second half of TryFrame: the header is known, hand out the payload once it is all there. */
    method TakePayload<S(!new)>(s: S) returns (status: Status<S>)
      requires Valid() && haveHeader
      modifies this`buf, this`rpos, this`haveHeader
      ensures Valid()
      ensures Step(State(), status) == TakeBody(old(State()), s)
      ensures !status.Malformed? && (status.Ready? ==> Compacted())
    {
      if |buf| - rpos < need {
        return NeedMore(s);
      }
      var frame := Frame(cmd, buf[rpos..rpos + need]);
      assert buf[rpos..][..need] == frame.payload;
      assert buf[rpos..][need..] == buf[rpos + need..];
      rpos, haveHeader := rpos + need, false;
      Compact();
      return Ready(s, frame);
    }
  }
}
