/** Decoding the body of CMSG_AUTH_SESSION (src/proto/MopAuthSession.cpp) out of a ByteBuffer
    (src/shared/Utilities/ByteBuffer.h), against the layout the client writes. */
module AuthSession {
  import opened WireCodec
  import opened Options

  // ---------------------------------------------------------------- bits, most significant first

  function Pow2(n: nat): nat {
    if n == 0 then 1 else 2 * Pow2(n - 1)
  }

  /** `x >> n` for an unsigned x. */
  function Shr(x: nat, n: nat): nat {
    if n == 0 then x else Shr(x / 2, n - 1)
  }

  function BitAt(s: seq<byte>, k: nat): (bit: nat)
    requires k < 8 * |s|
    ensures bit < 2
  {
    Shr(s[k / 8], 7 - k % 8) % 2
  }

  /** The `n` bits from bit `k` on, read as a number. */
  function BitsValue(s: seq<byte>, k: nat, n: nat): nat
    requires k + n <= 8 * |s|
    decreases n
  {
    if n == 0 then 0 else (if BitAt(s, k) == 1 then Pow2(n - 1) else 0) + BitsValue(s, k + 1, n - 1)
  }

  /** Reading buffer with a byte cursor and a bit cursor inside the byte read last. */
  class ByteBuffer {
    const storage: seq<byte>
    var rpos: nat
    var curbitval: byte
    var bitpos: nat

    ghost predicate Valid()
      reads this
    {
      && rpos <= |storage| && bitpos <= 8
      && (bitpos < 8 ==> 0 < rpos && curbitval == storage[rpos - 1])
    }

    /** Where the next ReadBit looks, counted in bits from the start of the buffer. */
    ghost function BitCursor(): nat
      reads this
      requires Valid()
    {
      if bitpos == 8 then 8 * rpos else 8 * (rpos - 1) + bitpos + 1
    }

    /** Eleven bits on from the second bit of byte p the cursor is inside the byte after the next. */
    lemma ElevenOn(p: nat)
      requires Valid() && bitpos < 8 && BitCursor() == 8 * p + 12
      ensures rpos == p + 2
    {
    }

    constructor (data: seq<byte>)
      ensures Valid() && storage == data && rpos == 0 && bitpos == 8
    {
      storage, rpos, curbitval, bitpos := data, 0, 0, 8;
    }

    /** Copies out the next `len` bytes. The C++ code throws when they are not there, so
        asking for them is a claim that they are. */
    method Read(len: nat) returns (data: seq<byte>)
      requires rpos + len <= |storage|
      modifies this`rpos, this`bitpos
      ensures Valid() && bitpos == 8 && rpos == old(rpos) + len
      ensures data == storage[old(rpos)..rpos]
    {
      bitpos := 8;
      data := storage[rpos..rpos + len];
      rpos := rpos + len;
    }

    method ReadU8() returns (b: byte)
      requires rpos < |storage|
      modifies this`rpos, this`bitpos
      ensures Valid() && bitpos == 8 && rpos == old(rpos) + 1
      ensures b == storage[old(rpos)]
    {
      var data := Read(1);
      b := data[0];
    }

    method ReadBit() returns (bit: bool)
      requires Valid() && BitCursor() < 8 * |storage|
      modifies this`rpos, this`bitpos, this`curbitval
      ensures Valid() && bitpos < 8
      ensures BitCursor() == old(BitCursor()) + 1
      ensures bit <==> BitAt(storage, old(BitCursor())) == 1
    {
      bitpos := bitpos + 1;
      if bitpos > 7 {
        curbitval := ReadU8();
        bitpos := 0;
      }
      bit := Shr(curbitval, 7 - bitpos) % 2 != 0;
    }

    method ReadBits(bits: nat) returns (value: nat)
      requires Valid() && BitCursor() + bits <= 8 * |storage|
      modifies this`rpos, this`bitpos, this`curbitval
      ensures Valid() && (bits > 0 ==> bitpos < 8)
      ensures BitCursor() == old(BitCursor()) + bits
      ensures value == BitsValue(storage, old(BitCursor()), bits)
    {
      hide BitAt, Pow2;
      value := 0;
      var i: nat := bits;
      while i > 0
        invariant i <= bits && Valid() && (i < bits ==> bitpos < 8)
        invariant BitCursor() == old(BitCursor()) + bits - i
        invariant value + BitsValue(storage, BitCursor(), i) == BitsValue(storage, old(BitCursor()), bits)
      {
        i := i - 1;
        var bit := ReadBit();
        if bit {
          value := value + Pow2(i);
        }
      }
    }

    method ReadString(count: nat) returns (s: seq<byte>)
      requires Valid()
      modifies this`rpos, this`bitpos
      ensures Valid() && rpos == if old(rpos) + count <= |storage| then old(rpos) + count else |storage|
      ensures s == storage[old(rpos)..rpos]
    {
      s := [];
      var start := rpos;
      while rpos < |storage| && rpos < start + count
        invariant Valid() && start <= rpos <= start + count
        invariant s == storage[start..rpos]
      {
        var c := ReadU8();
        s := s + [c];
      }
    }
  }

  // ---------------------------------------------------------------- the client's layout

  datatype Fields = Fields(
    digest: seq<byte>,
    clientSeed: nat,
    builtNumberClient: nat,
    addonData: seq<byte>,
    account: seq<byte>,
    useIPv6: bool)
  {
    /** What the client can put on the wire at all: fixed-width numbers, an 11-bit name length. */
    predicate Encodable() {
      && |digest| == 20
      && clientSeed < 0x1_0000_0000 && builtNumberClient < 0x1_0000
      && |addonData| < 0x1_0000_0000 && |account| <= 2047
    }
  }

  const PREFIX := 56

  /** Where the client puts byte k of the digest. */
  const DIGEST_OFFSETS: seq<nat> :=
    [12, 50, 25, 10, 11, 41, 42, 47, 43, 26, 51, 17, 27, 48, 9, 49, 40, 46, 8, 22]

  /** The fixed prefix in the order the client writes it; `pad` supplies the bytes at the
      positions whose meaning the server does not interpret. */
  function EncodePrefix(f: Fields, pad: seq<byte>): seq<byte>
    requires f.Encodable() && |pad| == PREFIX
  {
    var d := f.digest;
    (pad[..8] + [d[18], d[14], d[3], d[4], d[0]])
    + (pad[13..17] + [d[11]] + LE32(f.clientSeed) + [d[19]])
    + (pad[23..25] + [d[2], d[9], d[12]] + pad[28..40])
    + ([d[16], d[5], d[6], d[8]] + LE16(f.builtNumberClient) + [d[17], d[7], d[13], d[15], d[1], d[10]])
    + LE32(|f.addonData|)
  }

  /** One flag bit, an 11-bit length, and four bits nobody reads. */
  function EncodeName(f: Fields, slack: nat): seq<byte>
    requires f.Encodable() && slack < 16
  {
    [(if f.useIPv6 then 128 else 0) + |f.account| / 16, |f.account| % 16 * 16 + slack] + f.account
  }

  function Encode(f: Fields, pad: seq<byte>, slack: nat): seq<byte>
    requires f.Encodable() && |pad| == PREFIX && slack < 16
  {
    EncodePrefix(f, pad) + f.addonData + EncodeName(f, slack)
  }

  datatype DecodeResult = Ok | ShortBody | BadAddonSize | TruncatedName

  /** The flag and the account name, if the bytes for them are there. */
  datatype Name = NameError(result: DecodeResult) | Name(useIPv6: bool, account: seq<byte>)

  /** The low seven bits of one byte and the high four of the next. */
  function NameLength(b0: byte, b1: byte): (n: nat)
    ensures n <= 2047
  {
    b0 as int % 128 * 16 + b1 as int / 16
  }

  function ParseName(t: seq<byte>): (name: Name)
    ensures if name.Name? then |name.account| <= 2047 else !name.result.Ok?
  {
    if |t| < 2 then NameError(ShortBody)
    else
      var length := NameLength(t[0], t[1]);
      if length > |t| - 2 then NameError(TruncatedName) else Name(t[0] >= 128, t[2..2 + length])
  }

  /** The fields a body carries, if each part fits into what is left of it. */
  function Parse(b: seq<byte>): (DecodeResult, Option<Fields>) {
    if |b| < PREFIX then (ShortBody, None)
    else if FromLE32(b[52..56]) > |b| - PREFIX then (BadAddonSize, None)
    else
      var rest := PREFIX + FromLE32(b[52..56]);
      match ParseName(b[rest..])
      case NameError(result) => (result, None)
      case Name(useIPv6, account) =>
        (Ok, Some(Fields(DigestOf(b), FromLE32(b[18..22]), FromLE16(b[44..46]), b[PREFIX..rest], account, useIPv6)))
  }

  /** Which complaint each body draws, for every body: the first part that does not fit. */
  lemma RefusedExactly(b: seq<byte>)
    ensures var announced := if |b| >= 56 then FromLE32(b[52..56]) else 0;
            var left := |b| - 56 - announced;
            var length := if |b| >= 56 && left >= 2 then
                            b[56 + announced] as int % 128 * 16 + b[57 + announced] as int / 16
                          else 0;
            && (Parse(b).0 == BadAddonSize <==> |b| >= 56 && left < 0)
            && (Parse(b).0 == ShortBody <==> |b| < 56 || 0 <= left < 2)
            && (Parse(b).0 == TruncatedName <==> |b| >= 56 && left >= 2 && length > left - 2)
            && (Parse(b).0 == Ok <==> Parse(b).1.Some?)
  {
    hide FromLE32, DigestOf;
  }

  function DigestOf(b: seq<byte>): (d: seq<byte>)
    requires |b| >= PREFIX
    ensures |d| == 20
  {
    seq(20, k requires 0 <= k < 20 => b[DIGEST_OFFSETS[k]])
  }

  /** The digest bytes land on twenty different positions of the prefix, none of which belongs
      to the seed, the build number or the addon size: the scatter is a permutation. */
  lemma DigestOffsetsDistinct(i: nat, j: nat)
    requires i < j < 20
    ensures DIGEST_OFFSETS[i] != DIGEST_OFFSETS[j]
    ensures 8 <= DIGEST_OFFSETS[i] < 52 && !(18 <= DIGEST_OFFSETS[i] < 22) && !(44 <= DIGEST_OFFSETS[i] < 46)
  {
  }

  lemma PrefixFields(f: Fields, pad: seq<byte>)
    requires f.Encodable() && |pad| == PREFIX
    ensures var p := EncodePrefix(f, pad);
            && |p| == PREFIX
            && p[18..22] == LE32(f.clientSeed) && p[44..46] == LE16(f.builtNumberClient)
            && p[52..56] == LE32(|f.addonData|)
            && forall k :: 0 <= k < 20 ==> p[DIGEST_OFFSETS[k]] == f.digest[k]
  {
  }

  lemma NameInverts(f: Fields, slack: nat, rest: seq<byte>)
    requires f.Encodable() && slack < 16
    ensures ParseName(EncodeName(f, slack) + rest) == Name(f.useIPv6, f.account)
  {
    var t, n := EncodeName(f, slack) + rest, |f.account|;
    assert t[2..2 + n] == f.account;
    assert t[0] as int == (if f.useIPv6 then 128 else 0) + n / 16 && t[1] as int == n % 16 * 16 + slack;
    LengthRestored(f.useIPv6, n, slack, t[0], t[1]);
  }

  lemma LengthRestored(flag: bool, n: nat, slack: nat, b0: byte, b1: byte)
    requires n <= 2047 && slack < 16
    requires b0 as int == (if flag then 128 else 0) + n / 16 && b1 as int == n % 16 * 16 + slack
    ensures NameLength(b0, b1) == n && (flag <==> b0 >= 128)
  {
    assert b0 as int % 128 == n / 16 && b1 as int / 16 == n % 16;
  }

  /** Decoding inverts the client's encoding, whatever the uninterpreted bytes are and whatever
      follows the body. */
  lemma DecodeInvertsEncode(f: Fields, pad: seq<byte>, slack: nat, rest: seq<byte>)
    requires f.Encodable() && |pad| == PREFIX && slack < 16
    ensures Parse(Encode(f, pad, slack) + rest) == (Ok, Some(f))
  {
    var b := Encode(f, pad, slack) + rest;
    BodySlices(f, pad, slack, rest);
    NameInverts(f, slack, rest);
    LERoundTrip(|f.addonData|);
    LERoundTrip(f.clientSeed);
    LERoundTrip(f.builtNumberClient);
    assert DigestOf(b) == f.digest;
  }

  /** Where the parts of an encoded body lie. */
  lemma BodySlices(f: Fields, pad: seq<byte>, slack: nat, rest: seq<byte>)
    requires f.Encodable() && |pad| == PREFIX && slack < 16
    ensures var b := Encode(f, pad, slack) + rest;
            var name := PREFIX + |f.addonData|;
            && |b| >= name
            && b[18..22] == LE32(f.clientSeed) && b[44..46] == LE16(f.builtNumberClient)
            && b[52..56] == LE32(|f.addonData|) && b[PREFIX..name] == f.addonData
            && b[name..] == EncodeName(f, slack) + rest
            && forall k :: 0 <= k < 20 ==> b[DIGEST_OFFSETS[k]] == f.digest[k]
  {
    hide EncodePrefix, EncodeName;
    var p, t := EncodePrefix(f, pad), EncodeName(f, slack) + rest;
    PrefixFields(f, pad);
    var b := Encode(f, pad, slack) + rest;
    assert b == p + (f.addonData + t);
    SliceOfPrefix(p, f.addonData + t, 18, 22);
    SliceOfPrefix(p, f.addonData + t, 44, 46);
    SliceOfPrefix(p, f.addonData + t, 52, 56);
  }

  lemma SliceOfPrefix(p: seq<byte>, u: seq<byte>, i: nat, j: nat)
    requires i <= j <= |p|
    ensures (p + u)[i..j] == p[i..j]
  {
  }

  /** Nothing else is accepted: a body that decodes is the encoding of its fields, possibly with
      bytes after it. Together with DecodeInvertsEncode: accepted bodies are exactly the client's. */
  lemma AcceptedIsEncoded(b: seq<byte>) returns (pad: seq<byte>, slack: nat, rest: seq<byte>)
    requires Parse(b).0.Ok?
    ensures |pad| == PREFIX && slack < 16 && Parse(b).1.Some?
    ensures var f := Parse(b).1.value; f.Encodable() && b == Encode(f, pad, slack) + rest
  {
    ParsedParts(b);
    var f := Parse(b).1.value;
    var name := PREFIX + |f.addonData|;
    PrefixRebuilt(b);
    pad := b[..PREFIX];
    slack, rest := NameRebuilt(f, b[name..]);
    Rejoin(b, PREFIX, name, EncodeName(f, slack), rest);
  }

  lemma ParsedParts(b: seq<byte>)
    requires Parse(b).0.Ok?
    ensures Parse(b).1.Some?
    ensures var f := Parse(b).1.value; var name := PREFIX + |f.addonData|;
            && name <= |b| && f.addonData == b[PREFIX..name] && ParseName(b[name..]) == Name(f.useIPv6, f.account)
  {
  }

  lemma Rejoin(b: seq<byte>, i: nat, j: nat, t: seq<byte>, u: seq<byte>)
    requires i <= j <= |b| && b[j..] == t + u
    ensures b == b[..i] + b[i..j] + t + u
  {
    assert b == b[..i] + b[i..j] + b[j..];
  }

  lemma NameRebuilt(f: Fields, t: seq<byte>) returns (slack: nat, rest: seq<byte>)
    requires f.Encodable() && ParseName(t) == Name(f.useIPv6, f.account)
    ensures slack < 16 && t == EncodeName(f, slack) + rest
  {
    slack, rest := t[1] as int % 16, t[2 + |f.account|..];
    NameBytes(f, t);
    assert t == [t[0], t[1]] + f.account + rest;
  }

  lemma NameBytes(f: Fields, t: seq<byte>)
    requires f.Encodable() && ParseName(t) == Name(f.useIPv6, f.account)
    ensures |t| >= 2 + |f.account|
    ensures t[0] as int == (if f.useIPv6 then 128 else 0) + |f.account| / 16
    ensures t[1] as int == |f.account| % 16 * 16 + t[1] as int % 16
  {
    var high, low := t[0] as int % 128, t[1] as int / 16;
    assert |f.account| == high * 16 + low && low < 16;
    assert |f.account| / 16 == high && |f.account| % 16 == low;
  }

  lemma PrefixRebuilt(b: seq<byte>)
    requires Parse(b).0.Ok?
    ensures Parse(b).1.value.Encodable()
    ensures EncodePrefix(Parse(b).1.value, b[..PREFIX]) == b[..PREFIX]
  {
    ParsedPrefix(b);
    DigestOfPrefix(b);
    SliceOfSlice(b, 18, 22);
    SliceOfSlice(b, 44, 46);
    SliceOfSlice(b, 52, 56);
    PrefixPieces(Parse(b).1.value, b[..PREFIX]);
  }

  lemma ParsedPrefix(b: seq<byte>)
    requires Parse(b).0.Ok?
    ensures |b| >= PREFIX && Parse(b).1.Some?
    ensures var f := Parse(b).1.value;
            && f.Encodable() && f.digest == DigestOf(b)
            && LE32(f.clientSeed) == b[18..22] && LE16(f.builtNumberClient) == b[44..46] && LE32(|f.addonData|) == b[52..56]
  {
  }

  lemma DigestOfPrefix(b: seq<byte>)
    requires |b| >= PREFIX
    ensures DigestOf(b[..PREFIX]) == DigestOf(b)
  {
    forall k | 0 <= k < 20 ensures DigestOf(b[..PREFIX])[k] == DigestOf(b)[k] {
      assert 8 <= DIGEST_OFFSETS[k] < 52;
    }
  }

  lemma SliceOfSlice(b: seq<byte>, i: nat, j: nat)
    requires i <= j <= PREFIX <= |b|
    ensures b[..PREFIX][i..j] == b[i..j]
  {
  }

  lemma PieceOne(p: seq<byte>, d: seq<byte>)
    requires |p| == PREFIX && d == DigestOf(p)
    ensures p[..13] == p[..8] + [d[18], d[14], d[3], d[4], d[0]]
  {
  }

  lemma PieceTwo(p: seq<byte>, d: seq<byte>)
    requires |p| == PREFIX && d == DigestOf(p)
    ensures p[13..23] == p[13..17] + [d[11]] + p[18..22] + [d[19]]
  {
  }

  lemma PieceThree(p: seq<byte>, d: seq<byte>)
    requires |p| == PREFIX && d == DigestOf(p)
    ensures p[23..40] == p[23..25] + [d[2], d[9], d[12]] + p[28..40]
  {
  }

  lemma PieceFour(p: seq<byte>, d: seq<byte>)
    requires |p| == PREFIX && d == DigestOf(p)
    ensures p[40..52] == [d[16], d[5], d[6], d[8]] + p[44..46] + [d[17], d[7], d[13], d[15], d[1], d[10]]
  {
  }

  lemma PrefixPieces(f: Fields, p: seq<byte>)
    requires f.Encodable() && |p| == PREFIX && f.digest == DigestOf(p)
    requires LE32(f.clientSeed) == p[18..22] && LE16(f.builtNumberClient) == p[44..46]
    requires LE32(|f.addonData|) == p[52..56]
    ensures EncodePrefix(f, p) == p
  {
    PieceOne(p, f.digest);
    PieceTwo(p, f.digest);
    PieceThree(p, f.digest);
    PieceFour(p, f.digest);
    assert p == p[..13] + p[13..23] + p[23..40] + p[40..52] + p[52..56];
  }

  // ---------------------------------------------------------------- the decoder

  /** The request the decoder fills in; only a successful decode may touch it. */
  class AuthRequest {
    var fields: Fields

    constructor (fields: Fields)
      ensures this.fields == fields
    {
      this.fields := fields;
    }
  }

  /** The `m` lowest bits of y. */
  function Low(y: nat, m: nat): nat {
    if m == 0 then 0 else y % 2 + 2 * Low(y / 2, m - 1)
  }

  lemma {:induction false} LowTopBit(y: nat, m: nat)
    requires m > 0
    ensures Low(y, m) == Low(y, m - 1) + if Shr(y, m - 1) % 2 == 1 then Pow2(m - 1) else 0
  {
    if m > 1 {
      LowTopBit(y / 2, m - 1);
    }
  }

  lemma {:induction false} ShrShr(x: nat, a: nat, b: nat)
    ensures Shr(Shr(x, a), b) == Shr(x, a + b)
  {
    if a > 0 {
      ShrShr(x / 2, a - 1, b);
    }
  }

  /** Bits that stay inside one byte are a shifted and masked copy of it. */
  lemma BitOfByte(s: seq<byte>, p: nat, j: nat)
    requires p < |s| && j < 8
    ensures BitAt(s, 8 * p + j) == Shr(s[p], 7 - j) % 2
  {
    assert (8 * p + j) / 8 == p && (8 * p + j) % 8 == j;
  }

  lemma {:induction false} BitsInByte(s: seq<byte>, p: nat, j: nat, m: nat, k: nat)
    requires p < |s| && j + m <= 8 && k == 8 * p + j
    ensures BitsValue(s, k, m) == Low(Shr(s[p], 8 - j - m), m)
    decreases m
  {
    hide Shr, BitAt, Pow2;
    if m > 0 {
      hide Low;
      BitsInByte(s, p, j + 1, m - 1, k + 1);
      LowTopBit(Shr(s[p], 8 - j - m), m);
      ShrShr(s[p], 8 - j - m, m - 1);
      BitOfByte(s, p, j);
    }
  }

  lemma {:induction false} BitsJoin(s: seq<byte>, k: nat, a: nat, b: nat)
    requires k + a + b <= 8 * |s|
    ensures BitsValue(s, k, a + b) == BitsValue(s, k, a) * Pow2(b) + BitsValue(s, k + a, b)
    decreases a
  {
    hide BitAt;
    if a > 0 {
      BitsJoin(s, k + 1, a - 1, b);
      Pow2Sum(a - 1, b);
      Distribute(Pow2(a - 1), BitsValue(s, k + 1, a - 1), Pow2(b));
    }
  }

  lemma Distribute(x: nat, y: nat, p: nat)
    ensures (x + y) * p == x * p + y * p
  {
  }

  lemma {:induction false} Pow2Sum(a: nat, b: nat)
    ensures Pow2(a + b) == Pow2(a) * Pow2(b)
  {
    if a > 0 {
      Pow2Sum(a - 1, b);
      assert Pow2(a + b) == 2 * Pow2(a - 1 + b);
    }
  }

  lemma {:induction false} LowSmall(y: nat, m: nat)
    ensures y < Pow2(m) ==> Low(y, m) == y
    ensures Low(y + Pow2(m), m) == Low(y, m)
  {
    if m > 0 {
      LowSmall(y / 2, m - 1);
      assert (y + Pow2(m)) / 2 == y / 2 + Pow2(m - 1) && (y + Pow2(m)) % 2 == y % 2;
    }
  }

  lemma ShiftedByte(x: nat)
    ensures Shr(x, 4) == x / 16 && Shr(x, 7) == x / 128
  {
    ShrTwice(x, 2);
    ShrTwice(x / 4, 0);
    ShrTwice(x, 5);
    ShrTwice(x / 4, 3);
    ShrTwice(x / 16, 1);
  }

  lemma ShrTwice(x: nat, n: nat)
    ensures Shr(x, n + 2) == Shr(x / 4, n)
  {
    assert Shr(x, n + 2) == Shr(x / 2, n + 1) == Shr(x / 2 / 2, n);
  }

  lemma LowSevenMask(x: byte)
    ensures Low(x, 7) == x as int % 128
  {
    var y := x as int % 128;
    assert Pow2(7) == 128;
    LowSmall(y, 7);
    assert x as int == y || x as int == y + 128;
  }

  lemma HighFourMask(x: byte)
    ensures Low(Shr(x, 4), 4) == x as int / 16
  {
    ShiftedByte(x);
    assert Pow2(4) == 16;
    LowSmall(x as int / 16, 4);
  }

  lemma FlagBit(s: seq<byte>, p: nat)
    requires p < |s|
    ensures BitAt(s, 8 * p) == s[p] as int / 128
  {
    ShiftedByte(s[p]);
  }

  lemma LowSeven(s: seq<byte>, p: nat, k: nat)
    requires p < |s| && k == 8 * p + 1
    ensures BitsValue(s, k, 7) == s[p] as int % 128
  {
    BitsInByte(s, p, 1, 7, k);
    LowSevenMask(s[p]);
  }

  lemma HighFour(s: seq<byte>, p: nat, k: nat)
    requires p < |s| && k == 8 * p
    ensures BitsValue(s, k, 4) == s[p] as int / 16
  {
    BitsInByte(s, p, 0, 4, k);
    HighFourMask(s[p]);
  }

  lemma LastFour(s: seq<byte>, k: nat, a: nat)
    requires k + a + 4 <= 8 * |s|
    ensures BitsValue(s, k, a + 4) == BitsValue(s, k, a) * 16 + BitsValue(s, k + a, 4)
  {
    BitsJoin(s, k, a, 4);
    assert Pow2(4) == 16;
  }

  /** The eleven bits after the flag bit are the low seven of one byte and the high four of the next. */
  lemma NameLengthBits(s: seq<byte>, p: nat, k: nat)
    requires p + 2 <= |s| && k == 8 * p + 1
    ensures BitsValue(s, k, 11) == NameLength(s[p], s[p + 1])
  {
    hide BitsValue;
    LowSeven(s, p, k);
    HighFour(s, p + 1, k + 7);
    LastFour(s, k, 7);
  }

  lemma SliceOfSuffix(s: seq<byte>, start: nat, i: nat, j: nat)
    requires i <= j && start + j <= |s|
    ensures s[start..][i..j] == s[start + i..start + j]
  {
  }

  method DecodeAuthSession(input: ByteBuffer, out: AuthRequest) returns (result: DecodeResult)
    requires input.Valid() && input.bitpos == 8
    modifies input`rpos, input`bitpos, input`curbitval, out
    ensures var (r, fields) := Parse(input.storage[old(input.rpos)..]);
            result == r && out.fields == if fields.Some? then fields.value else old(out.fields)
    ensures input.Valid()
  {
    ghost var start := input.rpos;
    if |input.storage| - input.rpos < PREFIX { return ShortBody; }
    var digest, clientSeed, builtNumberClient, addonSize := ReadPrefix(input);
    if addonSize > |input.storage| - input.rpos { return BadAddonSize; }
    var addonData := [];
    if addonSize > 0 {
      addonData := input.Read(addonSize);
    }
    SliceOfSuffix(input.storage, start, PREFIX, PREFIX + addonSize);
    assert input.storage[start..][PREFIX + addonSize..] == input.storage[input.rpos..];
    var name := ReadName(input);
    if name.NameError? { return name.result; }
    out.fields := Fields(digest, clientSeed, builtNumberClient, addonData, name.account, name.useIPv6);
    return Ok;
  }

  method ReadName(input: ByteBuffer) returns (name: Name)
    requires input.Valid() && input.bitpos == 8
    modifies input`rpos, input`bitpos, input`curbitval
    ensures input.Valid()
    ensures name == ParseName(input.storage[old(input.rpos)..])
  {
    ghost var start := input.rpos;
    if |input.storage| - input.rpos < 2 { return NameError(ShortBody); }
    var useIPv6, nameLength := ReadFlagAndLength(input);
    if nameLength > |input.storage| - input.rpos { return NameError(TruncatedName); }
    var account := input.ReadString(nameLength);
    SliceOfSuffix(input.storage, start, 2, 2 + nameLength);
    return Name(useIPv6, account);
  }

  lemma FlagSet(s: seq<byte>, p: nat)
    requires p < |s|
    ensures BitAt(s, 8 * p) == 1 <==> s[p] >= 128
  {
    FlagBit(s, p);
  }

  method ReadFlag(input: ByteBuffer) returns (flag: bool)
    requires input.Valid() && input.bitpos == 8 && input.rpos < |input.storage|
    modifies input`rpos, input`bitpos, input`curbitval
    ensures input.Valid() && input.rpos == old(input.rpos) + 1 && input.bitpos == 0
    ensures flag <==> input.storage[old(input.rpos)] >= 128
  {
    FlagSet(input.storage, input.rpos);
    flag := input.ReadBit();
  }

  lemma LengthAhead(b: ByteBuffer)
    requires b.Valid() && b.bitpos == 0 && b.rpos < |b.storage|
    ensures b.BitCursor() == 8 * (b.rpos - 1) + 1 && b.BitCursor() + 11 <= 8 * |b.storage|
    ensures BitsValue(b.storage, b.BitCursor(), 11) == NameLength(b.storage[b.rpos - 1], b.storage[b.rpos])
  {
    var k := b.BitCursor();
    NameLengthBits(b.storage, b.rpos - 1, k);
  }

  /** The eleven bits behind the flag. */
  method ReadLength(input: ByteBuffer) returns (length: nat)
    requires input.Valid() && input.bitpos == 0 && input.rpos < |input.storage|
    modifies input`rpos, input`bitpos, input`curbitval
    ensures input.Valid() && input.rpos == old(input.rpos) + 1
    ensures length == NameLength(input.storage[old(input.rpos) - 1], input.storage[old(input.rpos)])
  {
    LengthAhead(input);
    ghost var p := input.rpos - 1;
    length := input.ReadBits(11);
    input.ElevenOn(p);
  }

  method ReadFlagAndLength(input: ByteBuffer) returns (flag: bool, length: nat)
    requires input.Valid() && input.bitpos == 8 && input.rpos + 2 <= |input.storage|
    modifies input`rpos, input`bitpos, input`curbitval
    ensures input.Valid() && input.rpos == old(input.rpos) + 2
    ensures var s, p := input.storage, old(input.rpos);
            (flag <==> s[p] >= 128) && length == NameLength(s[p], s[p + 1])
  {
    flag := ReadFlag(input);
    length := ReadLength(input);
  }

  /** The 56 fixed bytes, read in the order they are sent. */
  method ReadPrefix(input: ByteBuffer)
    returns (digest: seq<byte>, clientSeed: nat, builtNumberClient: nat, addonSize: nat)
    requires input.Valid() && input.rpos + PREFIX <= |input.storage|
    modifies input`rpos, input`bitpos
    ensures input.Valid() && input.bitpos == 8 && input.rpos == old(input.rpos) + PREFIX
    ensures var b := input.storage[old(input.rpos)..];
            && digest == DigestOf(b)
            && clientSeed == FromLE32(b[18..22]) && builtNumberClient == FromLE16(b[44..46])
            && addonSize == FromLE32(b[52..56])
  {
    ghost var start := input.rpos;
    var head, seed := ReadPrefixHead(input);
    clientSeed := FromLE32(seed);
    var tail, build := ReadPrefixTail(input);
    builtNumberClient := FromLE16(build);
    var word := input.Read(4);
    SliceOfSuffix(input.storage, start, 18, 22);
    SliceOfSuffix(input.storage, start, 44, 46);
    SliceOfSuffix(input.storage, start, 52, 56);
    addonSize := FromLE32(word);
    digest := [head[4], tail[8], head[7], head[2], head[3], tail[1], tail[2], tail[5], tail[3], head[8],
               tail[9], head[5], head[9], tail[6], head[1], tail[7], tail[0], tail[4], head[0], head[6]];
  }

  /** Digest bytes 18, 14, 3, 4, 0, 11, 19, 2, 9, 12 and the client seed. */
  method ReadPrefixHead(input: ByteBuffer) returns (d: seq<byte>, seed: seq<byte>)
    requires input.Valid() && input.rpos + 40 <= |input.storage|
    modifies input`rpos, input`bitpos
    ensures input.Valid() && input.bitpos == 8 && input.rpos == old(input.rpos) + 40
    ensures var s, o := input.storage, old(input.rpos);
            && d == [s[o + 8], s[o + 9], s[o + 10], s[o + 11], s[o + 12], s[o + 17], s[o + 22], s[o + 25], s[o + 26], s[o + 27]]
            && seed == s[o + 18..o + 22]
  {
    var skipped := input.Read(4);
    skipped := input.Read(4);
    var d18 := input.ReadU8();
    var d14 := input.ReadU8();
    var d3 := input.ReadU8();
    var d4 := input.ReadU8();
    var d0 := input.ReadU8();
    skipped := input.Read(4);
    var d11 := input.ReadU8();
    seed := input.Read(4);
    var d19 := input.ReadU8();
    skipped := input.Read(1);
    skipped := input.Read(1);
    var d2 := input.ReadU8();
    var d9 := input.ReadU8();
    var d12 := input.ReadU8();
    skipped := input.Read(8);
    skipped := input.Read(4);
    d := [d18, d14, d3, d4, d0, d11, d19, d2, d9, d12];
  }

  /** Digest bytes 16, 5, 6, 8, 17, 7, 13, 15, 1, 10 and the build number. */
  method ReadPrefixTail(input: ByteBuffer) returns (d: seq<byte>, build: seq<byte>)
    requires input.Valid() && input.rpos + 12 <= |input.storage|
    modifies input`rpos, input`bitpos
    ensures input.Valid() && input.bitpos == 8 && input.rpos == old(input.rpos) + 12
    ensures var s, o := input.storage, old(input.rpos);
            && d == [s[o], s[o + 1], s[o + 2], s[o + 3], s[o + 6], s[o + 7], s[o + 8], s[o + 9], s[o + 10], s[o + 11]]
            && build == s[o + 4..o + 6]
  {
    var d16 := input.ReadU8();
    var d5 := input.ReadU8();
    var d6 := input.ReadU8();
    var d8 := input.ReadU8();
    build := input.Read(2);
    var d17 := input.ReadU8();
    var d7 := input.ReadU8();
    var d13 := input.ReadU8();
    var d15 := input.ReadU8();
    var d1 := input.ReadU8();
    var d10 := input.ReadU8();
    d := [d16, d5, d6, d8, d17, d7, d13, d15, d1, d10];
  }
}
