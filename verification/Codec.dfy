/** The length-prefixed, checksummed frames of codec.cc: printing one, parsing one,
    and the loop that takes them off a connection's input buffer. */
module Codec {
  import opened Adler32

  const HEADER_LEN: int := 4
  const MIN_MESSAGE_LEN: int := 2 * HEADER_LEN + 2
  const MAX_MESSAGE_LEN: int := 64 * 1024 * 1024

  datatype ErrorCode = InvalidLength | CheckSumError | InvalidNameLen | UnknownMessageType | ParseError
  datatype Option<+T> = None | Some(value: T)
  datatype Parsed<+M> = Ok(message: M) | Err(error: ErrorCode)

  /** What the codec asks of protobuf: how a message prints, which type names the descriptor pool
      knows, and how a known type reads a payload. */
  datatype Protobuf<!M> = Protobuf(
    typeName: M -> Bytes,
    serialize: M -> Bytes,
    known: Bytes -> bool,
    parse: (Bytes, Bytes) -> Option<M>)

  // ------------------------------------------------------------------ 32-bit integers

  type Int32 = x: int | -0x8000_0000 <= x < 0x8000_0000

  /** static_cast<int32_t> */
  function ToInt32(x: int): (r: Int32)
    ensures (x - r) % 0x1_0000_0000 == 0
  {
    (x + 0x8000_0000) % 0x1_0000_0000 - 0x8000_0000
  }

  /** Four bytes in network order. */
  function PrintUnsigned(u: int): (r: Bytes)
    requires 0 <= u < 0x1_0000_0000
    ensures |r| == 4
  {
    var u1 := u / 256;
    var u2 := u1 / 256;
    [u2 / 256, u2 % 256, u1 % 256, u % 256]
  }

  function AsUnsigned(b: Bytes): (u: int)
    requires |b| == 4
    ensures 0 <= u < 0x1_0000_0000
  {
    ((b[0] as int * 256 + b[1]) * 256 + b[2]) * 256 + b[3]
  }

  /** Two's complement. */
  function PrintInt32(x: Int32): (r: Bytes)
    ensures |r| == 4
  {
    PrintUnsigned(if x < 0 then x + 0x1_0000_0000 else x)
  }

  function AsInt32(b: Bytes): Int32
    requires |b| == 4
  {
    ToInt32(AsUnsigned(b))
  }

  lemma AsInt32OfPrint(x: Int32)
    ensures AsInt32(PrintInt32(x)) == x
  {
    var u := if x < 0 then x + 0x1_0000_0000 else x;
    assert AsUnsigned(PrintUnsigned(u)) == u;
  }

  lemma DivideBy256(x: int, b: Byte)
    ensures (x * 256 + b) / 256 == x && (x * 256 + b) % 256 == b
  {
  }

  lemma PrintOfAsInt32(b: Bytes)
    requires |b| == 4
    ensures PrintInt32(AsInt32(b)) == b
  {
    PrintOfAsUnsigned(b);
    SameFourBytes(AsUnsigned(b));
  }

  lemma PrintOfAsUnsigned(b: Bytes)
    requires |b| == 4
    ensures PrintUnsigned(AsUnsigned(b)) == b
  {
    var u2 := b[0] as int * 256 + b[1];
    var u1 := u2 * 256 + b[2];
    DivideBy256(b[0], b[1]);
    DivideBy256(u2, b[2]);
    DivideBy256(u1, b[3]);
    assert AsUnsigned(b) == u1 * 256 + b[3];
  }

  lemma SameFourBytes(u: int)
    requires 0 <= u < 0x1_0000_0000
    ensures PrintInt32(ToInt32(u)) == PrintUnsigned(u)
  {
    assert ToInt32(u) == if u < 0x8000_0000 then u else u - 0x1_0000_0000;
  }

  /** Network order: the most significant byte comes first; negative integers are in two's complement. */
  lemma NetworkOrder(x: Int32)
    ensures var b := PrintInt32(x);
            b[0] as int * 0x100_0000 + b[1] as int * 0x1_0000 + b[2] as int * 0x100 + b[3] == if x < 0 then x + 0x1_0000_0000 else x
  {
  }

  // --------------------------------------------------------------------------- parse

  /** parse: the error codes in the order the source tests them. */
  function Parse<M>(p: Protobuf<M>, buf: Bytes): Parsed<M>
    requires |buf| >= MIN_MESSAGE_LEN
  {
    var len := |buf|;
    var expectedCheckSum := AsInt32(buf[len - HEADER_LEN..]);
    var checkSum := ToInt32(Checksum(buf[..len - HEADER_LEN]));
    if checkSum == expectedCheckSum then
      var nameLen := AsInt32(buf[..HEADER_LEN]);
      if 2 <= nameLen <= len - 2 * HEADER_LEN then
        var typeName := buf[HEADER_LEN..HEADER_LEN + nameLen - 1];
        if p.known(typeName) then
          match p.parse(typeName, buf[HEADER_LEN + nameLen..len - HEADER_LEN])
          case Some(m) => Ok(m)
          case None => Err(ParseError)
        else Err(UnknownMessageType)
      else Err(InvalidNameLen)
    else Err(CheckSumError)
  }

  // ----------------------------------------------------------------------- the stream

  datatype Decoded<+M> = Decoded(messages: seq<M>, rest: Bytes, error: Option<ErrorCode>)

  /** The frame at the front of a buffer: none complete yet, refused, or read. */
  datatype Front<+M> = Incomplete | Refused(error: ErrorCode) | Frame(message: M, size: nat)

  function ReadFront<M>(p: Protobuf<M>, s: Bytes): (f: Front<M>)
    ensures f.Frame? ==> 0 < f.size <= |s|
  {
    if |s| < MIN_MESSAGE_LEN + HEADER_LEN then Incomplete
    else
      var len := AsInt32(s[..HEADER_LEN]);
      if len > MAX_MESSAGE_LEN || len < MIN_MESSAGE_LEN then Refused(InvalidLength)
      else if |s| < len + HEADER_LEN then Incomplete
      else
        match Parse(p, s[HEADER_LEN..HEADER_LEN + len])
        case Ok(m) => Frame(m, HEADER_LEN + len)
        case Err(e) => Refused(e)
  }

  /** What one call of onMessage makes of the buffered bytes. */
  function Decode<M>(p: Protobuf<M>, s: Bytes): Decoded<M>
    decreases |s|
  {
    match ReadFront(p, s)
    case Incomplete => Decoded([], s, None)
    case Refused(e) => Decoded([], s, Some(e))
    case Frame(m, size) =>
      var d := Decode(p, s[size..]);
      Decoded([m] + d.messages, d.rest, d.error)
  }

  /** onMessage called after each chunk arrives: everything delivered, what stays buffered, and the
      first error reported. */
  function Feed<M>(p: Protobuf<M>, buffered: Bytes, chunks: seq<Bytes>): Decoded<M>
    decreases |chunks|
  {
    if chunks == [] then Decoded([], buffered, None)
    else
      var d := Decode(p, buffered + chunks[0]);
      var f := Feed(p, d.rest, chunks[1..]);
      Decoded(d.messages + f.messages, f.rest, if d.error.Some? then d.error else f.error)
  }

  ghost function Concat(chunks: seq<Bytes>): Bytes
  {
    if chunks == [] then [] else chunks[0] + Concat(chunks[1..])
  }

  // --------------------------------------------------------------- chunking independence

  /** A decided front stays decided when more bytes arrive. */
  lemma FrontIsStable<M>(p: Protobuf<M>, s: Bytes, t: Bytes)
    requires !ReadFront(p, s).Incomplete?
    ensures ReadFront(p, s + t) == ReadFront(p, s)
  {
    assert (s + t)[..HEADER_LEN] == s[..HEADER_LEN];
    var len := AsInt32(s[..HEADER_LEN]);
    if MIN_MESSAGE_LEN <= len <= MAX_MESSAGE_LEN {
      assert (s + t)[HEADER_LEN..HEADER_LEN + len] == s[HEADER_LEN..HEADER_LEN + len];
    }
  }

  /** Two decodings in a row, seen as one. */
  function Then<M>(first: Decoded<M>, second: Decoded<M>): Decoded<M>
  {
    Decoded(first.messages + second.messages, second.rest, second.error)
  }

  lemma ThenAssociative<M>(m: M, first: Decoded<M>, second: Decoded<M>)
    ensures var head := Decoded([m], [], None);
            Then(Then(head, first), second) == Then(head, Then(first, second))
  {
    assert ([m] + first.messages) + second.messages == [m] + (first.messages + second.messages);
  }

  /** Decoding more bytes continues from the residue of what was there; after an error nothing more
      is delivered, the residue only grows, and the same error is reported again. */
  lemma {:induction false} DecodeContinues<M>(p: Protobuf<M>, s: Bytes, t: Bytes)
    ensures var d := Decode(p, s);
            Decode(p, s + t) == if d.error.Some? then Decoded(d.messages, d.rest + t, d.error)
                                else Then(d, Decode(p, d.rest + t))
    decreases |s|
  {
    match ReadFront(p, s) {
      case Incomplete =>
        var d := Decode(p, s + t);
        assert [] + d.messages == d.messages;
      case Refused(e) =>
        FrontIsStable(p, s, t);
      case Frame(m, size) =>
        FrontIsStable(p, s, t);
        var d := Decode(p, s[size..]);
        assert (s + t)[size..] == s[size..] + t;
        DecodeContinues(p, s[size..], t);
        ThenAssociative(m, d, Decode(p, d.rest + t));
    }
  }

  /** What Decode leaves behind holds no complete frame, and repeats the error if there was one. */
  lemma {:induction false} ResidueIsStuck<M>(p: Protobuf<M>, s: Bytes)
    ensures var d := Decode(p, s); Decode(p, d.rest) == Decoded([], d.rest, d.error)
    decreases |s|
  {
    match ReadFront(p, s) {
      case Incomplete =>
      case Refused(e) =>
      case Frame(m, size) => ResidueIsStuck(p, s[size..]);
    }
  }

  lemma {:induction false} FeedFromResidue<M>(p: Protobuf<M>, buffered: Bytes, chunks: seq<Bytes>)
    requires Decode(p, buffered).messages == [] && Decode(p, buffered).rest == buffered
    ensures var f, d := Feed(p, buffered, chunks), Decode(p, buffered + Concat(chunks));
            f.messages == d.messages && f.rest == d.rest
    ensures chunks != [] || Decode(p, buffered).error.None? ==>
              Feed(p, buffered, chunks).error == Decode(p, buffered + Concat(chunks)).error
    decreases |chunks|
  {
    if chunks == [] {
      assert buffered + Concat(chunks) == buffered;
    } else {
      var s, t := buffered + chunks[0], Concat(chunks[1..]);
      assert buffered + Concat(chunks) == s + t;
      var d := Decode(p, s);
      ResidueIsStuck(p, s);
      DecodeContinues(p, s, t);
      DecodeContinues(p, d.rest, t);
      FeedFromResidue(p, d.rest, chunks[1..]);
    }
  }

  /** Chunking independence: however a stream is split, the same messages are delivered in the same
      order, the same bytes stay buffered and the same first error is reported as when it arrives at once. */
  lemma ChunkingIndependence<M>(p: Protobuf<M>, chunks: seq<Bytes>)
    ensures Feed(p, [], chunks) == Decode(p, Concat(chunks))
  {
    FeedFromResidue(p, [], chunks);
    assert [] + Concat(chunks) == Concat(chunks);
  }

  // ---------------------------------------------------------------------- round trip

  /** What fillEmptyBuffer puts under the checksum. */
  function Payload<M>(p: Protobuf<M>, m: M): Bytes
  {
    PrintInt32(ToInt32(|p.typeName(m)| + 1)) + p.typeName(m) + [0] + p.serialize(m)
  }

  /** Any bytes, followed by their checksum. */
  function Checked(payload: Bytes): Bytes
  {
    payload + PrintInt32(ToInt32(Checksum(payload)))
  }

  function Body<M>(p: Protobuf<M>, m: M): Bytes
  {
    Checked(Payload(p, m))
  }

  function FrameOf<M>(p: Protobuf<M>, m: M): Bytes
  {
    PrintInt32(ToInt32(|Body(p, m)|)) + Body(p, m)
  }

  lemma SmallInt32(x: int)
    requires 0 <= x < 0x8000_0000
    ensures ToInt32(x) == x
  {
  }

  lemma BodyLength<M>(p: Protobuf<M>, m: M)
    ensures |Body(p, m)| == 9 + |p.typeName(m)| + |p.serialize(m)|
  {
  }

  /** A message the round trip is promised for. */
  ghost predicate Sendable<M>(p: Protobuf<M>, m: M)
  {
    && p.typeName(m) != [] && p.known(p.typeName(m))
    && p.parse(p.typeName(m), p.serialize(m)) == Some(m)
    && |Body(p, m)| <= MAX_MESSAGE_LEN
  }

  lemma ThreeParts(a: Bytes, b: Bytes, c: Bytes)
    ensures (a + b + c)[..|a|] == a && (a + b + c)[|a|..|a| + |b|] == b && (a + b + c)[|a| + |b|..] == c
  {
  }

  lemma ChecksumOfChecked(payload: Bytes)
    requires |payload| >= MIN_MESSAGE_LEN - HEADER_LEN
    ensures ChecksumHolds(Checked(payload))
  {
    ThreeParts(payload, PrintInt32(ToInt32(Checksum(payload))), []);
    assert payload + PrintInt32(ToInt32(Checksum(payload))) + [] == Checked(payload);
    AsInt32OfPrint(ToInt32(Checksum(payload)));
  }

  /** With the checksum right, a body is refused for the length of its name exactly if that is below 2, or leaves no
      room for both integers. */
  lemma NameLengthDecides<M>(p: Protobuf<M>, nameLen: Int32, rest: Bytes)
    requires |rest| >= 2
    ensures var body := Checked(PrintInt32(nameLen) + rest);
            && |body| >= MIN_MESSAGE_LEN
            && (Parse(p, body) == Err(InvalidNameLen) <==> nameLen < 2 || nameLen > |body| - 8)
            && Parse(p, body) != Err(CheckSumError)
  {
    var payload := PrintInt32(nameLen) + rest;
    ChecksumOfChecked(payload);
    AsInt32OfPrint(nameLen);
    assert Checked(payload)[..HEADER_LEN] == PrintInt32(nameLen);
  }

  /** With the checksum and the length of the name right, the answer depends on the type's name, all but the last byte
      of what that length covers, and on what follows: an unknown type is reported as unknown, a known one that cannot
      read its payload as a parse error, and otherwise the message is delivered. */
  lemma NamedBody<M>(p: Protobuf<M>, name: Bytes, end: Byte, data: Bytes)
    requires name != [] && |name| < 0x7FFF_FFFF
    ensures var body := Checked(PrintInt32(|name| + 1) + name + [end] + data);
            && |body| >= MIN_MESSAGE_LEN
            && (!p.known(name) ==> Parse(p, body) == Err(UnknownMessageType))
            && (p.known(name) && p.parse(name, data).None? ==> Parse(p, body) == Err(ParseError))
            && (p.known(name) && p.parse(name, data).Some? ==> Parse(p, body) == Ok(p.parse(name, data).value))
  {
    var prefix := PrintInt32(|name| + 1);
    var payload := prefix + name + [end] + data;
    var sum := PrintInt32(ToInt32(Checksum(payload)));
    ChecksumOfChecked(payload);
    AsInt32OfPrint(|name| + 1);
    ThreeParts(prefix, name, [end] + data + sum);
    assert prefix + name + ([end] + data + sum) == Checked(payload);
    ThreeParts(prefix + name + [end], data, sum);
  }

  /** The frame byte by byte: its length without these four bytes, the length of the name with its NUL, the name, the NUL,
      the serialized message, and the checksum of all after the first length. */
  lemma FrameBytes<M>(p: Protobuf<M>, m: M)
    requires |Body(p, m)| < 0x8000_0000
    ensures var f, name, data := FrameOf(p, m), p.typeName(m), p.serialize(m);
            && |f| == 13 + |name| + |data|
            && f[..4] == PrintInt32(|f| - 4) && f[4..8] == PrintInt32(|name| + 1)
            && f[8..8 + |name|] == name && f[8 + |name|..9 + |name|] == [0] && f[9 + |name|..9 + |name| + |data|] == data
            && AsUnsigned(f[9 + |name| + |data|..]) == Checksum(f[4..9 + |name| + |data|])
  {
    var name, data := p.typeName(m), p.serialize(m);
    BodyLength(p, m);
    SmallInt32(|name| + 1);
    SmallInt32(|Body(p, m)|);
    FrameParts(PrintInt32(|Body(p, m)|), PrintInt32(|name| + 1), name, data);
  }

  lemma FrameParts(head: Bytes, prefix: Bytes, name: Bytes, data: Bytes)
    requires |head| == |prefix| == 4
    ensures var f := head + Checked(prefix + name + [0] + data);
            && |f| == 13 + |name| + |data|
            && f[..4] == head && f[4..8] == prefix && f[8..8 + |name|] == name && f[8 + |name|..9 + |name|] == [0]
            && f[9 + |name|..9 + |name| + |data|] == data
            && AsUnsigned(f[9 + |name| + |data|..]) == Checksum(f[4..9 + |name| + |data|])
  {
    var sum := Checksum(prefix + name + [0] + data);
    SixParts(head, prefix, name, [0], data, PrintInt32(ToInt32(sum)));
    SameFourBytes(sum);
    UnsignedOfPrint(sum);
  }

  lemma SixParts(a: Bytes, b: Bytes, c: Bytes, d: Bytes, e: Bytes, g: Bytes)
    ensures var f, i := a + (b + c + d + e + g), |a| + |b|;
            && f[..|a|] == a && f[|a|..i] == b && f[i..i + |c|] == c && f[i + |c|..i + |c| + |d|] == d
            && f[i + |c| + |d|..i + |c| + |d| + |e|] == e && f[i + |c| + |d| + |e|..] == g
            && f[|a|..i + |c| + |d| + |e|] == b + c + d + e
  {
    var f, i := a + (b + c + d + e + g), |a| + |b|;
    assert f == a + b + c + d + e + g;
    assert f[..i + |c|] == a + b + c;
    assert f[i + |c|..] == d + e + g;
  }

  lemma UnsignedOfPrint(u: int)
    requires 0 <= u < 0x1_0000_0000
    ensures AsUnsigned(PrintUnsigned(u)) == u
  {
  }

  lemma ParseOfBody<M>(p: Protobuf<M>, m: M)
    requires Sendable(p, m)
    ensures |Body(p, m)| >= MIN_MESSAGE_LEN && Parse(p, Body(p, m)) == Ok(m)
  {
    var name, data := p.typeName(m), p.serialize(m);
    BodyLength(p, m);
    SmallInt32(|name| + 1);
    NamedBody(p, name, 0, data);
  }

  lemma FrontBody(header: Bytes, body: Bytes, t: Bytes)
    requires |header| == HEADER_LEN
    ensures var s := header + body + t;
            s[..HEADER_LEN] == header && s[HEADER_LEN..HEADER_LEN + |body|] == body
  {
  }

  lemma ReadFrontOfFrame<M>(p: Protobuf<M>, m: M, t: Bytes)
    requires Sendable(p, m)
    ensures ReadFront(p, FrameOf(p, m) + t) == Frame(m, |FrameOf(p, m)|)
  {
    ParseOfBody(p, m);
    ReadFrontOfBody(p, Body(p, m), t, m);
  }

  lemma ReadFrontOfBody<M>(p: Protobuf<M>, body: Bytes, t: Bytes, m: M)
    requires MIN_MESSAGE_LEN <= |body| <= MAX_MESSAGE_LEN && Parse(p, body) == Ok(m)
    ensures ReadFront(p, PrintInt32(ToInt32(|body|)) + body + t) == Frame(m, HEADER_LEN + |body|)
  {
    AsInt32OfPrint(|body|);
    FrontBody(PrintInt32(|body|), body, t);
  }

  /** The first four bytes decide, once there are fourteen: a frame is refused for its length exactly if that is not
      between 10 and 64 MiB, is waited for exactly while it is not complete, and is parsed otherwise. */
  lemma FrontDecides<M>(p: Protobuf<M>, len: Int32, t: Bytes)
    ensures var f := ReadFront(p, PrintInt32(len) + t);
            && (f == Refused(InvalidLength) <==> |t| >= 10 && (len < 10 || len > 67108864))
            && (f == Incomplete <==> |t| < 10 || (10 <= len <= 67108864 && |t| < len))
            && (10 <= len <= 67108864 && |t| >= len ==>
                  f == match Parse(p, t[..len]) case Ok(m) => Frame(m, 4 + len) case Err(e) => Refused(e))
  {
    AsInt32OfPrint(len);
    var s := PrintInt32(len) + t;
    assert s[..HEADER_LEN] == PrintInt32(len);
    if 10 <= len <= |t| {
      assert s[HEADER_LEN..HEADER_LEN + len] == t[..len];
    }
  }

  /** Decoding reports an invalid length before it has delivered anything exactly in that case. */
  lemma InvalidLengthExactly<M>(p: Protobuf<M>, len: Int32, t: Bytes)
    requires |t| >= 10
    ensures var d := Decode(p, PrintInt32(len) + t);
            d.messages == [] && d.error == Some(InvalidLength) <==> len < 10 || len > 67108864
  {
    FrontDecides(p, len, t);
  }

  ghost function Stream<M>(p: Protobuf<M>, ms: seq<M>): Bytes
  {
    if ms == [] then [] else FrameOf(p, ms[0]) + Stream(p, ms[1..])
  }

  lemma {:induction false} DecodeOfStream<M>(p: Protobuf<M>, ms: seq<M>)
    requires forall m :: m in ms ==> Sendable(p, m)
    ensures Decode(p, Stream(p, ms)) == Decoded(ms, [], None)
  {
    if ms != [] {
      var first, rest := FrameOf(p, ms[0]), Stream(p, ms[1..]);
      ReadFrontOfFrame(p, ms[0], rest);
      assert (first + rest)[|first|..] == rest;
      DecodeOfStream(p, ms[1..]);
      assert [ms[0]] + ms[1..] == ms;
    }
  }

  lemma AppendStream<M>(p: Protobuf<M>, m: M, rest: Bytes, s: Bytes)
    requires Sendable(p, m)
    ensures Decode(p, FrameOf(p, m) + rest + s) == Then(Decoded([m], [], None), Decode(p, rest + s))
  {
    ReadFrontOfFrame(p, m, rest + s);
    assert FrameOf(p, m) + rest + s == FrameOf(p, m) + (rest + s);
    assert (FrameOf(p, m) + (rest + s))[|FrameOf(p, m)|..] == rest + s;
  }

  /** Frames before a refused one are delivered; then its error is reported, and it stays in the buffer. */
  lemma {:induction false} StopsAtError<M>(p: Protobuf<M>, ms: seq<M>, s: Bytes, e: ErrorCode)
    requires (forall m :: m in ms ==> Sendable(p, m)) && ReadFront(p, s) == Refused(e)
    ensures Decode(p, Stream(p, ms) + s) == Decoded(ms, s, Some(e))
  {
    if ms == [] {
      assert Stream(p, ms) + s == s;
    } else {
      AppendStream(p, ms[0], Stream(p, ms[1..]), s);
      StopsAtError(p, ms[1..], s, e);
      assert [ms[0]] + ms[1..] == ms;
    }
  }

  /** Stream round trip: the frames of any sendable messages, delivered in any chunks, come out as
      exactly those messages and leave the buffer empty. */
  lemma StreamRoundTrip<M>(p: Protobuf<M>, ms: seq<M>, chunks: seq<Bytes>)
    requires forall m :: m in ms ==> Sendable(p, m)
    requires Concat(chunks) == Stream(p, ms)
    ensures Feed(p, [], chunks) == Decoded(ms, [], None)
  {
    DecodeOfStream(p, ms);
    ChunkingIndependence(p, chunks);
  }

  // ------------------------------------------------------------- corruption detection

  ghost predicate ChecksumHolds(body: Bytes)
    requires |body| >= MIN_MESSAGE_LEN
  {
    ToInt32(Checksum(body[..|body| - HEADER_LEN])) == AsInt32(body[|body| - HEADER_LEN..])
  }

  lemma CheckSumErrorExactly<M>(p: Protobuf<M>, body: Bytes)
    requires |body| >= MIN_MESSAGE_LEN
    ensures Parse(p, body) == Err(CheckSumError) <==> !ChecksumHolds(body)
  {
  }

  lemma ToInt32Injective(x: int, y: int)
    requires 0 <= x < 0x1_0000_0000 && 0 <= y < 0x1_0000_0000
    ensures ToInt32(x) == ToInt32(y) <==> x == y
  {
  }

  /** Any one changed byte of a body whose checksum holds, the checksum itself included, is reported. */
  lemma OneByteCorruption<M>(p: Protobuf<M>, body: Bytes, i: nat, v: Byte)
    requires |body| >= MIN_MESSAGE_LEN && ChecksumHolds(body)
    requires i < |body| && v != body[i]
    ensures Parse(p, body[i := v]) == Err(CheckSumError)
  {
    var n, changed := |body| - HEADER_LEN, body[i := v];
    if i < n {
      assert changed[..n] == body[..n][i := v];
      assert changed[n..] == body[n..];
      DetectsOneByte(body[..n], i, v);
      ToInt32Injective(Checksum(changed[..n]), Checksum(body[..n]));
    } else {
      assert changed[..n] == body[..n];
      PrintOfAsInt32(changed[n..]);
      PrintOfAsInt32(body[n..]);
      assert changed[n..][i - n] != body[n..][i - n];
    }
    CheckSumErrorExactly(p, changed);
  }

  /** Two changed bytes under the checksum are reported, exactly unless their changes cancel and they
      lie a multiple of 65521 bytes apart. */
  lemma TwoByteCorruption<M>(p: Protobuf<M>, body: Bytes, i: nat, j: nat, u: Byte, v: Byte)
    requires |body| >= MIN_MESSAGE_LEN && ChecksumHolds(body)
    requires i < j < |body| - HEADER_LEN && u != body[i] && v != body[j]
    ensures Parse(p, body[i := u][j := v]) == Err(CheckSumError) <==>
            !((u - body[i]) + (v - body[j]) == 0 && (j - i) % 65521 == 0)
  {
    var n, changed := |body| - HEADER_LEN, body[i := u][j := v];
    assert changed[..n] == body[..n][i := u][j := v];
    assert changed[n..] == body[n..];
    DetectsTwoBytes(body[..n], i, j, u, v);
    ToInt32Injective(Checksum(changed[..n]), Checksum(body[..n]));
    CheckSumErrorExactly(p, changed);
  }

  // -------------------------------------------------------------------- the buffer

  /** muduo's Buffer, as far as the codec uses it: its readable bytes. */
  class Buffer {
    var readable: Bytes

    constructor ()
      ensures readable == []
    {
      readable := [];
    }

    method Append(data: Bytes)
      modifies this
      ensures readable == old(readable) + data
    {
      readable := readable + data;
    }

    method AppendInt32(x: Int32)
      modifies this
      ensures readable == old(readable) + PrintInt32(x)
    {
      readable := readable + PrintInt32(x);
    }

    method Prepend(data: Bytes)
      modifies this
      ensures readable == data + old(readable)
    {
      readable := data + readable;
    }

    method Retrieve(n: nat)
      requires n <= |readable|
      modifies this
      ensures readable == old(readable)[n..]
    {
      readable := readable[n..];
    }
  }

  /** Prints one frame. The source casts the lengths to int32_t. */
  method FillEmptyBuffer<M>(p: Protobuf<M>, buf: Buffer, message: M)
    requires buf.readable == []
    requires |Body(p, message)| < 0x8000_0000
    modifies buf
    ensures buf.readable == FrameOf(p, message)
  {
    var typeName := p.typeName(message);
    buf.AppendInt32(ToInt32(|typeName| + 1));
    buf.Append(typeName + [0]);
    buf.Append(p.serialize(message));
    assert buf.readable == Payload(p, message);
    buf.AppendInt32(ToInt32(Checksum(buf.readable)));
    buf.Prepend(PrintInt32(ToInt32(|buf.readable|)));
  }

  /** Takes complete frames off the buffer until one is missing or refused. */
  method OnMessage<M>(p: Protobuf<M>, buf: Buffer) returns (delivered: seq<M>, error: Option<ErrorCode>)
    modifies buf
    ensures Decode(p, old(buf.readable)) == Decoded(delivered, buf.readable, error)
  {
    delivered, error := [], None;
    ghost var whole := Decode(p, buf.readable);
    assert [] + whole.messages == whole.messages;
    while |buf.readable| >= MIN_MESSAGE_LEN + HEADER_LEN
      invariant whole == Then(Decoded(delivered, [], None), Decode(p, buf.readable))
      decreases |buf.readable|
    {
      var s := buf.readable;
      var len := AsInt32(s[..HEADER_LEN]);
      if len > MAX_MESSAGE_LEN || len < MIN_MESSAGE_LEN {
        assert ReadFront(p, s) == Refused(InvalidLength);
        error := Some(InvalidLength);
        break;
      } else if |s| >= len + HEADER_LEN {
        var parsed := Parse(p, s[HEADER_LEN..HEADER_LEN + len]);
        WholeFrame(p, s, len);
        match parsed {
          case Ok(m) =>
            DeliverOne(p, s, delivered, m, HEADER_LEN + len);
            delivered := delivered + [m];
            buf.Retrieve(HEADER_LEN + len);
          case Err(e) =>
            error := Some(e);
            break;
        }
      } else {
        break;
      }
    }
    assert Decode(p, buf.readable) == Decoded([], buf.readable, error) && delivered + [] == delivered;
  }

  lemma WholeFrame<M>(p: Protobuf<M>, s: Bytes, len: int)
    requires |s| >= MIN_MESSAGE_LEN + HEADER_LEN && AsInt32(s[..HEADER_LEN]) == len
    requires MIN_MESSAGE_LEN <= len <= MAX_MESSAGE_LEN && |s| >= len + HEADER_LEN
    ensures ReadFront(p, s) == match Parse(p, s[HEADER_LEN..HEADER_LEN + len])
                               case Ok(m) => Frame(m, HEADER_LEN + len)
                               case Err(e) => Refused(e)
  {
  }

  lemma DeliverOne<M>(p: Protobuf<M>, s: Bytes, delivered: seq<M>, m: M, size: nat)
    requires ReadFront(p, s) == Frame(m, size)
    ensures Then(Decoded(delivered, [], None), Decode(p, s))
         == Then(Decoded(delivered + [m], [], None), Decode(p, s[size..]))
  {
    var d := Decode(p, s[size..]);
    assert delivered + ([m] + d.messages) == (delivered + [m]) + d.messages;
  }
}
