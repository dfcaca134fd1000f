/** net/protobuf/ProtobufCodecLite.cc: length-prefixed, tagged, checksummed frames
    cut out of a byte stream.

    Serialising and parsing a message, and the raw callback, are parameters. */
module Codecs {
  import opened Arith
  import opened Options
  import opened Seqs
  import opened Endian
  import opened Buffers

  const HEADER_LEN: nat := 4
  const CHECKSUM_LEN: nat := 4
  const MAX_MESSAGE_LEN: nat := 64 * 1024 * 1024

  /** raw: whether the raw callback lets the frame through; always, without one. */
  datatype Codec<!M> = Codec(
    tag: seq<byte>, serialize: M -> seq<byte>, parse: seq<byte> -> Option<M>, raw: seq<byte> -> bool)

  datatype ErrorCode = InvalidLength | CheckSumError | UnknownMessageType | ParseError

  /** What one call of onMessage does: the messages it delivers, what it leaves in
      the buffer, and the error it reports. */
  datatype Outcome<M> = Outcome(delivered: seq<M>, rest: seq<byte>, error: Option<ErrorCode>)

  // ----- the checksum: Adler-32, section 8.2 of RFC 1950 -----

  function AdlerA(data: seq<byte>): (a: nat)
    ensures a < 65521
  {
    if data == [] then 1 else (AdlerA(data[..|data| - 1]) + data[|data| - 1]) % 65521
  }

  function AdlerB(data: seq<byte>): (b: nat)
    ensures b < 65521
  {
    if data == [] then 0 else (AdlerB(data[..|data| - 1]) + AdlerA(data)) % 65521
  }

  lemma Width4(x: int)
    ensures Fits(x, 4) <==> -0x8000_0000 <= x < 0x8000_0000
  {
  }

  /** As an int32_t. */
  function Checksum(data: seq<byte>): (r: int)
    ensures Fits(r, 4)
  {
    var u := AdlerB(data) * 65536 + AdlerA(data);
    var r := if u < 0x8000_0000 then u else u - 0x1_0000_0000;
    Width4(r);
    r
  }

  function Sum(data: seq<byte>): nat {
    if data == [] then 0 else data[0] + Sum(data[1..])
  }

  /** Each byte as often as there are bytes from it on. */
  function WeightedSum(data: seq<byte>): nat {
    if data == [] then 0 else |data| * data[0] + WeightedSum(data[1..])
  }

  lemma {:induction false} SumsSnoc(data: seq<byte>, x: byte)
    ensures Sum(data + [x]) == Sum(data) + x
    ensures WeightedSum(data + [x]) == WeightedSum(data) + Sum(data) + x
    decreases |data|
  {
    if data != [] {
      SumsSnoc(data[1..], x);
      assert (data + [x])[1..] == data[1..] + [x];
      assert |data + [x]| * data[0] == |data| * data[0] + data[0];
    }
  }

  lemma ModStep(a: nat, b: nat, n: nat)
    requires n > 0
    ensures (a % n + b) % n == (a + b) % n
  {
    Quotient(a + b, n, a / n + (a % n + b) / n, (a % n + b) % n);
    assert (a / n + (a % n + b) / n) * n == a / n * n + (a % n + b) / n * n;
  }

  lemma AdlerStep(a: nat, b: nat, sum: nat, weighted: nat, n: nat, x: byte)
    requires a == (1 + sum) % 65521 && b == (n + weighted) % 65521
    ensures (a + x) % 65521 == (1 + sum + x) % 65521
    ensures (b + (a + x) % 65521) % 65521 == (n + 1 + (weighted + sum + x)) % 65521
  {
    ModStep(1 + sum, x, 65521);
    ModStep(n + weighted, (1 + sum + x) % 65521, 65521);
    ModStep(1 + sum + x, n + weighted, 65521);
  }

  /** The closed form of section 8.2 of RFC 1950. */
  lemma {:induction false} AdlerIsSums(data: seq<byte>)
    ensures AdlerA(data) == (1 + Sum(data)) % 65521
    ensures AdlerB(data) == (|data| + WeightedSum(data)) % 65521
    decreases |data|
  {
    if data != [] {
      var init, last := data[..|data| - 1], data[|data| - 1];
      assert data == init + [last];
      AdlerIsSums(init);
      SumsSnoc(init, last);
      AdlerStep(AdlerA(init), AdlerB(init), Sum(init), WeightedSum(init), |init|, last);
    }
  }

  lemma WrapsAround(u: int, r: int)
    requires r == u || r == u - 0x1_0000_0000
    ensures (u - r) % 0x1_0000_0000 == 0
  {
  }

  /** The checksum has its 32 bits. */
  lemma ChecksumIsAdler32(data: seq<byte>)
    ensures var a, b := (1 + Sum(data)) % 65521, (|data| + WeightedSum(data)) % 65521;
            (b * 65536 + a - Checksum(data)) % 0x1_0000_0000 == 0
  {
    AdlerIsSums(data);
    WrapsAround(AdlerB(data) * 65536 + AdlerA(data), Checksum(data));
  }

  // ----- one frame -----

  function MinMessageLen<M>(c: Codec<M>): nat {
    |c.tag| + CHECKSUM_LEN
  }

  function Body<M>(c: Codec<M>, m: M): seq<byte> {
    c.tag + c.serialize(m)
  }

  function Payload<M>(c: Codec<M>, m: M): (p: seq<byte>)
    ensures |p| == MinMessageLen(c) + |c.serialize(m)|
  {
    Body(c, m) + Encode(Checksum(Body(c, m)), CHECKSUM_LEN)
  }

  /** Its length can be written into the header; what int32_t len demands. */
  predicate Writable<M>(c: Codec<M>, m: M) {
    Fits(|Payload(c, m)|, HEADER_LEN)
  }

  function Frame<M>(c: Codec<M>, m: M): (f: seq<byte>)
    requires Writable(c, m)
    ensures |f| == HEADER_LEN + |Payload(c, m)|
  {
    Encode(|Payload(c, m)|, HEADER_LEN) + Payload(c, m)
  }

  function ValidChecksum(p: seq<byte>): bool
    requires |p| >= CHECKSUM_LEN
  {
    Checksum(p[..|p| - CHECKSUM_LEN]) == Decode(p[|p| - CHECKSUM_LEN..])
  }

  datatype Parsed<M> = Message(m: M) | Error(code: ErrorCode)

  function Parse<M>(c: Codec<M>, p: seq<byte>): Parsed<M>
    requires |p| >= MinMessageLen(c)
  {
    if !ValidChecksum(p) then Error(CheckSumError)
    else if p[..|c.tag|] != c.tag then Error(UnknownMessageType)
    else
      match c.parse(p[|c.tag|..|p| - CHECKSUM_LEN])
      case Some(m) => Message(m)
      case None => Error(ParseError)
  }

  /** What one turn of onMessage's loop finds at the front of the buffer. */
  datatype Found<M> = Incomplete | Bad(code: ErrorCode) | Skipped(n: nat) | Complete(m: M, n: nat)

  function Find<M>(c: Codec<M>, buf: seq<byte>): (f: Found<M>)
    ensures f.Skipped? || f.Complete? ==> 0 < f.n <= |buf|
  {
    if |buf| < MinMessageLen(c) + HEADER_LEN then Incomplete
    else
      var len := Decode(buf[..HEADER_LEN]);
      if len > MAX_MESSAGE_LEN || len < MinMessageLen(c) then Bad(InvalidLength)
      else if |buf| < HEADER_LEN + len then Incomplete
      else if !c.raw(buf[..HEADER_LEN + len]) then Skipped(HEADER_LEN + len)
      else
        match Parse(c, buf[HEADER_LEN..HEADER_LEN + len])
        case Message(m) => Complete(m, HEADER_LEN + len)
        case Error(code) => Bad(code)
  }

  function Prefixed<M>(ms: seq<M>, o: Outcome<M>): Outcome<M> {
    o.(delivered := ms + o.delivered)
  }

  function OnMessage<M>(c: Codec<M>, buf: seq<byte>): Outcome<M>
    decreases |buf|
  {
    match Find(c, buf)
    case Incomplete => Outcome([], buf, None)
    case Bad(code) => Outcome([], buf, Some(code))
    case Skipped(n) => OnMessage(c, buf[n..])
    case Complete(m, n) =>
      Prefixed([m], OnMessage(c, buf[n..]))
  }

  // ----- the cut of the stream does not matter -----

  lemma FindExtends<M>(c: Codec<M>, buf: seq<byte>, more: seq<byte>)
    requires !Find(c, buf).Incomplete?
    ensures Find(c, buf + more) == Find(c, buf)
  {
    var all, len := buf + more, Decode(buf[..HEADER_LEN]);
    assert all[..HEADER_LEN] == buf[..HEADER_LEN];
    if 0 <= len <= |buf| - HEADER_LEN {
      assert all[..HEADER_LEN + len] == buf[..HEADER_LEN + len];
      assert all[HEADER_LEN..HEADER_LEN + len] == buf[HEADER_LEN..HEADER_LEN + len];
    }
  }

  lemma PrefixTwice<M>(a: seq<M>, b: seq<M>, o: Outcome<M>)
    ensures Prefixed(a, Prefixed(b, o)) == Prefixed(a + b, o)
  {
  }

  /** Bytes that arrive in two calls are handled as in one. */
  lemma {:induction false} TwoCalls<M>(c: Codec<M>, b1: seq<byte>, b2: seq<byte>)
    ensures var o1 := OnMessage(c, b1);
            OnMessage(c, b1 + b2) == Prefixed(o1.delivered, OnMessage(c, o1.rest + b2))
    decreases |b1|
  {
    var f := Find(c, b1);
    if f.Skipped? || f.Complete? {
      FindExtends(c, b1, b2);
      assert (b1 + b2)[f.n..] == b1[f.n..] + b2;
      TwoCalls(c, b1[f.n..], b2);
      var o1 := OnMessage(c, b1[f.n..]);
      if f.Complete? {
        PrefixTwice([f.m], o1.delivered, OnMessage(c, o1.rest + b2));
      }
    } else {
      PrefixNone(OnMessage(c, b1 + b2));
    }
  }

  lemma PrefixNone<M>(o: Outcome<M>)
    ensures Prefixed([], o) == o
  {
  }

  /** What has happened after the chunks have arrived one by one; the error is the
      one the last call reported. */
  function Received<M>(c: Codec<M>, chunks: seq<seq<byte>>): Outcome<M> {
    if chunks == [] then Outcome([], [], None)
    else
      var before := Received(c, chunks[..|chunks| - 1]);
      Prefixed(before.delivered, OnMessage(c, before.rest + chunks[|chunks| - 1]))
  }

  /** For any bytes, sent or not by this codec, the messages delivered and the bytes
      left over depend on the stream and not on how it was cut. */
  lemma {:induction false} ChunkingDoesNotMatter<M>(c: Codec<M>, chunks: seq<seq<byte>>)
    ensures Received(c, chunks) == OnMessage(c, Flatten(chunks))
  {
    if chunks == [] {
      assert OnMessage(c, []) == Outcome([], [], None);
    } else {
      var init, last := chunks[..|chunks| - 1], chunks[|chunks| - 1];
      ChunkingDoesNotMatter(c, init);
      TwoCalls(c, Flatten(init), last);
    }
  }

  // ----- what is taken for a message -----

  lemma ParseSplit<M>(c: Codec<M>, b: seq<byte>, x: int)
    requires Fits(x, CHECKSUM_LEN) && |b| >= |c.tag|
    ensures var p := b + Encode(x, CHECKSUM_LEN);
            && (ValidChecksum(p) <==> x == Checksum(b)) && (p[..|c.tag|] == c.tag <==> c.tag <= b)
            && p[|c.tag|..|p| - CHECKSUM_LEN] == b[|c.tag|..]
  {
    var p := b + Encode(x, CHECKSUM_LEN);
    assert p[..|b|] == b && p[|b|..] == Encode(x, CHECKSUM_LEN);
    IntRoundTrip(x, CHECKSUM_LEN);
    assert p[..|c.tag|] == b[..|c.tag|];
  }

  /** What becomes of a payload whose last four bytes are the integer x: exactly when
      each error is reported, and when it is a message. */
  lemma ParseExactly<M>(c: Codec<M>, b: seq<byte>, x: int, m: M)
    requires Fits(x, CHECKSUM_LEN) && |b| >= |c.tag|
    ensures var r := Parse(c, b + Encode(x, CHECKSUM_LEN));
            && (r == Error(CheckSumError) <==> x != Checksum(b))
            && (r == Error(UnknownMessageType) <==> x == Checksum(b) && !(c.tag <= b))
            && (r == Error(ParseError) <==> x == Checksum(b) && c.tag <= b && c.parse(b[|c.tag|..]) == None)
            && (r == Message(m) <==> x == Checksum(b) && c.tag <= b && c.parse(b[|c.tag|..]) == Some(m))
  {
    ParseSplit(c, b, x);
  }

  predicate ValidLength<M>(c: Codec<M>, len: int) {
    |c.tag| + 4 <= len <= 64 * 1024 * 1024
  }

  /** What stands behind a header that says len: when the length is refused, when more
      is waited for, when the raw callback has it skipped, and how much is consumed. */
  lemma FindExactly<M>(c: Codec<M>, len: int, more: seq<byte>)
    requires Fits(len, HEADER_LEN) && |more| >= MinMessageLen(c)
    ensures var buf := Encode(len, HEADER_LEN) + more; var f := Find(c, buf);
            && (f == Bad(InvalidLength) <==> !ValidLength(c, len))
            && (f == Incomplete <==> ValidLength(c, len) && |more| < len)
            && (f.Skipped? <==> ValidLength(c, len) && len <= |more| && !c.raw(buf[..4 + len]))
            && (f.Skipped? || f.Complete? ==> f.n == 4 + len)
            && (ValidLength(c, len) && len <= |more| && c.raw(buf[..4 + len]) ==>
                  match Parse(c, more[..len]) case Message(m) => f == Complete(m, 4 + len) case Error(e) => f == Bad(e))
  {
    var buf := Encode(len, HEADER_LEN) + more;
    assert buf[..HEADER_LEN] == Encode(len, HEADER_LEN);
    IntRoundTrip(len, HEADER_LEN);
    if ValidLength(c, len) && len <= |more| {
      assert buf[HEADER_LEN..HEADER_LEN + len] == more[..len];
      ParseNeverInvalidLength(c, more[..len]);
    }
  }

  lemma ParseNeverInvalidLength<M>(c: Codec<M>, p: seq<byte>)
    requires |p| >= MinMessageLen(c)
    ensures Parse(c, p) != Error(InvalidLength)
  {
  }

  lemma TooShort<M>(c: Codec<M>, buf: seq<byte>)
    requires |buf| < |c.tag| + 8
    ensures Find(c, buf) == Incomplete
  {
  }

  /** The bytes of a frame around a serialized message, whoever wrote it. */
  function FrameOf<M>(c: Codec<M>, body: seq<byte>): seq<byte>
    requires Fits(|c.tag| + |body| + 4, 4)
  {
    Encode(|c.tag| + |body| + 4, 4) + (c.tag + body + Encode(Checksum(c.tag + body), 4))
  }

  predicate Delivers<M(==)>(c: Codec<M>, f: seq<byte>, body: seq<byte>, m: M) {
    && ValidLength(c, |c.tag| + |body| + 4) && Fits(|c.tag| + |body| + 4, 4)
    && f == FrameOf(c, body) && c.raw(f) && c.parse(body) == Some(m)
  }

  lemma FoundParts<M>(c: Codec<M>, buf: seq<byte>, m: M, n: nat)
    requires Find(c, buf) == Complete(m, n)
    ensures 4 <= n <= |buf| && ValidLength(c, n - 4) && c.raw(buf[..n]) && Parse(c, buf[4..n]) == Message(m)
    ensures Fits(n - 4, 4) && buf[..4] == Encode(n - 4, 4)
  {
    WireRoundTrip(buf[..HEADER_LEN]);
  }

  lemma ParsedParts<M>(c: Codec<M>, p: seq<byte>, m: M) returns (body: seq<byte>)
    requires |p| >= MinMessageLen(c) && Parse(c, p) == Message(m)
    ensures p == c.tag + body + Encode(Checksum(c.tag + body), 4) && c.parse(body) == Some(m)
  {
    var split := |p| - CHECKSUM_LEN;
    body := p[|c.tag|..split];
    WireRoundTrip(p[split..]);
    assert p[..split] == c.tag + body;
    assert p == p[..split] + p[split..];
  }

  lemma PartsDeliver<M>(c: Codec<M>, header: seq<byte>, p: seq<byte>, body: seq<byte>, m: M)
    requires p == c.tag + body + Encode(Checksum(c.tag + body), 4)
    requires Fits(|p|, 4) && header == Encode(|p|, 4)
    requires ValidLength(c, |p|) && c.raw(header + p) && c.parse(body) == Some(m)
    ensures Delivers(c, header + p, body, m)
  {
    assert |p| == |c.tag| + |body| + 4;
  }

  /** Only an intact frame is delivered: its length, tag and checksum are right, the
      raw callback lets it through, and its body parses to the message. */
  lemma OnlyFramesDelivered<M>(c: Codec<M>, buf: seq<byte>, m: M, n: nat) returns (body: seq<byte>)
    requires Find(c, buf) == Complete(m, n)
    ensures n <= |buf| && Delivers(c, buf[..n], body, m)
  {
    FoundParts(c, buf, m, n);
    body := ParsedParts(c, buf[4..n], m);
    assert buf[..n] == buf[..4] + buf[4..n];
    PartsDeliver(c, buf[..4], buf[4..n], body, m);
  }

  lemma FrameFirst(header: seq<byte>, p: seq<byte>, more: seq<byte>)
    ensures header + (p + more) == (header + p) + more && (p + more)[..|p|] == p
    ensures (header + (p + more))[..|header| + |p|] == header + p
  {
  }

  /** A frame whose payload parses, whatever follows. */
  lemma FindPayload<M>(c: Codec<M>, p: seq<byte>, m: M, more: seq<byte>)
    requires |p| >= MinMessageLen(c) && ValidLength(c, |p|) && Fits(|p|, HEADER_LEN)
    requires c.raw(Encode(|p|, HEADER_LEN) + p) && Parse(c, p) == Message(m)
    ensures Find(c, Encode(|p|, HEADER_LEN) + p + more) == Complete(m, 4 + |p|)
  {
    FrameFirst(Encode(|p|, HEADER_LEN), p, more);
    FindExactly(c, |p|, p + more);
  }

  /** And every intact frame is. */
  lemma FramesAreDelivered<M>(c: Codec<M>, f: seq<byte>, body: seq<byte>, m: M, more: seq<byte>)
    requires Delivers(c, f, body, m)
    ensures Find(c, f + more) == Complete(m, |f|)
  {
    var b := c.tag + body;
    var p := b + Encode(Checksum(b), CHECKSUM_LEN);
    ParseExactly(c, b, Checksum(b), m);
    assert f == Encode(|p|, HEADER_LEN) + p;
    FindPayload(c, p, m, more);
  }

  predicate Headed<M>(c: Codec<M>, f: seq<byte>) {
    |f| >= 4 && ValidLength(c, |f| - 4) && Fits(|f| - 4, 4) && f[..4] == Encode(|f| - 4, 4)
  }

  ghost predicate Intact<M>(c: Codec<M>, f: seq<byte>, m: M) {
    exists body :: Delivers(c, f, body, m)
  }

  lemma IntactIsTaken<M>(c: Codec<M>, f: seq<byte>, m: M, more: seq<byte>)
    requires Intact(c, f, m)
    ensures c.raw(f) && Find(c, f + more) == Complete(m, |f|)
  {
    var body :| Delivers(c, f, body, m);
    FramesAreDelivered(c, f, body, m, more);
  }

  lemma TakenIsIntact<M>(c: Codec<M>, buf: seq<byte>, m: M, n: nat)
    requires Find(c, buf) == Complete(m, n)
    ensures n <= |buf| && Intact(c, buf[..n], m) && c.raw(buf[..n])
  {
    var body := OnlyFramesDelivered(c, buf, m, n);
  }

  /** The frames yield the messages: each is intact, or refused by the raw callback. */
  ghost predicate Yields<M>(c: Codec<M>, frames: seq<seq<byte>>, ms: seq<M>)
    decreases |frames|
  {
    if frames == [] then ms == []
    else if !c.raw(frames[0]) then Headed(c, frames[0]) && Yields(c, frames[1..], ms)
    else ms != [] && Intact(c, frames[0], ms[0]) && Yields(c, frames[1..], ms[1..])
  }

  lemma SkippedIsHeaded<M>(c: Codec<M>, buf: seq<byte>, n: nat)
    requires Find(c, buf) == Skipped(n)
    ensures n <= |buf| && Headed(c, buf[..n]) && !c.raw(buf[..n])
  {
    WireRoundTrip(buf[..HEADER_LEN]);
    assert buf[..n][..4] == buf[..4];
  }

  lemma HeadedIsSkipped<M>(c: Codec<M>, f: seq<byte>, more: seq<byte>)
    requires Headed(c, f) && !c.raw(f)
    ensures Find(c, f + more) == Skipped(|f|)
  {
    assert f == f[..4] + f[4..];
    FrameFirst(f[..4], f[4..], more);
    FindExactly(c, |f| - 4, f[4..] + more);
  }

  predicate Stops<M>(c: Codec<M>, rest: seq<byte>, error: Option<ErrorCode>) {
    match error
    case None => Find(c, rest).Incomplete?
    case Some(code) => Find(c, rest).Bad? && Find(c, rest).code == code
  }

  /** The messages are those of whole frames, which are consumed; the rest stays in the
      buffer, and begins with part of a frame or with what the error says. */
  ghost predicate Accounts<M>(c: Codec<M>, buf: seq<byte>, frames: seq<seq<byte>>, o: Outcome<M>) {
    buf == Flatten(frames) + o.rest && Yields(c, frames, o.delivered) && Stops(c, o.rest, o.error)
  }

  lemma BehindFrame(f: seq<byte>, frames: seq<seq<byte>>, rest: seq<byte>)
    ensures ([f] + frames)[1..] == frames && Flatten([f] + frames) + rest == f + (Flatten(frames) + rest)
    ensures (f + (Flatten(frames) + rest))[|f|..] == Flatten(frames) + rest
  {
    FlattenCons(f, frames);
  }

  lemma AccountsSkipped<M>(c: Codec<M>, f: seq<byte>, buf: seq<byte>, frames: seq<seq<byte>>, o: Outcome<M>)
    requires Accounts(c, buf, frames, o) && Headed(c, f) && !c.raw(f)
    ensures Accounts(c, f + buf, [f] + frames, o)
  {
    BehindFrame(f, frames, o.rest);
  }

  lemma AccountsTaken<M>(c: Codec<M>, f: seq<byte>, m: M, buf: seq<byte>, frames: seq<seq<byte>>, o: Outcome<M>)
    requires Accounts(c, buf, frames, o) && c.raw(f) && Intact(c, f, m)
    ensures Accounts(c, f + buf, [f] + frames, Prefixed([m], o))
  {
    BehindFrame(f, frames, o.rest);
    assert ([m] + o.delivered)[1..] == o.delivered;
  }

  /** Every call is to be read so. */
  lemma {:induction false} OnMessageSound<M>(c: Codec<M>, buf: seq<byte>) returns (frames: seq<seq<byte>>)
    ensures Accounts(c, buf, frames, OnMessage(c, buf))
    decreases |buf|
  {
    var f := Find(c, buf);
    if f.Skipped? || f.Complete? {
      var first, behind := buf[..f.n], buf[f.n..];
      assert buf == first + behind;
      var later := OnMessageSound(c, behind);
      frames := [first] + later;
      if f.Skipped? {
        SkippedIsHeaded(c, buf, f.n);
        AccountsSkipped(c, first, behind, later, OnMessage(c, behind));
      } else {
        TakenIsIntact(c, buf, f.m, f.n);
        AccountsTaken(c, first, f.m, behind, later, OnMessage(c, behind));
      }
    } else {
      frames := [];
      assert Flatten(frames) + buf == buf;
    }
  }

  lemma FrameIsNext<M>(c: Codec<M>, f: seq<byte>, frames: seq<seq<byte>>, o: Outcome<M>)
    requires Yields(c, [f] + frames, o.delivered)
    ensures var later := Flatten(frames) + o.rest;
            Find(c, f + later) == if c.raw(f) then Complete(o.delivered[0], |f|) else Skipped(|f|)
  {
    var later := Flatten(frames) + o.rest;
    if !c.raw(f) {
      HeadedIsSkipped(c, f, later);
    } else {
      assert ([f] + frames)[0] == f;
      IntactIsTaken(c, f, o.delivered[0], later);
    }
  }

  lemma NextSkipped<M>(c: Codec<M>, f: seq<byte>, behind: seq<byte>, o: Outcome<M>)
    requires Find(c, f + behind) == Skipped(|f|) && OnMessage(c, behind) == o
    ensures OnMessage(c, f + behind) == o
  {
    assert (f + behind)[|f|..] == behind;
  }

  lemma NextTaken<M>(c: Codec<M>, f: seq<byte>, behind: seq<byte>, m: M, o: Outcome<M>)
    requires Find(c, f + behind) == Complete(m, |f|) && OnMessage(c, behind) == o
    ensures OnMessage(c, f + behind) == Prefixed([m], o)
  {
    assert (f + behind)[|f|..] == behind;
  }

  lemma AccountsNone<M>(c: Codec<M>, buf: seq<byte>, o: Outcome<M>)
    requires Accounts(c, buf, [], o)
    ensures OnMessage(c, buf) == o
  {
    assert buf == o.rest;
  }

  lemma YieldsNext<M>(c: Codec<M>, f: seq<byte>, frames: seq<seq<byte>>, ms: seq<M>)
    requires Yields(c, [f] + frames, ms)
    ensures if c.raw(f) then ms != [] && Yields(c, frames, ms[1..]) else Yields(c, frames, ms)
  {
    assert ([f] + frames)[1..] == frames;
  }

  lemma TakenNext<M>(c: Codec<M>, f: seq<byte>, behind: seq<byte>, o: Outcome<M>, later: Outcome<M>)
    requires o.delivered != [] && later == o.(delivered := o.delivered[1..])
    requires Find(c, f + behind) == Complete(o.delivered[0], |f|) && OnMessage(c, behind) == later
    ensures OnMessage(c, f + behind) == o
  {
    NextTaken(c, f, behind, o.delivered[0], later);
    assert [o.delivered[0]] + o.delivered[1..] == o.delivered;
  }

  /** What the call does with the first frame, if it does the rest right. */
  lemma AccountsNext<M>(c: Codec<M>, buf: seq<byte>, f: seq<byte>, frames: seq<seq<byte>>, o: Outcome<M>)
    returns (behind: seq<byte>, later: Outcome<M>)
    requires Accounts(c, buf, [f] + frames, o)
    ensures Accounts(c, behind, frames, later)
    ensures OnMessage(c, behind) == later ==> OnMessage(c, buf) == o
  {
    behind := Flatten(frames) + o.rest;
    later := if c.raw(f) then o.(delivered := o.delivered[1..]) else o;
    BehindFrame(f, frames, o.rest);
    YieldsNext(c, f, frames, o.delivered);
    FrameIsNext(c, f, frames, o);
    if OnMessage(c, behind) == later {
      if c.raw(f) {
        TakenNext(c, f, behind, o, later);
      } else {
        NextSkipped(c, f, behind, o);
      }
    }
  }

  /** And only this call can be: what the frames yield is what it delivers. */
  lemma {:induction false} OnMessageComplete<M>(c: Codec<M>, buf: seq<byte>, frames: seq<seq<byte>>, o: Outcome<M>)
    requires Accounts(c, buf, frames, o)
    ensures OnMessage(c, buf) == o
    decreases |frames|
  {
    if frames == [] {
      AccountsNone(c, buf, o);
    } else {
      assert frames == [frames[0]] + frames[1..];
      var behind, later := AccountsNext(c, buf, frames[0], frames[1..], o);
      OnMessageComplete(c, behind, frames[1..], later);
    }
  }

  // ----- what is sent is what arrives -----

  lemma ParsePayload<M>(c: Codec<M>, m: M)
    ensures Parse(c, Payload(c, m)) ==
            match c.parse(c.serialize(m)) case Some(x) => Message(x) case None => Error(ParseError)
  {
    var p, body := Payload(c, m), Body(c, m);
    var split := |p| - CHECKSUM_LEN;
    assert p[..split] == body;
    assert p[split..] == Encode(Checksum(body), CHECKSUM_LEN);
    IntRoundTrip(Checksum(body), CHECKSUM_LEN);
    assert p[..|c.tag|] == c.tag;
    assert p[|c.tag|..split] == c.serialize(m);
  }

  /** The first frame of a stream. */
  lemma FindFrame<M>(c: Codec<M>, m: M, more: seq<byte>)
    requires Writable(c, m) && c.parse(c.serialize(m)) == Some(m)
    ensures Find(c, Frame(c, m) + more) ==
            if |Payload(c, m)| > MAX_MESSAGE_LEN then Bad(InvalidLength)
            else if !c.raw(Frame(c, m)) then Skipped(|Frame(c, m)|)
            else Complete(m, |Frame(c, m)|)
  {
    var f, p := Frame(c, m), Payload(c, m);
    assert (f + more)[..HEADER_LEN] == Encode(|p|, HEADER_LEN);
    IntRoundTrip(|p|, HEADER_LEN);
    assert (f + more)[..|f|] == f;
    assert (f + more)[HEADER_LEN..|f|] == p;
    ParsePayload(c, m);
  }

  /** A frame that has not fully arrived is waited for, whatever part is there. */
  lemma PartWaits<M>(c: Codec<M>, m: M, k: nat)
    requires Writable(c, m) && |Payload(c, m)| <= MAX_MESSAGE_LEN && k < |Frame(c, m)|
    ensures Find(c, Frame(c, m)[..k]) == Incomplete
  {
    if k >= MinMessageLen(c) + HEADER_LEN {
      assert Frame(c, m)[..k][..HEADER_LEN] == Encode(|Payload(c, m)|, HEADER_LEN);
      IntRoundTrip(|Payload(c, m)|, HEADER_LEN);
    }
  }

  predicate Sendable<M(==)>(c: Codec<M>, m: M) {
    Writable(c, m) && |Payload(c, m)| <= MAX_MESSAGE_LEN && c.parse(c.serialize(m)) == Some(m)
  }

  predicate AllSendable<M(==)>(c: Codec<M>, ms: seq<M>) {
    forall i :: 0 <= i < |ms| ==> Sendable(c, ms[i])
  }

  function Stream<M>(c: Codec<M>, ms: seq<M>): seq<byte>
    requires AllSendable(c, ms)
  {
    if ms == [] then [] else Frame(c, ms[0]) + Stream(c, ms[1..])
  }

  function IfLet<M>(c: Codec<M>, m: M): seq<M>
    requires Sendable(c, m)
  {
    if c.raw(Frame(c, m)) then [m] else []
  }

  /** The messages the raw callback lets through. */
  function LetThrough<M>(c: Codec<M>, ms: seq<M>): seq<M>
    requires AllSendable(c, ms)
  {
    if ms == [] then []
    else IfLet(c, ms[0]) + LetThrough(c, ms[1..])
  }

  lemma OneFrame<M>(c: Codec<M>, m: M, later: seq<byte>)
    requires Sendable(c, m)
    ensures OnMessage(c, Frame(c, m) + later) == Prefixed(IfLet(c, m), OnMessage(c, later))
  {
    FindFrame(c, m, later);
    var f := Frame(c, m);
    assert (f + later)[|f|..] == later;
    assert [] + OnMessage(c, later).delivered == OnMessage(c, later).delivered;
  }

  lemma {:induction false} WholeStream<M>(c: Codec<M>, ms: seq<M>, more: seq<byte>)
    requires AllSendable(c, ms)
    ensures OnMessage(c, Stream(c, ms) + more) == Prefixed(LetThrough(c, ms), OnMessage(c, more))
    decreases |ms|
  {
    var o := OnMessage(c, more);
    if ms == [] {
      assert Stream(c, ms) + more == more;
      assert [] + o.delivered == o.delivered;
    } else {
      var rest := Stream(c, ms[1..]);
      assert (Frame(c, ms[0]) + rest) + more == Frame(c, ms[0]) + (rest + more);
      WholeStream(c, ms[1..], more);
      OneFrame(c, ms[0], rest + more);
      PrefixTwice(IfLet(c, ms[0]), LetThrough(c, ms[1..]), o);
    }
  }

  /** Messages sent one after another, cut anywhere, with the beginning of one more:
      delivered are exactly the messages, in order, and the beginning stays. */
  lemma SentIsReceived<M>(c: Codec<M>, ms: seq<M>, next: M, k: nat, chunks: seq<seq<byte>>)
    requires AllSendable(c, ms)
    requires Sendable(c, next) && k < |Frame(c, next)|
    requires Flatten(chunks) == Stream(c, ms) + Frame(c, next)[..k]
    ensures Received(c, chunks) == Outcome(LetThrough(c, ms), Frame(c, next)[..k], None)
  {
    ChunkingDoesNotMatter(c, chunks);
    var part := Frame(c, next)[..k];
    WholeStream(c, ms, part);
    PartWaits(c, next, k);
    assert LetThrough(c, ms) + [] == LetThrough(c, ms);
  }

  /** The sender does not check the size: a message arrives if and only if its frame
      is not longer than the receiver allows. */
  lemma ArrivesIffNotTooLong<M>(c: Codec<M>, m: M)
    requires Writable(c, m) && c.parse(c.serialize(m)) == Some(m) && c.raw(Frame(c, m))
    ensures OnMessage(c, Frame(c, m)) == Outcome([m], [], None) <==> |Payload(c, m)| <= MAX_MESSAGE_LEN
    ensures |Payload(c, m)| > MAX_MESSAGE_LEN ==>
              OnMessage(c, Frame(c, m)) == Outcome([], Frame(c, m), Some(InvalidLength))
  {
    FindFrame(c, m, []);
    assert Frame(c, m) + [] == Frame(c, m);
    assert Frame(c, m)[|Frame(c, m)|..] == [];
  }

  // ----- the methods -----

  method FillEmptyBuffer<M>(c: Codec<M>, message: M) returns (buf: Buffer)
    requires Writable(c, message)
    ensures fresh(buf) && buf.Valid() && buf.Contents() == Frame(c, message)
  {
    buf := new Buffer(INITIAL_SIZE);
    buf.Append(c.tag);
    buf.Append(c.serialize(message));
    var contents := buf.Contents();
    assert contents == Body(c, message);
    buf.AppendInt(Checksum(contents), CHECKSUM_LEN);
    assert buf.Contents() == Payload(c, message);
    var len := |buf.Contents()|;
    buf.PrependInt(len, HEADER_LEN);
  }

  /** What stands at the front of the buffer, looked at without taking it. */
  method Examine<M>(c: Codec<M>, buf: Buffer) returns (f: Found<M>)
    requires buf.Valid()
    ensures f == Find(c, buf.Contents())
  {
    var contents := buf.Contents();
    if |contents| < MinMessageLen(c) + HEADER_LEN {
      return Incomplete;
    }
    var len := buf.PeekInt(HEADER_LEN);
    IntRoundTrip(len, HEADER_LEN);
    if len > MAX_MESSAGE_LEN || len < MinMessageLen(c) {
      return Bad(InvalidLength);
    } else if |contents| < HEADER_LEN + len {
      return Incomplete;
    } else if !c.raw(contents[..HEADER_LEN + len]) {
      return Skipped(HEADER_LEN + len);
    }
    match Parse(c, contents[HEADER_LEN..HEADER_LEN + len]) {
      case Message(m) => return Complete(m, HEADER_LEN + len);
      case Error(code) => return Bad(code);
    }
  }

  /** The loop of onMessage on a connection's input buffer. */
  method HandleMessages<M>(c: Codec<M>, buf: Buffer) returns (delivered: seq<M>, error: Option<ErrorCode>)
    requires buf.Valid()
    modifies buf
    ensures buf.Valid()
    ensures Outcome(delivered, buf.Contents(), error) == OnMessage(c, old(buf.Contents()))
  {
    delivered, error := [], None;
    ghost var end := OnMessage(c, buf.Contents());
    assert Prefixed([], end) == end;
    while true
      invariant buf.Valid() && buf.buffer == old(buf.buffer)
      invariant end == Prefixed(delivered, OnMessage(c, buf.Contents()))
      decreases |buf.Contents()|
    {
      var found := Examine(c, buf);
      match found
      case Incomplete => break;
      case Bad(code) =>
        error := Some(code);
        break;
      case Skipped(n) => buf.Retrieve(n);
      case Complete(m, n) =>
        PrefixTwice(delivered, [m], OnMessage(c, buf.Contents()[n..]));
        delivered := delivered + [m];
        buf.Retrieve(n);
    }
    assert delivered + [] == delivered;
  }
}
