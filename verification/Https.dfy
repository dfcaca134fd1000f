/** net/http/HttpContext.cc and net/http/HttpRequest.h: the incremental parser of
    request line and headers. A buffer is the string of its readable characters. */
module Https {
  import opened Seqs

  datatype Method = Invalid | Get | Post | Head | Put | Delete
  datatype Version = Unknown | Http10 | Http11
  datatype State = ExpectRequestLine | ExpectHeaders | ExpectBody | GotAll

  datatype Request = Request(
    verb: Method, version: Version, path: string, query: string, receiveTime: int, headers: map<string, string>)

  datatype Context = Context(state: State, request: Request)

  /** What a call of parseRequest returns, and what it leaves in context and buffer. */
  datatype Result = Result(ok: bool, ctx: Context, rest: string)

  const FRESH := Context(ExpectRequestLine, Request(Invalid, Unknown, "", "", 0, map[]))

  // ----- one line -----

  /** std::find: the first place of ch, or the end. */
  function Index(s: string, ch: char): (k: nat)
    ensures k <= |s| && (k < |s| ==> s[k] == ch)
    ensures forall i :: 0 <= i < k ==> s[i] != ch
  {
    if s == "" || s[0] == ch then 0 else 1 + Index(s[1..], ch)
  }

  function MethodOf(m: string): Method {
    if m == "GET" then Get
    else if m == "POST" then Post
    else if m == "HEAD" then Head
    else if m == "PUT" then Put
    else if m == "DELETE" then Delete
    else Invalid
  }

  function VersionOf(v: string): Version {
    if |v| != 8 || v[..7] != "HTTP/1." then Unknown
    else if v[7] == '1' then Http11
    else if v[7] == '0' then Http10
    else Unknown
  }

  /** The target of the request line, cut at the question mark, which stays with the query. */
  function WithTarget(r: Request, target: string): Request {
    var question := Index(target, '?');
    if question < |target| then r.(path := target[..question], query := target[question..])
    else r.(path := target)
  }

  /** Behind the method: target, a space, and the version. */
  function TargetAndVersion(r: Request, rest: string): (bool, Request) {
    var space := Index(rest, ' ');
    if space == |rest| then (false, r)
    else
      var r1, v := WithTarget(r, rest[..space]), VersionOf(rest[space + 1..]);
      if v == Unknown then (false, r1) else (true, r1.(version := v))
  }

  /** Success, and the request with the fields set on the way, also on failure. */
  function RequestLine(r: Request, line: string): (bool, Request) {
    var space := Index(line, ' ');
    if space == |line| then (false, r)
    else
      var r1 := r.(verb := MethodOf(line[..space]));
      if r1.verb == Invalid then (false, r1) else TargetAndVersion(r1, line[space + 1..])
  }

  /** isspace */
  predicate IsSpace(ch: char) {
    ch == ' ' || 9 <= ch as int <= 13
  }

  function TrimLeft(s: string): string {
    if s != "" && IsSpace(s[0]) then TrimLeft(s[1..]) else s
  }

  function TrimRight(s: string): string {
    if s != "" && IsSpace(s[|s| - 1]) then TrimRight(s[..|s| - 1]) else s
  }

  function AddHeader(r: Request, line: string, colon: nat): Request
    requires colon < |line|
  {
    r.(headers := r.headers[line[..colon] := TrimRight(TrimLeft(line[colon + 1..]))])
  }

  // ----- the loop -----

  /** The states a call may start in; in the others its loop does nothing, forever. */
  predicate Parsing(ctx: Context) {
    ctx.state == ExpectRequestLine || ctx.state == ExpectHeaders
  }

  /** What parseRequest does with one whole line: whether it goes on, whether all is
      well, and the context. */
  datatype Line = Line(more: bool, ok: bool, ctx: Context)

  function OneLine(ctx: Context, line: string, t: int): (l: Line)
    requires Parsing(ctx)
    ensures l.more ==> l.ok && l.ctx.state == ExpectHeaders
    ensures !l.more ==> l.ok == (l.ctx.state == GotAll)
    ensures !l.ok ==> l.ctx.state == ExpectRequestLine
  {
    if ctx.state == ExpectRequestLine then
      var (ok, r) := RequestLine(ctx.request, line);
      if ok then Line(true, true, Context(ExpectHeaders, r.(receiveTime := t)))
      else Line(false, false, ctx.(request := r))
    else
      var colon := Index(line, ':');
      if colon < |line| then Line(true, true, ctx.(request := AddHeader(ctx.request, line, colon)))
      else Line(false, true, ctx.(state := GotAll))
  }

  /** The buffer up to its first line end, and behind it. */
  function LineEnd(buf: string): nat {
    FindPair(buf, '\r', '\n')
  }

  /** The loop, whatever is done with a line: on and on until a line ends it, or no
      whole line is left. */
  function ParseLines(line: (Context, string) -> Line, ctx: Context, buf: string): Result
    decreases |buf|
  {
    var k := LineEnd(buf);
    if k == |buf| then Result(true, ctx, buf)
    else
      var l := line(ctx, buf[..k]);
      if l.more then ParseLines(line, l.ctx, buf[k + 2..])
      else Result(l.ok, l.ctx, if l.ok then buf[k + 2..] else buf)
  }

  function LineAt(t: int): (Context, string) -> Line {
    (ctx, line) => if Parsing(ctx) then OneLine(ctx, line, t) else Line(false, false, ctx)
  }

  function ParseRequest(ctx: Context, buf: string, t: int): (r: Result)
    requires Parsing(ctx)
    ensures if r.ok then Parsing(r.ctx) || r.ctx.state == GotAll else r.ctx.state == ExpectRequestLine
  {
    LineAtEnds(t);
    LinesEnd(LineAt(t), ctx, buf);
    ParseLines(LineAt(t), ctx, buf)
  }

  /** A line goes on in a state that parses, or ends well or with an error. */
  ghost predicate Ends(line: (Context, string) -> Line) {
    forall ctx, s :: Parsing(ctx) ==>
      var l := line(ctx, s);
      if l.more then Parsing(l.ctx)
      else if l.ok then l.ctx.state == GotAll
      else l.ctx.state == ExpectRequestLine
  }

  lemma LineAtEnds(t: int)
    ensures Ends(LineAt(t))
  {
    forall ctx, s | Parsing(ctx) ensures LineAt(t)(ctx, s) == OneLine(ctx, s, t) {
    }
  }

  lemma {:induction false} LinesEnd(line: (Context, string) -> Line, ctx: Context, buf: string)
    requires Ends(line) && Parsing(ctx)
    ensures var r := ParseLines(line, ctx, buf);
            if r.ok then Parsing(r.ctx) || r.ctx.state == GotAll else r.ctx.state == ExpectRequestLine
    decreases |buf|
  {
    var k := LineEnd(buf);
    if k < |buf| {
      var l := line(ctx, buf[..k]);
      if l.more {
        LinesEnd(line, l.ctx, buf[k + 2..]);
      }
    }
  }

  /** parseRequest on a buffer with a whole line in it. */
  lemma ParseOneLine(ctx: Context, buf: string, k: nat, line: string, rest: string, t: int)
    requires Parsing(ctx) && LineEnd(buf) == k < |buf| && line == buf[..k] && rest == buf[k + 2..]
    ensures var l := OneLine(ctx, line, t);
            ParseRequest(ctx, buf, t) ==
            if l.more then ParseRequest(l.ctx, rest, t) else Result(l.ok, l.ctx, if l.ok then rest else buf)
  {
  }

  // ----- the cut of the stream does not matter -----

  /** No further call of parseRequest is to be made for this request. */
  predicate Over(r: Result) {
    !r.ok || r.ctx.state == GotAll
  }

  lemma LineEndExtends(buf: string, more: string)
    requires LineEnd(buf) < |buf|
    ensures LineEnd(buf + more) == LineEnd(buf)
  {
    FindPairUnique(buf + more, '\r', '\n', LineEnd(buf));
  }

  lemma LinesUnfold(line: (Context, string) -> Line, ctx: Context, buf: string, k: nat, first: string, rest: string)
    requires LineEnd(buf) == k < |buf| && first == buf[..k] && rest == buf[k + 2..]
    ensures var l := line(ctx, first);
            ParseLines(line, ctx, buf) ==
            if l.more then ParseLines(line, l.ctx, rest) else Result(l.ok, l.ctx, if l.ok then rest else buf)
  {
  }

  /** The parse of b1, gone on with when b2 has come. */
  function Continued(line: (Context, string) -> Line, r: Result, b2: string): Result {
    if Over(r) then r.(rest := r.rest + b2) else ParseLines(line, r.ctx, r.rest + b2)
  }

  /** A whole line in b1 is taken alike with and without b2. */
  lemma FirstOfTwo(line: (Context, string) -> Line, ctx: Context, b1: string, b2: string, k: nat, l: Line)
    requires LineEnd(b1) == k < |b1| && l == line(ctx, b1[..k])
    ensures l.more ==> ParseLines(line, ctx, b1) == ParseLines(line, l.ctx, b1[k + 2..])
    ensures l.more ==> ParseLines(line, ctx, b1 + b2) == ParseLines(line, l.ctx, b1[k + 2..] + b2)
    ensures !l.more ==> ParseLines(line, ctx, b1) == Result(l.ok, l.ctx, if l.ok then b1[k + 2..] else b1)
    ensures !l.more ==>
              ParseLines(line, ctx, b1 + b2) == Result(l.ok, l.ctx, if l.ok then b1[k + 2..] + b2 else b1 + b2)
  {
    LineEndExtends(b1, b2);
    assert (b1 + b2)[..k] == b1[..k] && (b1 + b2)[k + 2..] == b1[k + 2..] + b2;
    LinesUnfold(line, ctx, b1, k, b1[..k], b1[k + 2..]);
    LinesUnfold(line, ctx, b1 + b2, k, b1[..k], b1[k + 2..] + b2);
  }

  lemma {:induction false} LinesInTwoCalls(line: (Context, string) -> Line, ctx: Context, b1: string, b2: string)
    requires Ends(line) && Parsing(ctx)
    ensures ParseLines(line, ctx, b1 + b2) == Continued(line, ParseLines(line, ctx, b1), b2)
    decreases |b1|
  {
    var k := LineEnd(b1);
    if k == |b1| {
      assert ParseLines(line, ctx, b1) == Result(true, ctx, b1);
    } else {
      var l := line(ctx, b1[..k]);
      FirstOfTwo(line, ctx, b1, b2, k, l);
      if l.more {
        LinesInTwoCalls(line, l.ctx, b1[k + 2..], b2);
      }
    }
  }

  /** Parsing what has arrived, then the rest of it with what came later, is parsing
      it at once; and what comes after the end, or after an error, is not touched. */
  lemma TwoCalls(ctx: Context, b1: string, b2: string, t: int)
    requires Parsing(ctx)
    ensures var r := ParseRequest(ctx, b1, t);
            ParseRequest(ctx, b1 + b2, t) ==
            if Over(r) then r.(rest := r.rest + b2) else ParseRequest(r.ctx, r.rest + b2, t)
  {
    LineAtEnds(t);
    LinesInTwoCalls(LineAt(t), ctx, b1, b2);
  }

  function Untimed(ctx: Context): Context {
    ctx.(request := ctx.request.(receiveTime := 0))
  }

  function UntimedResult(r: Result): Result {
    r.(ctx := Untimed(r.ctx))
  }

  /** Two ways with a line that differ in the receive time alone. */
  ghost predicate SameButTime(line: (Context, string) -> Line, line0: (Context, string) -> Line) {
    forall ctx, s :: Parsing(ctx) ==> line0(Untimed(ctx), s) == line(ctx, s).(ctx := Untimed(line(ctx, s).ctx))
  }

  lemma {:induction false} LinesButTime(line: (Context, string) -> Line, line0: (Context, string) -> Line,
                                        ctx: Context, buf: string)
    requires SameButTime(line, line0) && Ends(line) && Parsing(ctx)
    ensures UntimedResult(ParseLines(line, ctx, buf)) == ParseLines(line0, Untimed(ctx), buf)
    decreases |buf|
  {
    var k := LineEnd(buf);
    if k < |buf| {
      var first, rest := buf[..k], buf[k + 2..];
      var l := line(ctx, first);
      assert line0(Untimed(ctx), first) == l.(ctx := Untimed(l.ctx));
      LinesUnfold(line, ctx, buf, k, first, rest);
      LinesUnfold(line0, Untimed(ctx), buf, k, first, rest);
      if l.more {
        LinesButTime(line, line0, l.ctx, rest);
      }
    }
  }

  lemma OneLineTime(ctx: Context, line: string, t: int)
    requires Parsing(ctx)
    ensures var l := OneLine(ctx, line, t); OneLine(Untimed(ctx), line, 0) == l.(ctx := Untimed(l.ctx))
  {
  }

  lemma LineAtTime(t: int)
    ensures SameButTime(LineAt(t), LineAt(0))
  {
    forall ctx, s | Parsing(ctx)
      ensures LineAt(0)(Untimed(ctx), s) == LineAt(t)(ctx, s).(ctx := Untimed(LineAt(t)(ctx, s).ctx))
    {
      OneLineTime(ctx, s, t);
    }
  }

  /** The time of a call goes into receiveTime and nowhere else. */
  lemma TimeOnlyStamps(ctx: Context, buf: string, t: int)
    requires Parsing(ctx)
    ensures UntimedResult(ParseRequest(ctx, buf, t)) == ParseRequest(Untimed(ctx), buf, 0)
  {
    LineAtEnds(t);
    LineAtTime(t);
    LinesButTime(LineAt(t), LineAt(0), ctx, buf);
  }

  /** The chunks arrive one by one, each with its time, and are parsed as they come
      until the request is over. */
  function Received(ctx: Context, chunks: seq<string>, times: seq<int>): (r: Result)
    requires |chunks| == |times| && Parsing(ctx)
    ensures !Over(r) ==> Parsing(r.ctx)
  {
    if chunks == [] then Result(true, ctx, "")
    else
      var n := |chunks| - 1;
      var r := Received(ctx, chunks[..n], times[..n]);
      if Over(r) then r.(rest := r.rest + chunks[n]) else ParseRequest(r.ctx, r.rest + chunks[n], times[n])
  }

  /** However the text is cut, and whenever the pieces arrive: the same verdict,
      state, request and leftover as in one piece, but for the receive time. */
  lemma {:induction false} ChunkingDoesNotMatter(ctx: Context, chunks: seq<string>, times: seq<int>)
    requires |chunks| == |times| && Parsing(ctx)
    ensures UntimedResult(Received(ctx, chunks, times)) == ParseRequest(Untimed(ctx), Flatten(chunks), 0)
    decreases |chunks|
  {
    if chunks != [] {
      var n := |chunks| - 1;
      var r, soFar := Received(ctx, chunks[..n], times[..n]), Flatten(chunks[..n]);
      ChunkingDoesNotMatter(ctx, chunks[..n], times[..n]);
      TwoCalls(Untimed(ctx), soFar, chunks[n], 0);
      if !Over(r) {
        TimeOnlyStamps(r.ctx, r.rest + chunks[n], times[n]);
      }
    }
  }

  // ----- the assert of setMethod -----

  /** assert(method_ == kInvalid) will hold when the request line comes. */
  predicate MethodUnset(ctx: Context) {
    ctx.state == ExpectRequestLine ==> ctx.request.verb == Invalid
  }

  const METHODS := {"GET", "POST", "HEAD", "PUT", "DELETE"}
  const VERSIONS := {"HTTP/1.0", "HTTP/1.1"}

  predicate KnownMethod(line: string) {
    Index(line, ' ') < |line| && line[..Index(line, ' ')] in METHODS
  }

  lemma RequestLineMethod(r: Request, line: string)
    requires r.verb == Invalid
    ensures RequestLine(r, line).1.verb != Invalid <==> KnownMethod(line)
  {
  }

  /** It does, through any calls that report no error. After one that does, the next
      call violates it exactly if the rejected line began with a known method. */
  lemma MethodSetOnce(ctx: Context, buf: string, t: int)
    requires Parsing(ctx) && MethodUnset(ctx)
    ensures ParseRequest(ctx, buf, t).ok ==> MethodUnset(ParseRequest(ctx, buf, t).ctx)
    ensures !ParseRequest(ctx, buf, t).ok ==>
              (MethodUnset(ParseRequest(ctx, buf, t).ctx) <==> !KnownMethod(buf[..LineEnd(buf)]))
  {
    var k := LineEnd(buf);
    if k < |buf| {
      if ctx.state == ExpectRequestLine {
        RequestLineMethod(ctx.request, buf[..k]);
        var l := OneLine(ctx, buf[..k], t);
        if l.more {
          HeadersDoNotFail(l.ctx, buf[k + 2..], t);
        }
      } else {
        HeadersDoNotFail(ctx, buf, t);
      }
    }
  }

  lemma {:induction false} HeadersDoNotFail(ctx: Context, buf: string, t: int)
    requires ctx.state == ExpectHeaders
    ensures ParseRequest(ctx, buf, t).ok && ParseRequest(ctx, buf, t).ctx.state != ExpectRequestLine
    decreases |buf|
  {
    var k := LineEnd(buf);
    if k < |buf| {
      var l := OneLine(ctx, buf[..k], t);
      if l.more {
        HeadersDoNotFail(l.ctx, buf[k + 2..], t);
      }
    }
  }

  // ----- what is printed is what is parsed -----

  function MethodText(m: Method): string
    requires m != Invalid
  {
    match m
    case Get => "GET"
    case Post => "POST"
    case Head => "HEAD"
    case Put => "PUT"
    case Delete => "DELETE"
  }

  function VersionText(v: Version): string
    requires v != Unknown
  {
    if v == Http11 then "HTTP/1.1" else "HTTP/1.0"
  }

  /** A header line with white space around the value. */
  datatype Header = Header(field: string, lead: string, value: string, trail: string)

  predicate Blank(s: string) {
    forall i :: 0 <= i < |s| ==> IsSpace(s[i]) && s[i] != '\r'
  }

  predicate Trimmed(s: string) {
    s != "" ==> !IsSpace(s[0]) && !IsSpace(s[|s| - 1])
  }

  predicate WellFormedHeader(h: Header) {
    && ':' !in h.field && '\r' !in h.field
    && Blank(h.lead) && Blank(h.trail) && Trimmed(h.value) && '\r' !in h.value
  }

  function HeaderText(h: Header): string {
    h.field + ":" + h.lead + h.value + h.trail
  }

  function HeadersText(hs: seq<Header>): string {
    if hs == [] then "\r\n" else HeaderText(hs[0]) + "\r\n" + HeadersText(hs[1..])
  }

  /** A repeated field keeps its last value. */
  function HeaderMap(m: map<string, string>, hs: seq<Header>): map<string, string>
    decreases |hs|
  {
    if hs == [] then m else HeaderMap(m[hs[0].field := hs[0].value], hs[1..])
  }

  predicate IsTarget(path: string, query: string) {
    ' ' !in path && '?' !in path && (query != "" ==> query[0] == '?') && ' ' !in query
  }

  predicate WellFormedTarget(path: string, query: string) {
    IsTarget(path, query) && '\r' !in path && '\r' !in query
  }

  function RequestLineText(m: Method, path: string, query: string, v: Version): string
    requires m != Invalid && v != Unknown
  {
    MethodText(m) + " " + (path + query + " " + VersionText(v))
  }

  lemma IndexUnique(s: string, ch: char, rest: string)
    requires ch !in s && (rest == "" || rest[0] == ch)
    ensures Index(s + rest, ch) == |s|
  {
    assert forall i :: 0 <= i < |s| ==> (s + rest)[i] == s[i];
    if rest != "" {
      assert (s + rest)[|s|] == ch;
    }
  }

  /** Without a question mark the query is left as it is. */
  lemma TargetRoundTrip(r: Request, path: string, query: string)
    requires IsTarget(path, query)
    ensures WithTarget(r, path + query) == r.(path := path, query := if query == "" then r.query else query)
  {
    IndexUnique(path, '?', query);
    assert (path + query)[..|path|] == path && (path + query)[|path|..] == query;
  }

  lemma VersionRoundTrip(v: Version)
    requires v != Unknown
    ensures VersionOf(VersionText(v)) == v && ' ' !in VersionText(v) && '\r' !in VersionText(v)
  {
  }

  lemma MethodRoundTrip(m: Method)
    requires m != Invalid
    ensures MethodOf(MethodText(m)) == m && ' ' !in MethodText(m) && '\r' !in MethodText(m)
  {
  }

  lemma TargetVersionRoundTrip(r: Request, path: string, query: string, v: Version)
    requires v != Unknown && IsTarget(path, query)
    ensures TargetAndVersion(r, path + query + " " + VersionText(v)) ==
            (true, r.(path := path, query := if query == "" then r.query else query, version := v))
  {
    var target := path + query;
    VersionRoundTrip(v);
    Around(target, VersionText(v));
    TargetRoundTrip(r, path, query);
  }

  /** The first space, when there is none before. */
  lemma Around(left: string, right: string)
    requires ' ' !in left
    ensures var s := left + " " + right;
            Index(s, ' ') == |left| < |s| && s[..|left|] == left && s[|left| + 1..] == right
  {
    assert left + " " + right == left + (" " + right);
    IndexUnique(left, ' ', " " + right);
  }

  lemma NoCrInRequestLine(m: Method, path: string, query: string, v: Version)
    requires m != Invalid && v != Unknown && WellFormedTarget(path, query)
    ensures '\r' !in RequestLineText(m, path, query, v)
  {
    MethodRoundTrip(m);
    VersionRoundTrip(v);
    assert '\r' !in path + query;
    assert '\r' !in path + query + " " + VersionText(v);
  }

  lemma RequestLineRoundTrip(r: Request, m: Method, path: string, query: string, v: Version)
    requires m != Invalid && v != Unknown && IsTarget(path, query)
    ensures RequestLine(r, RequestLineText(m, path, query, v)) ==
            (true, r.(verb := m, path := path, query := if query == "" then r.query else query, version := v))
  {
    MethodRoundTrip(m);
    Around(MethodText(m), path + query + " " + VersionText(v));
    TargetVersionRoundTrip(r.(verb := m), path, query, v);
  }

  // ----- which request lines are accepted -----

  lemma MethodExactly(s: string)
    ensures MethodOf(s) != Invalid <==> s in METHODS
    ensures s in METHODS ==> MethodText(MethodOf(s)) == s
  {
  }

  lemma VersionExactly(s: string)
    ensures VersionOf(s) != Unknown <==> s in VERSIONS
    ensures s in VERSIONS ==> VersionText(VersionOf(s)) == s
  {
    if |s| == 8 && s[..7] == "HTTP/1." {
      assert s == s[..7] + [s[7]];
      assert s[7] == '1' ==> s == "HTTP/1.1";
      assert s[7] == '0' ==> s == "HTTP/1.0";
    }
  }

  lemma SpaceSplits(s: string)
    requires Index(s, ' ') < |s|
    ensures var k := Index(s, ' '); ' ' !in s[..k] && s == s[..k] + " " + s[k + 1..]
  {
    var k := Index(s, ' ');
    CutAt(s, k);
    assert forall i :: 0 <= i < k ==> s[..k][i] == s[i];
  }

  lemma CutAt(s: string, k: nat)
    requires k < |s|
    ensures s == s[..k] + [s[k]] + s[k + 1..]
  {
  }

  lemma TargetSplits(target: string) returns (path: string, query: string)
    requires ' ' !in target
    ensures target == path + query && IsTarget(path, query)
  {
    var k := Index(target, '?');
    path, query := target[..k], target[k..];
  }

  /** A method, a target and a version with one space between them. */
  predicate IsRequestLine(line: string, m: Method, path: string, query: string, v: Version) {
    m != Invalid && v != Unknown && IsTarget(path, query) && line == RequestLineText(m, path, query, v)
  }

  lemma AcceptedIsRequestLine(r: Request, line: string)
    returns (m: Method, path: string, query: string, v: Version)
    requires RequestLine(r, line).0
    ensures IsRequestLine(line, m, path, query, v)
  {
    var k := Index(line, ' ');
    var rest := line[k + 1..];
    var j := Index(rest, ' ');
    m, v := MethodOf(line[..k]), VersionOf(rest[j + 1..]);
    SpaceSplits(line);
    SpaceSplits(rest);
    MethodExactly(line[..k]);
    VersionExactly(rest[j + 1..]);
    path, query := TargetSplits(rest[..j]);
  }

  ghost predicate Acceptable(line: string) {
    exists m, path, query, v :: IsRequestLine(line, m, path, query, v)
  }

  /** Exactly the request lines are accepted. */
  lemma RequestLineExactly(r: Request, line: string)
    ensures RequestLine(r, line).0 <==> Acceptable(line)
  {
    if RequestLine(r, line).0 {
      var m, path, query, v := AcceptedIsRequestLine(r, line);
    } else if m, path, query, v :| IsRequestLine(line, m, path, query, v) {
      RequestLineRoundTrip(r, m, path, query, v);
    }
  }

  /** What is set before a line is refused: nothing without a space, the method in any
      case otherwise, and the target if only the version is wrong. */
  lemma RejectedLine(r: Request, word: string, m: Method, rest: string, path: string, query: string, version: string)
    requires ' ' !in word && m != Invalid && IsTarget(path, query) && version !in VERSIONS
    ensures RequestLine(r, word) == (false, r)
    ensures word !in METHODS ==> RequestLine(r, word + " " + rest) == (false, r.(verb := Invalid))
    ensures ' ' !in rest ==> RequestLine(r, MethodText(m) + " " + rest) == (false, r.(verb := m))
    ensures RequestLine(r, MethodText(m) + " " + (path + query + " " + version)) ==
            (false, r.(verb := m, path := path, query := if query == "" then r.query else query))
  {
    IndexUnique(word, ' ', "");
    assert word + "" == word;
    Around(word, rest);
    MethodExactly(word);
    MethodRoundTrip(m);
    Around(MethodText(m), rest);
    if ' ' !in rest {
      IndexUnique(rest, ' ', "");
      assert rest + "" == rest;
    }
    BadVersion(r.(verb := m), path, query, version);
    Around(MethodText(m), path + query + " " + version);
  }

  lemma BadVersion(r: Request, path: string, query: string, version: string)
    requires IsTarget(path, query) && version !in VERSIONS
    ensures TargetAndVersion(r, path + query + " " + version) ==
            (false, r.(path := path, query := if query == "" then r.query else query))
  {
    VersionExactly(version);
    Around(path + query, version);
    TargetRoundTrip(r, path, query);
  }

  // ----- headers -----

  /** The white space of the C locale. */
  const WHITE_SPACE := {' ', '\t', '\n', '\r', 11 as char, 12 as char}

  predicate White(s: string) {
    forall i :: 0 <= i < |s| ==> s[i] in WHITE_SPACE
  }

  lemma {:induction false} TrimLeftExactly(s: string) returns (lead: string)
    ensures s == lead + TrimLeft(s) && White(lead)
    ensures TrimLeft(s) != "" ==> TrimLeft(s)[0] !in WHITE_SPACE
  {
    if s != "" && IsSpace(s[0]) {
      var rest := TrimLeftExactly(s[1..]);
      lead := [s[0]] + rest;
      assert s == [s[0]] + s[1..];
    } else {
      lead := "";
    }
  }

  lemma {:induction false} TrimRightExactly(s: string) returns (trail: string)
    ensures s == TrimRight(s) + trail && White(trail)
    ensures TrimRight(s) != "" ==> TrimRight(s)[|TrimRight(s)| - 1] !in WHITE_SPACE
  {
    if s != "" && IsSpace(s[|s| - 1]) {
      var rest := TrimRightExactly(s[..|s| - 1]);
      trail := rest + [s[|s| - 1]];
      assert s == s[..|s| - 1] + [s[|s| - 1]];
    } else {
      trail := "";
    }
  }

  lemma {:induction false} TrimLeftBlank(s: string, rest: string)
    requires Blank(s) && (rest == "" || !IsSpace(rest[0]))
    ensures TrimLeft(s + rest) == rest
  {
    if s == "" {
      assert s + rest == rest;
    } else {
      assert (s + rest)[1..] == s[1..] + rest;
      TrimLeftBlank(s[1..], rest);
    }
  }

  lemma {:induction false} TrimRightBlank(s: string, trail: string)
    requires Blank(trail) && (s == "" || !IsSpace(s[|s| - 1]))
    ensures TrimRight(s + trail) == s
  {
    if trail == "" {
      assert s + trail == s;
    } else {
      assert (s + trail)[..|s + trail| - 1] == s + trail[..|trail| - 1];
      TrimRightBlank(s, trail[..|trail| - 1]);
    }
  }

  /** Whatever white space surrounds it, the value comes back trimmed. */
  lemma ValueRoundTrip(lead: string, value: string, trail: string)
    requires Blank(lead) && Blank(trail) && Trimmed(value)
    ensures TrimRight(TrimLeft(lead + value + trail)) == value
  {
    if value == "" {
      assert lead + value + trail == (lead + trail) + "";
      TrimLeftBlank(lead + trail, "");
    } else {
      assert lead + value + trail == lead + (value + trail);
      TrimLeftBlank(lead, value + trail);
      TrimRightBlank(value, trail);
    }
  }

  lemma TrimExactly(text: string) returns (lead: string, value: string, trail: string)
    ensures value == TrimRight(TrimLeft(text)) && text == lead + value + trail && White(lead) && White(trail)
    ensures value != "" ==> value[0] !in WHITE_SPACE && value[|value| - 1] !in WHITE_SPACE
  {
    lead := TrimLeftExactly(text);
    trail := TrimRightExactly(TrimLeft(text));
    value := TrimRight(TrimLeft(text));
    assert lead + (value + trail) == lead + value + trail;
    assert value != "" ==> value[0] == TrimLeft(text)[0];
  }

  lemma ColonSplits(field: string, text: string)
    requires ':' !in field
    ensures var line := field + ":" + text;
            Index(line, ':') == |field| < |line| && line[..|field|] == field && line[|field| + 1..] == text
  {
    assert field + ":" + text == field + (":" + text);
    IndexUnique(field, ':', ":" + text);
  }

  /** Any header line: what stands before the first colon names the field, and what
      stands behind it, without the white space around, is the value. */
  lemma HeaderLineExactly(r: Request, field: string, text: string, t: int)
    returns (lead: string, value: string, trail: string)
    requires ':' !in field
    ensures text == lead + value + trail && White(lead) && White(trail)
    ensures value != "" ==> value[0] !in WHITE_SPACE && value[|value| - 1] !in WHITE_SPACE
    ensures OneLine(Context(ExpectHeaders, r), field + ":" + text, t) ==
            Line(true, true, Context(ExpectHeaders, r.(headers := r.headers[field := value])))
  {
    lead, value, trail := TrimExactly(text);
    ColonSplits(field, text);
  }

  lemma HeaderRoundTrip(r: Request, h: Header)
    requires WellFormedHeader(h)
    ensures var line := HeaderText(h);
            && Index(line, ':') == |h.field| < |line|
            && AddHeader(r, line, |h.field|) == r.(headers := r.headers[h.field := h.value])
    ensures '\r' !in HeaderText(h)
  {
    var line, text := HeaderText(h), h.lead + h.value + h.trail;
    assert line == h.field + ":" + text;
    ColonSplits(h.field, text);
    ValueRoundTrip(h.lead, h.value, h.trail);
  }

  lemma LineEndAfter(line: string, rest: string)
    requires '\r' !in line
    ensures var buf := line + "\r\n" + rest;
            LineEnd(buf) == |line| < |buf| && buf[..|line|] == line && buf[|line| + 2..] == rest
  {
    var buf := line + "\r\n" + rest;
    assert forall i :: 0 <= i < |line| ==> buf[i] == line[i] && line[i] in line;
    FindPairUnique(buf, '\r', '\n', |line|);
  }

  lemma ParseFirst(ctx: Context, line: string, rest: string, t: int, l: Line)
    requires Parsing(ctx) && '\r' !in line && l == OneLine(ctx, line, t) && l.ok
    ensures l.more ==> ParseRequest(ctx, line + "\r\n" + rest, t) == ParseRequest(l.ctx, rest, t)
    ensures !l.more ==> ParseRequest(ctx, line + "\r\n" + rest, t) == Result(true, l.ctx, rest)
  {
    LineEndAfter(line, rest);
    ParseOneLine(ctx, line + "\r\n" + rest, |line|, line, rest, t);
  }

  lemma HeaderLine(r: Request, h: Header, t: int)
    requires WellFormedHeader(h)
    ensures OneLine(Context(ExpectHeaders, r), HeaderText(h), t) ==
            Line(true, true, Context(ExpectHeaders, r.(headers := r.headers[h.field := h.value])))
  {
    HeaderRoundTrip(r, h);
  }

  lemma HeadersSplit(hs: seq<Header>, more: string)
    requires hs != []
    ensures HeadersText(hs) + more == HeaderText(hs[0]) + "\r\n" + (HeadersText(hs[1..]) + more)
  {
  }

  lemma {:induction false} HeadersRoundTrip(r: Request, hs: seq<Header>, more: string, t: int)
    requires forall i :: 0 <= i < |hs| ==> WellFormedHeader(hs[i])
    ensures ParseRequest(Context(ExpectHeaders, r), HeadersText(hs) + more, t) ==
            Result(true, Context(GotAll, r.(headers := HeaderMap(r.headers, hs))), more)
    decreases |hs|
  {
    var ctx := Context(ExpectHeaders, r);
    if hs == [] {
      assert HeadersText(hs) + more == "" + "\r\n" + more;
      ParseFirst(ctx, "", more, t, OneLine(ctx, "", t));
    } else {
      var r1 := r.(headers := r.headers[hs[0].field := hs[0].value]);
      HeadersSplit(hs, more);
      HeaderRoundTrip(r, hs[0]);
      HeaderLine(r, hs[0], t);
      ParseFirst(ctx, HeaderText(hs[0]), HeadersText(hs[1..]) + more, t, Line(true, true, Context(ExpectHeaders, r1)));
      HeadersRoundTrip(r1, hs[1..], more, t);
    }
  }

  lemma FirstLine(m: Method, path: string, query: string, v: Version, t: int)
    requires m != Invalid && v != Unknown && WellFormedTarget(path, query)
    ensures OneLine(FRESH, RequestLineText(m, path, query, v), t) ==
            Line(true, true, Context(ExpectHeaders, Request(m, v, path, query, t, map[])))
  {
    RequestLineRoundTrip(FRESH.request, m, path, query, v);
  }

  /** A well-formed request line and headers, printed and parsed: method, path, query
      with its question mark, version and trimmed headers come back; what follows stays. */
  lemma PrintedIsParsed(m: Method, path: string, query: string, v: Version, hs: seq<Header>, more: string, t: int)
    requires m != Invalid && v != Unknown && WellFormedTarget(path, query)
    requires forall i :: 0 <= i < |hs| ==> WellFormedHeader(hs[i])
    ensures ParseRequest(FRESH, RequestLineText(m, path, query, v) + "\r\n" + (HeadersText(hs) + more), t) ==
            Result(true, Context(GotAll, Request(m, v, path, query, t, HeaderMap(map[], hs))), more)
  {
    var r := Request(m, v, path, query, t, map[]);
    FirstLine(m, path, query, v, t);
    NoCrInRequestLine(m, path, query, v);
    ParseFirst(FRESH, RequestLineText(m, path, query, v), HeadersText(hs) + more, t,
               Line(true, true, Context(ExpectHeaders, r)));
    HeadersRoundTrip(r, hs, more, t);
  }

  /** Any line without a colon ends the headers, also one that is not empty. */
  lemma LineWithoutColonEnds(r: Request, line: string, more: string, t: int)
    requires ':' !in line && LineEnd(line) == |line|
    ensures ParseRequest(Context(ExpectHeaders, r), line + "\r\n" + more, t) == Result(true, Context(GotAll, r), more)
  {
    var buf := line + "\r\n" + more;
    assert forall i :: 0 <= i < |line| ==> buf[i] == line[i];
    FindPairUnique(buf, '\r', '\n', |line|);
    IndexUnique(line, ':', "");
    assert line + "" == line && buf[..|line|] == line && buf[|line| + 2..] == more;
    ParseOneLine(Context(ExpectHeaders, r), buf, |line|, line, more, t);
  }

  // ----- which text has been read -----

  /** An error is exactly a first line that is not a request line; the text stays. */
  lemma ErrorExactly(ctx: Context, buf: string, t: int)
    requires Parsing(ctx)
    ensures var p, k := ParseRequest(ctx, buf, t), LineEnd(buf);
            && (!p.ok <==> ctx.state == ExpectRequestLine && k < |buf| && !Acceptable(buf[..k]))
            && (!p.ok ==> p.rest == buf && p.ctx.state == ExpectRequestLine)
  {
    var k := LineEnd(buf);
    if ctx.state == ExpectHeaders {
      HeadersDoNotFail(ctx, buf, t);
    } else if k < |buf| {
      RequestLineExactly(ctx.request, buf[..k]);
      ParseOneLine(ctx, buf, k, buf[..k], buf[k + 2..], t);
      var l := OneLine(ctx, buf[..k], t);
      if l.more {
        HeadersDoNotFail(l.ctx, buf[k + 2..], t);
      }
    }
  }

  function LinesText(lines: seq<string>): string {
    if lines == [] then "" else lines[0] + "\r\n" + LinesText(lines[1..])
  }

  /** The lines take the context from one state to the other; a line that ends the
      headers is the last. */
  predicate Reads(ctx: Context, lines: seq<string>, t: int, end: Context)
    decreases |lines|
  {
    if lines == [] then ctx == end
    else if !Parsing(ctx) || LineEnd(lines[0]) < |lines[0]| then false
    else
      var l := OneLine(ctx, lines[0], t);
      l.ok && (if l.more then Reads(l.ctx, lines[1..], t, end) else lines[1..] == [] && l.ctx == end)
  }

  /** The text is the lines read followed by what is left, in which no whole line
      stands unless the headers are over. */
  predicate HasRead(ctx: Context, buf: string, t: int, lines: seq<string>, p: Result) {
    && p.ok && buf == LinesText(lines) + p.rest && Reads(ctx, lines, t, p.ctx)
    && (p.ctx.state == GotAll || LineEnd(p.rest) == |p.rest|)
  }

  lemma LineHasNoEnd(buf: string, k: nat)
    requires k == LineEnd(buf) < |buf|
    ensures LineEnd(buf[..k]) == k && buf == buf[..k] + "\r\n" + buf[k + 2..]
  {
    var line := buf[..k];
    assert forall i :: 0 <= i < |line| ==> line[i] == buf[i];
    assert buf == line + [buf[k], buf[k + 1]] + buf[k + 2..];
  }

  lemma ReadNext(ctx: Context, line: string, rest: string, t: int, lines: seq<string>, p: Result)
    requires Parsing(ctx) && LineEnd(line) == |line| && OneLine(ctx, line, t).more
    requires HasRead(OneLine(ctx, line, t).ctx, rest, t, lines, p)
    ensures HasRead(ctx, line + "\r\n" + rest, t, [line] + lines, p)
  {
    assert ([line] + lines)[1..] == lines;
    assert LinesText([line] + lines) + p.rest == line + "\r\n" + (LinesText(lines) + p.rest);
  }

  lemma ReadLast(ctx: Context, line: string, rest: string, t: int)
    requires Parsing(ctx) && LineEnd(line) == |line|
    requires var l := OneLine(ctx, line, t); l.ok && !l.more
    ensures HasRead(ctx, line + "\r\n" + rest, t, [line], Result(true, OneLine(ctx, line, t).ctx, rest))
  {
    assert [line][1..] == [];
    assert LinesText([line]) == line + "\r\n" + "";
  }

  /** Every call without an error reads whole lines, as far as there are any. */
  lemma {:induction false} ReadsLines(ctx: Context, buf: string, t: int) returns (lines: seq<string>)
    requires Parsing(ctx) && ParseRequest(ctx, buf, t).ok
    ensures HasRead(ctx, buf, t, lines, ParseRequest(ctx, buf, t))
    decreases |buf|
  {
    var k := LineEnd(buf);
    if k == |buf| {
      lines := [];
      assert LinesText(lines) + buf == buf;
    } else {
      var line, rest := buf[..k], buf[k + 2..];
      LineHasNoEnd(buf, k);
      ParseOneLine(ctx, buf, k, line, rest, t);
      var l := OneLine(ctx, line, t);
      if l.more {
        var later := ReadsLines(l.ctx, rest, t);
        ReadNext(ctx, line, rest, t, later, ParseRequest(l.ctx, rest, t));
        lines := [line] + later;
      } else {
        ReadLast(ctx, line, rest, t);
        lines := [line];
      }
    }
  }
}
