/** net/http/HttpContext.cc and the setters of net/http/HttpRequest.h, updating their
    fields, against the functions of Https. */
module HttpContextClass {
  import opened Seqs
  import opened Https
  import Spec = Https

  lemma {:induction false} TrimLeftFrom(s: string, k: nat)
    requires k <= |s| && forall i :: 0 <= i < k ==> IsSpace(s[i])
    requires k < |s| ==> !IsSpace(s[k])
    ensures TrimLeft(s) == s[k..]
    decreases k
  {
    if k > 0 {
      TrimLeftFrom(s[1..], k - 1);
      assert s[1..][k - 1..] == s[k..];
    }
  }

  class HttpContext {
    var state: State
    var request: Request

    ghost function Model(): Context
      reads this
    {
      Context(state, request)
    }

    constructor ()
      ensures Model() == FRESH
    {
      state := ExpectRequestLine;
      request := Request(Invalid, Unknown, "", "", 0, map[]);
    }

    method Reset()
      modifies this
      ensures Model() == FRESH
    {
      state := ExpectRequestLine;
      request := Request(Invalid, Unknown, "", "", 0, map[]);
    }

    method SetMethod(m: string) returns (known: bool)
      requires request.verb == Invalid
      modifies this`request
      ensures request == old(request).(verb := MethodOf(m)) && (known <==> m in METHODS)
      ensures if known then MethodText(request.verb) == m else request.verb == Invalid
    {
      MethodExactly(m);
      if m == "GET" {
        request := request.(verb := Get);
      } else if m == "POST" {
        request := request.(verb := Post);
      } else if m == "HEAD" {
        request := request.(verb := Head);
      } else if m == "PUT" {
        request := request.(verb := Put);
      } else if m == "DELETE" {
        request := request.(verb := Delete);
      } else {
        request := request.(verb := Invalid);
      }
      known := request.verb != Invalid;
    }

    /** The two trimming loops. */
    method AddHeader(line: string, colon: nat)
      requires colon < |line|
      modifies this`request
      ensures request == Spec.AddHeader(old(request), line, colon)
    {
      var field := line[..colon];
      var text := line[colon + 1..];
      var start := 0;
      while start < |text| && IsSpace(text[start])
        invariant start <= |text|
        invariant forall i :: 0 <= i < start ==> IsSpace(text[i])
      {
        start := start + 1;
      }
      TrimLeftFrom(text, start);
      var value := text[start..];
      while |value| > 0 && IsSpace(value[|value| - 1])
        invariant TrimRight(value) == TrimRight(text[start..])
        decreases |value|
      {
        value := value[..|value| - 1];
      }
      request := request.(headers := request.headers[field := value]);
    }

    method SetTarget(target: string)
      modifies this`request
      ensures request == WithTarget(old(request), target)
    {
      var question := Index(target, '?');
      if question != |target| {
        request := request.(path := target[..question]);
        request := request.(query := target[question..]);
      } else {
        request := request.(path := target);
      }
    }

    method ProcessRequestLine(line: string) returns (succeed: bool)
      requires request.verb == Invalid
      modifies this`request
      ensures (succeed, request) == RequestLine(old(request), line)
    {
      succeed := false;
      var space := Index(line, ' ');
      if space != |line| {
        var known := SetMethod(line[..space]);
        if known {
          var rest := line[space + 1..];
          space := Index(rest, ' ');
          if space != |rest| {
            SetTarget(rest[..space]);
            var version := rest[space + 1..];
            succeed := |version| == 8 && version[..7] == "HTTP/1.";
            if succeed {
              if version[7] == '1' {
                request := request.(version := Http11);
              } else if version[7] == '0' {
                request := request.(version := Http10);
              } else {
                succeed := false;
              }
            }
          }
        }
      }
    }

    /** One turn of parseRequest's loop. */
    method Turn(buf: string, receiveTime: int) returns (ok: bool, hasMore: bool, rest: string)
      requires Parsing(Model()) && MethodUnset(Model())
      modifies this
      ensures hasMore ==> ok && Parsing(Model()) && MethodUnset(Model()) && |rest| < |buf|
      ensures hasMore ==>
                Spec.ParseRequest(Model(), rest, receiveTime) == Spec.ParseRequest(old(Model()), buf, receiveTime)
      ensures !hasMore ==> Result(ok, Model(), rest) == Spec.ParseRequest(old(Model()), buf, receiveTime)
    {
      ok, hasMore, rest := true, false, buf;
      var crlf := LineEnd(buf);
      if crlf != |buf| {
        ok, hasMore := TakeLine(buf[..crlf], receiveTime);
        if ok {
          rest := buf[crlf + 2..];
        }
      }
    }

    /** buf holds the readable characters of the buffer; rest is what stays in it. */
    method ParseRequest(buf: string, receiveTime: int) returns (ok: bool, rest: string)
      requires Parsing(Model()) && MethodUnset(Model())
      modifies this
      ensures Result(ok, Model(), rest) == Spec.ParseRequest(old(Model()), buf, receiveTime)
    {
      ok, rest := true, buf;
      ghost var end := Spec.ParseRequest(Model(), buf, receiveTime);
      var hasMore := true;
      while hasMore
        invariant hasMore ==> Parsing(Model()) && MethodUnset(Model())
        invariant hasMore ==> Spec.ParseRequest(Model(), rest, receiveTime) == end
        invariant !hasMore ==> Result(ok, Model(), rest) == end
        decreases hasMore, |rest|
      {
        ok, hasMore, rest := Turn(rest, receiveTime);
      }
    }

    /** One line, in the state the context is in. */
    method TakeLine(line: string, receiveTime: int) returns (ok: bool, hasMore: bool)
      requires Parsing(Model()) && MethodUnset(Model())
      modifies this
      ensures Line(hasMore, ok, Model()) == OneLine(old(Model()), line, receiveTime)
      ensures hasMore ==> MethodUnset(Model())
    {
      ok, hasMore := true, true;
      if state == ExpectRequestLine {
        ok := ProcessRequestLine(line);
        if ok {
          request := request.(receiveTime := receiveTime);
          state := ExpectHeaders;
        } else {
          hasMore := false;
        }
      } else {
        var colon := Index(line, ':');
        if colon != |line| {
          AddHeader(line, colon);
        } else {
          state := GotAll;
          hasMore := false;
        }
      }
    }
  }
}
