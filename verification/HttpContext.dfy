/**
 netLayer/http/HttpContext.cpp and netLayer/http/HttpRequest.h in their own form: an object that fills its
 request line by line as it consumes a buffer, proved equal to HttpSpec.
 */
module HttpContexts {
  import opened NetworkOrder
  import opened NetBuffers
  import opened HttpSpec
  import HttpServing

  class HttpContext {
    var state: ParseState
    var request: Request
    ghost var failed: bool

    ghost function View(): Context
      reads this
    {
      Context(state, request, failed)
    }

    constructor ()
      ensures View() == FRESH
    {
      state, request, failed := ExpectRequestLine, EMPTY, false;
    }

    method Reset()
      modifies this`state, this`request
      ensures View() == FRESH.(failed := failed)
    {
      state, request := ExpectRequestLine, EMPTY;
    }

    // -------------------------------------------------------------- HttpRequest

    /** The assertion that no method has been set is recorded, so that a run can be followed past it. */
    method SetMethod(m: Bytes) returns (valid: bool)
      modifies this`request, this`failed
      ensures request == old(request).(verb := MethodOf(m))
      ensures failed == (old(failed) || old(request).verb != Invalid)
      ensures valid == (request.verb != Invalid)
    {
      failed := failed || request.verb != Invalid;
      if m == Ascii("GET") {
        request := request.(verb := Get);
      } else if m == Ascii("POST") {
        request := request.(verb := Post);
      } else if m == Ascii("HEAD") {
        request := request.(verb := Head);
      } else if m == Ascii("PUT") {
        request := request.(verb := Put);
      } else if m == Ascii("DELETE") {
        request := request.(verb := Delete);
      } else {
        request := request.(verb := Invalid);
      }
      valid := request.verb != Invalid;
    }

    method AddHeader(line: Bytes, colon: nat)
      requires colon < |line|
      modifies this`request
      ensures request == WithHeader(old(request), line[..colon], line[colon + 1..])
    {
      var field := line[..colon];
      var start := colon + 1;
      while start < |line| && IsSpace(line[start])
        invariant colon < start <= |line|
        invariant TrimLeft(line[start..]) == TrimLeft(line[colon + 1..])
      {
        assert line[start..][1..] == line[start + 1..];
        start := start + 1;
      }
      var value := line[start..];
      ghost var trimmed := value;
      while value != [] && IsSpace(value[|value| - 1])
        invariant TrimRight(value) == TrimRight(trimmed)
      {
        value := value[..|value| - 1];
      }
      request := request.(headers := request.headers[field := value]);
    }

    // -------------------------------------------------------------- HttpContext

    method ProcessRequestLine(line: Bytes) returns (succeed: bool)
      modifies this`request, this`failed
      ensures (request, succeed) == RequestLine(old(request), line)
      ensures failed == (old(failed) || Trips(old(request), line))
    {
      hide MethodOf, WithTarget, VersionOf, IndexOf;
      succeed := false;
      var space := IndexOf(line, SPACE);
      if space != |line| {
        var valid := SetMethod(line[..space]);
        if valid {
          var rest := line[space + 1..];
          space := IndexOf(rest, SPACE);
          if space != |rest| {
            SetTarget(rest[..space]);
            succeed := SetVersion(rest[space + 1..]);
          }
        }
      }
    }

    /** A target with a question mark is cut before it. */
    method SetTarget(target: Bytes)
      modifies this`request
      ensures request == WithTarget(old(request), target)
    {
      var question := IndexOf(target, QUESTION);
      if question != |target| {
        request := request.(path := target[..question]);
        request := request.(query := target[question..]);
      } else {
        request := request.(path := target);
      }
    }

    method SetVersion(version: Bytes) returns (succeed: bool)
      modifies this`request
      ensures succeed == (VersionOf(version) != Unknown)
      ensures request == if succeed then old(request).(version := VersionOf(version)) else old(request)
    {
      SevenAndOne(version);
      hide VersionOf;
      succeed := |version| == 8 && version[..7] == Ascii("HTTP/1.");
      if succeed {
        if version[7] == 49 {
          request := request.(version := Http11);
        } else if version[7] == 48 {
          request := request.(version := Http10);
        } else {
          succeed := false;
        }
      }
    }

    method ParseRequest(buf: Buffer) returns (ok: bool)
      requires buf.Valid() && state != GotAll
      modifies this, buf
      ensures buf.Valid()
      ensures Outcome(View(), buf.Contents(), ok) == Parse(old(View()), old(buf.Contents()))
    {
      hide Parse;
      ok := true;
      var hasMore := true;
      while hasMore
        invariant buf.Valid()
        invariant hasMore ==> ok && state != GotAll
        invariant hasMore ==> Parse(View(), buf.Contents()) == Parse(old(View()), old(buf.Contents()))
        invariant !hasMore ==> Outcome(View(), buf.Contents(), ok) == Parse(old(View()), old(buf.Contents()))
        decreases hasMore, buf.ReadableBytes()
      {
        ok, hasMore := ParseLine(buf);
      }
    }

    /** One round of the loop of parseRequest. */
    method ParseLine(buf: Buffer) returns (ok: bool, hasMore: bool)
      requires buf.Valid() && state != GotAll
      modifies this, buf
      ensures buf.Valid()
      ensures hasMore ==> ok && state != GotAll && buf.ReadableBytes() < old(buf.ReadableBytes())
      ensures hasMore ==> Parse(View(), buf.Contents()) == Parse(old(View()), old(buf.Contents()))
      ensures !hasMore ==> Outcome(View(), buf.Contents(), ok) == Parse(old(View()), old(buf.Contents()))
    {
      ParseStep(View(), buf.Contents());
      hide Parse, FindCrlf, AfterLine, WithLine;
      ok, hasMore := true, true;
      var crlf := buf.FindCRLF();
      if crlf < 0 {
        hasMore := false;
      } else {
        var line := LineOf(buf, crlf);
        if state == ExpectRequestLine {
          ok := TakeRequestLine(line);
          if ok {
            buf.Retrieve(crlf + 2);
          } else {
            hasMore := false;
          }
        } else {
          hasMore := TakeHeaderLine(line);
          buf.Retrieve(crlf + 2);
        }
      }
    }

    /** The bytes from peek() up to the line end. */
    method LineOf(buf: Buffer, crlf: nat) returns (line: Bytes)
      requires buf.Valid() && crlf <= |buf.Contents()|
      ensures line == buf.Contents()[..crlf]
    {
      line := buf.data[buf.reader..buf.reader + crlf];
    }

    method TakeRequestLine(line: Bytes) returns (ok: bool)
      requires state == ExpectRequestLine
      modifies this
      ensures View() == AfterLine(old(View()), line) && (ok <==> state == ExpectHeaders)
    {
      hide RequestLine, Trips;
      ok := ProcessRequestLine(line);
      if ok {
        state := ExpectHeaders;
      }
    }

    method TakeHeaderLine(line: Bytes) returns (hasMore: bool)
      requires state == ExpectHeaders
      modifies this
      ensures hasMore <==> COLON in line
      ensures View() == if COLON in line then WithLine(old(View()), line) else old(View()).(state := GotAll)
    {
      FoundExactly(line, COLON);
      hide WithHeader;
      hasMore := true;
      var colon := IndexOf(line, COLON);
      if colon != |line| {
        AddHeader(line, colon);
      } else {
        state := GotAll;
        hasMore := false;
      }
    }
  }

  /** One connection of HttpServer: its context, its buffer, and what has been answered. */
  class HttpConnection {
    const context: HttpContext
    const buf: Buffer
    var served: seq<Request>
    var rejected: nat

    ghost predicate Valid()
      reads this, context, buf
    {
      buf.Valid() && context.state != GotAll
    }

    ghost function View(): HttpServing.Session
      requires Valid()
      reads this, context, buf
    {
      HttpServing.Session(context.View(), buf.Contents(), served, rejected)
    }

    constructor ()
      ensures Valid() && View() == HttpServing.START && fresh(context) && fresh(buf)
    {
      context := new HttpContext();
      buf := new Buffer(INITIAL_SIZE);
      served, rejected := [], 0;
    }

    /** onMessage, once the chunk has been read into the buffer. */
    method OnMessage(chunk: Bytes)
      requires Valid()
      modifies this, context, buf
      ensures Valid() && View() == HttpServing.OnMessage(old(View()), chunk)
    {
      hide Parse;
      buf.Append(chunk);
      var ok := context.ParseRequest(buf);
      if !ok {
        rejected := rejected + 1;
      }
      if context.state == GotAll {
        served := served + [context.request];
        context.Reset();
      }
    }
  }

  /** Comparing seven characters and then one is comparing with the two accepted versions. */
  lemma SevenAndOne(v: Bytes)
    ensures VersionOf(v) == if |v| == 8 && v[..7] == Ascii("HTTP/1.") then
                              if v[7] == 49 then Http11 else if v[7] == 48 then Http10 else Unknown
                            else Unknown
  {
    var one, zero, prefix := Ascii("HTTP/1.1"), Ascii("HTTP/1.0"), Ascii("HTTP/1.");
    assert one == prefix + [49] && zero == prefix + [48];
    if |v| == 8 {
      assert v == v[..7] + [v[7]];
    }
  }
}
