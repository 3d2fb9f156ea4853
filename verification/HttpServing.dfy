/**
 netLayer/http/HttpServer.cpp: what onMessage does with one connection. Every message is parsed once; a request that is
 complete is served and the context reset; a request that is bad is answered with 400 and stays in the buffer.
 */
module HttpServing {
  import opened NetworkOrder
  import opened NetBuffers
  import opened HttpSpec

  /** The context and the buffer of a connection, the requests served, and how often 400 was sent. */
  datatype Session = Session(context: Context, buffered: Bytes, served: seq<Request>, rejected: nat)

  const START := Session(FRESH, [], [], 0)

  function OnMessage(x: Session, chunk: Bytes): (r: Session)
    requires x.context.state != GotAll
    ensures r.context.state != GotAll
  {
    var o := Parse(x.context, x.buffered + chunk);
    var rejected := x.rejected + if o.ok then 0 else 1;
    if o.context.state == GotAll
    then Session(FRESH.(failed := o.context.failed), o.rest, x.served + [o.context.request], rejected)
    else Session(o.context, o.rest, x.served, rejected)
  }

  function Serve(x: Session, chunks: seq<Bytes>): (r: Session)
    requires x.context.state != GotAll
    ensures r.context.state != GotAll
  {
    if chunks == [] then x else OnMessage(Serve(x, chunks[..|chunks| - 1]), chunks[|chunks| - 1])
  }

  // ---------------------------------------------------------------- the requests in a stream

  /** A complete request takes up bytes. */
  lemma ParseTakes(c: Context, s: Bytes)
    requires c.state != GotAll
    ensures Parse(c, s).context.state == GotAll ==> |Parse(c, s).rest| < |s|
  {
    hide FindCrlf, AfterLine, ParseHeaders;
    var crlf := FindCrlf(s);
    if c.state == ExpectHeaders {
      EndTakesALine(c, s);
    } else if crlf >= 0 && AfterLine(c, s[..crlf]).state == ExpectHeaders {
      EndTakesALine(AfterLine(c, s[..crlf]), s[crlf + 2..]);
    }
  }

  /** The requests that s completes, one after the other, up to the first bad one. */
  function Requests(c: Context, s: Bytes): seq<Request>
    requires c.state != GotAll
    decreases |s|
  {
    var o := Parse(c, s);
    if o.context.state == GotAll then
      ParseTakes(c, s);
      [o.context.request] + Requests(FRESH, o.rest)
    else []
  }

  lemma {:induction false} HeadersIgnoreFlag(c: Context, failed: bool, s: Bytes)
    ensures ParseHeaders(c.(failed := failed), s) == Flagged(ParseHeaders(c, s), failed)
    decreases |s|
  {
    HeaderStep(c, s);
    HeaderStep(c.(failed := failed), s);
    hide FindCrlf, ParseHeaders, WithHeader, IndexOf;
    var crlf := FindCrlf(s);
    if crlf >= 0 && COLON in s[..crlf] {
      HeadersIgnoreFlag(WithLine(c, s[..crlf]), failed, s[crlf + 2..]);
    }
  }

  /** Whether the assertion has failed makes no difference to the parser. */
  lemma ParseIgnoresFlag(c: Context, failed: bool, s: Bytes)
    requires c.state != GotAll
    ensures var o, f := Parse(c, s), Parse(c.(failed := failed), s);
            f == Flagged(o, f.context.failed)
  {
    hide FindCrlf, ParseHeaders, RequestLine, Trips;
    var crlf := FindCrlf(s);
    if c.state == ExpectHeaders {
      HeadersIgnoreFlag(c, failed, s);
    } else if crlf >= 0 {
      var d := AfterLine(c, s[..crlf]);
      HeadersIgnoreFlag(d, failed || Trips(c.request, s[..crlf]), s[crlf + 2..]);
    }
  }

  lemma RequestsIgnoreFlag(c: Context, failed: bool, s: Bytes)
    requires c.state != GotAll
    ensures Requests(c.(failed := failed), s) == Requests(c, s)
  {
    hide Parse;
    ParseIgnoresFlag(c, failed, s);
  }

  /** Taking a stream up to some point, and going on from there, misses no request. */
  lemma RequestsInPieces(c: Context, s: Bytes, t: Bytes)
    requires c.state != GotAll
    ensures var o := Parse(c, s);
            Requests(c, s + t) == if o.context.state == GotAll then [o.context.request] + Requests(FRESH, o.rest + t)
                                  else Requests(o.context, o.rest + t)
  {
    hide Parse;
    ParseInPieces(c, s, t);
    var o := Parse(c, s);
    if !o.ok {
      FailsAgain(c, s, t);
      StaysAtLine(c, s);
    }
  }

  lemma StaysAtLine(c: Context, s: Bytes)
    requires c.state != GotAll && !Parse(c, s).ok
    ensures Parse(c, s).context.state == ExpectRequestLine
  {
    hide Parse;
    FailsOnLine(c, s);
  }

  /** What has been served, and what the buffer and any more bytes complete, are the requests of the whole stream. */
  lemma {:induction false} InStream(chunks: seq<Bytes>, t: Bytes)
    ensures var x := Serve(START, chunks);
            Requests(FRESH, Concat(chunks) + t) == x.served + Requests(x.context, x.buffered + t)
  {
    hide Requests, Parse;
    if chunks == [] {
      assert [] + t == t && [] + Requests(FRESH, t) == Requests(FRESH, t);
    } else {
      var n := |chunks| - 1;
      var init, last := chunks[..n], chunks[n];
      InStream(init, last + t);
      var x := Serve(START, init);
      assert Concat(chunks) + t == Concat(init) + (last + t);
      assert x.buffered + (last + t) == (x.buffered + last) + t;
      RequestsInPieces(x.context, x.buffered + last, t);
      var o := Parse(x.context, x.buffered + last);
      RequestsIgnoreFlag(FRESH, o.context.failed, o.rest + t);
      assert x.served + ([o.context.request] + Requests(FRESH, o.rest + t))
          == (x.served + [o.context.request]) + Requests(FRESH, o.rest + t);
    }
  }

  /** For any bytes in any messages, requests are served in the order of the stream, none twice and none left out. */
  lemma ServedInOrder(chunks: seq<Bytes>)
    ensures var x := Serve(START, chunks);
            x.served + Requests(x.context, x.buffered) == Requests(FRESH, Concat(chunks))
  {
    hide Requests, Serve;
    InStream(chunks, []);
    assert Concat(chunks) + [] == Concat(chunks);
    var x := Serve(START, chunks);
    assert x.buffered + [] == x.buffered;
  }

  // ---------------------------------------------------------------- how many are served

  /** How many requests the first k messages complete. */
  function Complete(chunks: seq<Bytes>, k: nat): nat
    requires k <= |chunks|
  {
    |Requests(FRESH, Concat(chunks[..k]))|
  }

  function Served(chunks: seq<Bytes>, k: nat): nat
    requires k <= |chunks|
  {
    |Serve(START, chunks[..k]).served|
  }

  /** A message serves one request if one is complete and not served yet, and never two. */
  lemma OneForEachMessage(chunks: seq<Bytes>, k: nat)
    requires k < |chunks|
    ensures var n := Served(chunks, k);
            Served(chunks, k + 1) == if n < Complete(chunks, k + 1) then n + 1 else n
    ensures Served(chunks, k + 1) <= Complete(chunks, k + 1)
  {
    var init, last := chunks[..k], chunks[k];
    assert chunks[..k + 1][..k] == init && chunks[..k + 1][k] == last;
    var x := Serve(START, init);
    assert Concat(chunks[..k + 1]) == Concat(init) + last;
    InStream(init, last);
    ServedInOrder(chunks[..k + 1]);
    assert Serve(START, chunks[..k + 1]) == OnMessage(x, last);
    assert Requests(x.context, x.buffered + last) != [] <==>
           Parse(x.context, x.buffered + last).context.state == GotAll;
    hide Requests, Parse, Concat, Serve;
  }

  lemma NoneAtFirst(chunks: seq<Bytes>)
    ensures Served(chunks, 0) == 0 && Complete(chunks, 0) == 0
  {
    assert chunks[..0] == [];
    ParseNothing();
  }

  /** Since some message, each has served one; and since none could each have served more than that. */
  lemma {:induction false} ServedExactly(chunks: seq<Bytes>, n: nat)
    requires n <= |chunks|
    ensures exists k :: 0 <= k <= n && Served(chunks, n) == Complete(chunks, k) + (n - k)
    ensures forall k :: 0 <= k <= n ==> Served(chunks, n) <= Complete(chunks, k) + (n - k)
  {
    hide Served, Complete;
    if n == 0 {
      NoneAtFirst(chunks);
      assert Served(chunks, 0) == Complete(chunks, 0) + (0 - 0);
    } else {
      ServedExactly(chunks, n - 1);
      OneForEachMessage(chunks, n - 1);
      var k :| 0 <= k <= n - 1 && Served(chunks, n - 1) == Complete(chunks, k) + (n - 1 - k);
      if Served(chunks, n) == Complete(chunks, n) {
        assert Served(chunks, n) == Complete(chunks, n) + (n - n);
      } else {
        assert Served(chunks, n) == Complete(chunks, k) + (n - k);
      }
    }
  }

  /**
   All the requests that the messages complete are served, with none left in the buffer, if and only if after no message
   the rest of them complete more requests than they are.
   */
  lemma AllServedExactly(chunks: seq<Bytes>)
    ensures var n := |chunks|;
            Served(chunks, n) == Complete(chunks, n) <==>
            forall k :: 0 <= k <= n ==> Complete(chunks, n) - Complete(chunks, k) <= n - k
  {
    hide Served, Complete;
    ServedExactly(chunks, |chunks|);
    if chunks == [] {
      NoneAtFirst(chunks);
    } else {
      OneForEachMessage(chunks, |chunks| - 1);
    }
  }

  // ---------------------------------------------------------------- well-formed requests

  datatype Written = Written(verb: Method, path: Bytes, query: Bytes, version: Version, headers: seq<Header>)

  predicate WellFormed(w: Written) {
    && w.verb != Invalid && w.version != Unknown && IsTarget(w.path, w.query)
    && forall i :: 0 <= i < |w.headers| ==> IsHeader(w.headers[i])
  }

  function Text(w: Written): Bytes {
    Render(w.verb, w.path, w.query, w.version, w.headers)
  }

  function Meaning(w: Written): Request {
    Request(w.verb, w.version, w.path, w.query, HeadersOf(map[], w.headers))
  }

  function Texts(ws: seq<Written>): Bytes {
    if ws == [] then [] else Text(ws[0]) + Texts(ws[1..])
  }

  function Meanings(ws: seq<Written>): seq<Request> {
    if ws == [] then [] else [Meaning(ws[0])] + Meanings(ws[1..])
  }

  lemma WholeText(w: Written, t: Bytes)
    requires WellFormed(w)
    ensures Parse(FRESH, Text(w) + t) == Outcome(Context(GotAll, Meaning(w), false), t, true)
  {
    hide Parse, Render, HeadersOf;
    WholeRequest(w.verb, w.path, w.query, w.version, w.headers, t);
  }

  lemma FirstRequest(w: Written, t: Bytes)
    requires WellFormed(w)
    ensures Requests(FRESH, Text(w) + t) == [Meaning(w)] + Requests(FRESH, t)
  {
    hide Parse, Text, Meaning, WellFormed;
    WholeText(w, t);
  }

  /** A stream of well-formed requests has just those. */
  lemma {:induction false} RequestsAreMeanings(ws: seq<Written>)
    requires forall i :: 0 <= i < |ws| ==> WellFormed(ws[i])
    ensures Requests(FRESH, Texts(ws)) == Meanings(ws)
  {
    hide WellFormed, Text, Meaning, Requests;
    if ws == [] {
      NoRequests();
    } else {
      RequestsAreMeanings(ws[1..]);
      FirstRequest(ws[0], Texts(ws[1..]));
    }
  }

  /** So, in any messages, they are what is served, in order, up to those that still wait in the buffer. */
  lemma ServesMeanings(ws: seq<Written>, chunks: seq<Bytes>)
    requires forall i :: 0 <= i < |ws| ==> WellFormed(ws[i])
    requires Concat(chunks) == Texts(ws)
    ensures var x := Serve(START, chunks);
            x.served + Requests(x.context, x.buffered) == Meanings(ws)
  {
    hide Requests, Serve, WellFormed, Texts, Meanings;
    RequestsAreMeanings(ws);
    ServedInOrder(chunks);
  }

  lemma NoRequests()
    ensures Requests(FRESH, []) == []
  {
    ParseNothing();
  }

  /** Two whole requests in one message: one is served, and the other waits for another message. */
  lemma TwoInOneMessage(a: Written, b: Written)
    requires WellFormed(a) && WellFormed(b)
    ensures var x := Serve(START, [Text(a) + Text(b)]);
            x.served == [Meaning(a)] && Requests(x.context, x.buffered) == [Meaning(b)]
  {
    hide Parse, Text, Meaning, WellFormed, Requests, Serve;
    var m := Text(a) + Text(b);
    WholeText(a, Text(b));
    assert START.buffered + m == m;
    ServeOne(m);
    FirstRequest(b, []);
    assert Text(b) + [] == Text(b);
    NoRequests();
  }

  // ---------------------------------------------------------------- the assertion of setMethod

  /** A request line is expected although a method is set. */
  predicate MethodIsSet(c: Context) {
    c.state == ExpectRequestLine && c.request.verb != Invalid
  }

  /** That is so only after a bad line with a space in it, which is still there. */
  predicate Valid(x: Session) {
    && x.context.state != GotAll
    && (MethodIsSet(x.context) ==>
          FindCrlf(x.buffered) >= 0 && SPACE in x.buffered[..FindCrlf(x.buffered)])
  }

  lemma TripsExactly(c: Context, s: Bytes, t: Bytes)
    requires c.state == ExpectRequestLine
    requires c.request.verb != Invalid ==> FindCrlf(s) >= 0 && SPACE in s[..FindCrlf(s)]
    ensures FindCrlf(s + t) >= 0 ==> (Trips(c.request, (s + t)[..FindCrlf(s + t)]) <==> c.request.verb != Invalid)
    ensures FindCrlf(s + t) < 0 ==> c.request.verb == Invalid
  {
    if c.request.verb != Invalid {
      SplitAtLine(s, t);
      FoundExactly(s[..FindCrlf(s)], SPACE);
    }
    hide FindCrlf, IndexOf;
  }

  lemma AfterLineIs(c: Context, line: Bytes)
    ensures var d := AfterLine(c, line);
            && d.failed == (c.failed || Trips(c.request, line))
            && d.request.verb == if SPACE in line then MethodOf(line[..IndexOf(line, SPACE)]) else c.request.verb
  {
    FoundExactly(line, SPACE);
    LineSetsMethod(c.request, line);
    hide RequestLine, IndexOf;
  }

  lemma NamesExactly(s: Bytes)
    requires FindCrlf(s) >= 0
    ensures var line := s[..FindCrlf(s)];
            NamesMethod(s) <==> SPACE in line && MethodOf(line[..IndexOf(line, SPACE)]) != Invalid
  {
    FoundExactly(s[..FindCrlf(s)], SPACE);
    hide FindCrlf, IndexOf;
  }

  /** What a message does where a request line is expected. */
  lemma AtRequestLine(x: Session, chunk: Bytes)
    requires Valid(x) && x.context.state == ExpectRequestLine
    ensures var r := OnMessage(x, chunk);
            && Valid(r) && (r.context.failed <==> x.context.failed || MethodIsSet(x.context))
            && (MethodIsSet(r.context) <==>
                  !Parse(x.context, x.buffered + chunk).ok && NamesMethod(x.buffered + chunk))
  {
    var s, c := x.buffered + chunk, x.context;
    TripsExactly(c, x.buffered, chunk);
    if FindCrlf(s) >= 0 {
      AtCompleteLine(x, s);
    }
    hide ParseHeaders, FindCrlf, AfterLine, Trips, IndexOf;
  }

  lemma AtCompleteLine(x: Session, s: Bytes)
    requires x.context.state == ExpectRequestLine && FindCrlf(s) >= 0
    requires Trips(x.context.request, s[..FindCrlf(s)]) <==> x.context.request.verb != Invalid
    ensures var o := Parse(x.context, s);
            && o.context.failed == (x.context.failed || MethodIsSet(x.context))
            && (!o.ok ==> o.rest == s && o.context.state == ExpectRequestLine)
            && (o.ok ==> o.context.state != ExpectRequestLine)
            && (!o.ok && o.context.request.verb != Invalid <==> !o.ok && NamesMethod(s))
            && (NamesMethod(s) ==> SPACE in s[..FindCrlf(s)])
  {
    var c, crlf := x.context, FindCrlf(s);
    var line := s[..crlf];
    AfterLineIs(c, line);
    NamesExactly(s);
    if Trips(c.request, line) {
      FoundExactly(line, SPACE);
    }
    HeadersAreSafe(AfterLine(c, line), s[crlf + 2..]);
    hide ParseHeaders, FindCrlf, AfterLine, Trips, IndexOf, NamesMethod;
  }

  /** And where header lines are. */
  lemma AtHeaders(x: Session, chunk: Bytes)
    requires x.context.state == ExpectHeaders
    ensures var r := OnMessage(x, chunk);
            && Valid(r) && r.context.failed == x.context.failed && !MethodIsSet(r.context)
            && Parse(x.context, x.buffered + chunk).ok
  {
    HeadersAreSafe(x.context, x.buffered + chunk);
    hide ParseHeaders, FindCrlf;
  }

  /** A message fails the assertion if and only if it finds a method set where a request line is expected. */
  lemma MessageFailsExactly(x: Session, chunk: Bytes)
    requires Valid(x)
    ensures Valid(OnMessage(x, chunk))
    ensures OnMessage(x, chunk).context.failed <==> x.context.failed || MethodIsSet(x.context)
  {
    if x.context.state == ExpectHeaders {
      AtHeaders(x, chunk);
    } else {
      AtRequestLine(x, chunk);
    }
    hide OnMessage;
  }

  lemma HeadersAreSafe(c: Context, s: Bytes)
    ensures c.state == ExpectHeaders ==>
              var o := ParseHeaders(c, s); o.ok && o.context.failed == c.failed && o.context.state != ExpectRequestLine
  {
    if c.state == ExpectHeaders {
      HeadersInPieces(c, s, []);
    }
  }

  /** Over any bytes in any messages, the assertion fails if and only if a message comes when a method is set. */
  lemma {:induction false} FailsExactly(chunks: seq<Bytes>)
    ensures Valid(Serve(START, chunks))
    ensures Serve(START, chunks).context.failed <==>
            exists k :: 0 <= k < |chunks| && MethodIsSet(Serve(START, chunks[..k]).context)
  {
    hide OnMessage, Valid, MethodIsSet;
    if chunks == [] {
      StartIsValid();
    } else {
      var n := |chunks| - 1;
      FailsExactly(chunks[..n]);
      MessageFailsExactly(Serve(START, chunks[..n]), chunks[n]);
      assert forall k :: 0 <= k <= n ==> chunks[..n][..k] == chunks[..k];
    }
  }

  lemma StartIsValid()
    ensures Valid(START) && !START.context.failed
  {
  }

  /** 400 is sent for a message exactly if a request line is expected and the first line in the buffer is a bad one. */
  lemma RejectsExactly(x: Session, chunk: Bytes)
    requires x.context.state != GotAll
    ensures var s := x.buffered + chunk;
            OnMessage(x, chunk).rejected == x.rejected +
              if x.context.state == ExpectRequestLine && FindCrlf(s) >= 0
                 && !RequestLine(x.context.request, s[..FindCrlf(s)]).1
              then 1 else 0
  {
    ParsesExactly(x.context, x.buffered + chunk);
    hide Parse, FindCrlf, RequestLine;
  }

  lemma ParsesExactly(c: Context, s: Bytes)
    requires c.state != GotAll
    ensures !Parse(c, s).ok <==>
            c.state == ExpectRequestLine && FindCrlf(s) >= 0 && !RequestLine(c.request, s[..FindCrlf(s)]).1
  {
    if !Parse(c, s).ok {
      FailsOnLine(c, s);
      hide Parse, FindCrlf, RequestLine;
    } else if c.state == ExpectRequestLine && FindCrlf(s) >= 0 {
      GoodLine(c, s);
      hide Parse, FindCrlf, RequestLine;
    }
  }

  lemma GoodLine(c: Context, s: Bytes)
    requires c.state == ExpectRequestLine && FindCrlf(s) >= 0 && Parse(c, s).ok
    ensures RequestLine(c.request, s[..FindCrlf(s)]).1
  {
    hide ParseHeaders, FindCrlf, RequestLine, Trips;
  }

  /** A message leaves a method set if and only if it is rejected for what follows one. */
  lemma SetExactly(x: Session, chunk: Bytes)
    requires Valid(x)
    ensures MethodIsSet(OnMessage(x, chunk).context) <==>
            !Parse(x.context, x.buffered + chunk).ok && NamesMethod(x.buffered + chunk)
  {
    if x.context.state == ExpectHeaders {
      AtHeaders(x, chunk);
    } else {
      AtRequestLine(x, chunk);
    }
    hide OnMessage, Parse, NamesMethod;
  }

  /** For instance a good request, a request for an unknown version, and one more message: the third one aborts. */
  lemma LaterBadVersionAborts(w: Written, m: Method, target: Bytes, version: Bytes, t: Bytes)
    requires WellFormed(w)
    requires m != Invalid && SPACE !in target && CR !in target && CR !in version && VersionOf(version) == Unknown
    ensures var bad := MethodText(m) + [SPACE] + (target + [SPACE] + version) + [CR, LF];
            var x := Serve(START, [Text(w), bad, t]);
            x.served == [Meaning(w)] && x.context.failed && !Serve(START, [Text(w), bad]).context.failed
  {
    var bad := MethodText(m) + [SPACE] + (target + [SPACE] + version) + [CR, LF];
    WholeText(w, []);
    assert Text(w) + [] == Text(w);
    BadVersionAborts(m, target, version, t);
    hide Parse, Resume, Text, MethodText, VersionOf, WellFormed, Meaning;
    GoodThenBad(Text(w), Meaning(w), bad, t);
  }

  lemma GoodThenBad(good: Bytes, request: Request, bad: Bytes, t: Bytes)
    requires Parse(FRESH, good) == Outcome(Context(GotAll, request, false), [], true)
    requires !Parse(FRESH, bad).ok && Resume(Parse(FRESH, bad), t).context.failed
    ensures var x := Serve(START, [good, bad, t]);
            x.served == [request] && x.context.failed && !Serve(START, [good, bad]).context.failed
  {
    ServeThree(good, bad, t);
    hide Parse, Resume, Serve;
    assert START.buffered + good == good;
    assert OnMessage(START, good) == Session(FRESH, [], [request], 0);
    BadTwice(Session(FRESH, [], [request], 0), bad, t);
  }

  lemma BadTwice(x: Session, bad: Bytes, t: Bytes)
    requires x.context == FRESH && x.buffered == []
    requires !Parse(FRESH, bad).ok && Resume(Parse(FRESH, bad), t).context.failed
    ensures var y := OnMessage(x, bad);
            && !y.context.failed && y.context.state != GotAll && y.served == x.served
            && OnMessage(y, t).context.failed && OnMessage(y, t).served == x.served
  {
    FirstCallPasses(bad);
    StaysAtLine(FRESH, bad);
    FailsAgain(FRESH, bad, t);
    hide Parse, Trips;
    assert x.buffered + bad == bad;
  }

  lemma ServeOne(a: Bytes)
    ensures Serve(START, [a]) == OnMessage(START, a)
  {
    hide OnMessage;
    assert [a][..0] == [];
  }

  lemma ServeThree(a: Bytes, b: Bytes, c: Bytes)
    ensures Serve(START, [a, b]) == OnMessage(OnMessage(START, a), b)
    ensures Serve(START, [a, b, c]) == OnMessage(OnMessage(OnMessage(START, a), b), c)
  {
    hide OnMessage;
    assert [a, b, c][..2] == [a, b] && [a, b][..1] == [a] && [a][..0] == [];
    assert Serve(START, [a]) == OnMessage(START, a);
    assert Serve(START, [a, b]) == OnMessage(OnMessage(START, a), b);
  }
}
