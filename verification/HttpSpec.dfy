/**
 The HTTP request head that netLayer/http/HttpContext.cpp parses (sections 3.1.1 and 3.2 of RFC 7230), as
 functions on byte sequences, and the proof that cutting it up changes nothing.
 */
module HttpSpec {
  import opened NetworkOrder
  import opened NetBuffers

  const SPACE: Byte := 32
  const COLON: Byte := 58
  const QUESTION: Byte := 63

  datatype Method = Invalid | Get | Post | Head | Put | Delete
  datatype Version = Unknown | Http10 | Http11
  datatype Request = Request(verb: Method, version: Version, path: Bytes, query: Bytes, headers: map<Bytes, Bytes>)

  /** kExpectBody is never entered by the code. */
  datatype ParseState = ExpectRequestLine | ExpectHeaders | GotAll

  /** failed records that the assertion of setMethod did not hold; it changes nothing else. */
  datatype Context = Context(state: ParseState, request: Request, failed: bool)

  const EMPTY := Request(Invalid, Unknown, [], [], map[])
  const FRESH := Context(ExpectRequestLine, EMPTY, false)

  // ---------------------------------------------------------------- the request line

  /** std::find: the first position of b, or the end. */
  function IndexOf(s: Bytes, b: Byte): (i: nat)
    ensures i <= |s|
    ensures i < |s| ==> s[i] == b
    ensures forall j :: 0 <= j < i ==> s[j] != b
  {
    if s == [] || s[0] == b then 0 else 1 + IndexOf(s[1..], b)
  }

  function MethodOf(m: Bytes): Method {
    if m == Ascii("GET") then Get
    else if m == Ascii("POST") then Post
    else if m == Ascii("HEAD") then Head
    else if m == Ascii("PUT") then Put
    else if m == Ascii("DELETE") then Delete
    else Invalid
  }

  function VersionOf(v: Bytes): Version {
    if v == Ascii("HTTP/1.1") then Http11
    else if v == Ascii("HTTP/1.0") then Http10
    else Unknown
  }

  /** The target up to the question mark, and from it. */
  function WithTarget(r: Request, target: Bytes): Request {
    var q := IndexOf(target, QUESTION);
    if q < |target| then r.(path := target[..q], query := target[q..]) else r.(path := target)
  }

  /** processRequestLine: the fields it sets before it fails stay set. */
  function RequestLine(r: Request, line: Bytes): (Request, bool) {
    var a := IndexOf(line, SPACE);
    if a == |line| then (r, false)
    else
      var r1 := r.(verb := MethodOf(line[..a]));
      if r1.verb == Invalid then (r1, false)
      else
        var rest := line[a + 1..];
        var b := IndexOf(rest, SPACE);
        if b == |rest| then (r1, false)
        else
          var r2 := WithTarget(r1, rest[..b]);
          var v := VersionOf(rest[b + 1..]);
          if v == Unknown then (r2, false) else (r2.(version := v), true)
  }

  /** setMethod asserts that no method has been set, and is called for a line with a space in it. */
  predicate Trips(r: Request, line: Bytes) {
    IndexOf(line, SPACE) < |line| && r.verb != Invalid
  }

  // ---------------------------------------------------------------- header lines

  predicate IsSpace(b: Byte) {
    b == 32 || 9 <= b <= 13
  }

  function TrimLeft(s: Bytes): Bytes {
    if s != [] && IsSpace(s[0]) then TrimLeft(s[1..]) else s
  }

  function TrimRight(s: Bytes): Bytes {
    if s != [] && IsSpace(s[|s| - 1]) then TrimRight(s[..|s| - 1]) else s
  }

  /** The bytes that isspace accepts: tab, line feed, vertical tab, form feed, carriage return and space. */
  predicate AllBlank(s: Bytes) {
    forall i :: 0 <= i < |s| ==> s[i] in {9, 10, 11, 12, 13, 32}
  }

  /** Neither begins nor ends with white space. */
  predicate IsTrimmed(s: Bytes) {
    s == [] || (s[0] !in {9, 10, 11, 12, 13, 32} && s[|s| - 1] !in {9, 10, 11, 12, 13, 32})
  }

  /** How many bytes are taken off on the left. */
  lemma {:induction false} TrimLeftTakes(s: Bytes) returns (k: nat)
    ensures k <= |s| && TrimLeft(s) == s[k..]
    ensures forall i :: 0 <= i < k ==> s[i] in {9, 10, 11, 12, 13, 32}
    ensures k < |s| ==> s[k] !in {9, 10, 11, 12, 13, 32}
    decreases |s|
  {
    if s != [] && IsSpace(s[0]) {
      var j := TrimLeftTakes(s[1..]);
      k := j + 1;
      assert s[1..][j..] == s[k..];
      assert forall i :: 1 <= i <= |s| - 1 ==> s[i] == s[1..][i - 1];
    } else {
      k := 0;
    }
  }

  lemma {:induction false} TrimRightLeaves(s: Bytes) returns (k: nat)
    ensures k <= |s| && TrimRight(s) == s[..k]
    ensures forall i :: k <= i < |s| ==> s[i] in {9, 10, 11, 12, 13, 32}
    ensures k > 0 ==> s[k - 1] !in {9, 10, 11, 12, 13, 32}
    decreases |s|
  {
    if s != [] && IsSpace(s[|s| - 1]) {
      k := TrimRightLeaves(s[..|s| - 1]);
      assert s[..|s| - 1][..k] == s[..k];
    } else {
      k := |s|;
      assert s[..k] == s;
    }
  }

  /** Trimming takes off white space on both sides, all of it and nothing else. */
  lemma TrimExactly(v: Bytes) returns (x: Bytes, y: Bytes)
    ensures var m := TrimRight(TrimLeft(v));
            v == x + m + y && AllBlank(x) && AllBlank(y) && IsTrimmed(m)
  {
    var i := TrimLeftTakes(v);
    var j := TrimRightLeaves(v[i..]);
    hide TrimLeft, TrimRight;
    x, y := v[..i], v[i..][j..];
    var m := v[i..][..j];
    assert v == v[..i] + v[i..] && v[i..] == m + y;
    if j > 0 {
      assert m[0] == v[i] && m[j - 1] == v[i..][j - 1];
    }
  }

  /** There is only one way to do that. */
  lemma TrimmedIsUnique(x: Bytes, m: Bytes, y: Bytes, v: Bytes)
    requires v == x + m + y && AllBlank(x) && AllBlank(y) && IsTrimmed(m)
    ensures TrimRight(TrimLeft(v)) == m
  {
    var x', y' := TrimExactly(v);
    hide TrimLeft, TrimRight;
    var m' := TrimRight(TrimLeft(v));
    assert forall i :: 0 <= i < |x| ==> v[i] == x[i];
    assert forall i :: 0 <= i < |x'| ==> v[i] == x'[i];
    assert forall i :: 0 <= i < |m| ==> v[|x| + i] == m[i];
    assert forall i :: 0 <= i < |m'| ==> v[|x'| + i] == m'[i];
    assert forall i :: 0 <= i < |y| ==> v[|x| + |m| + i] == y[i];
    assert forall i :: 0 <= i < |y'| ==> v[|x'| + |m'| + i] == y'[i];
    assert m == [] <==> m' == [];
    if m != [] {
      assert v[|x|] == m[0] && v[|x'|] == m'[0];
      assert v[|x| + |m| - 1] == m[|m| - 1] && v[|x'| + |m'| - 1] == m'[|m'| - 1];
      assert |x| == |x'| && |x| + |m| == |x'| + |m'|;
      assert m == v[|x|..|x| + |m|] && m' == v[|x'|..|x'| + |m'|];
    }
  }

  function WithHeader(r: Request, field: Bytes, value: Bytes): Request {
    r.(headers := r.headers[field := TrimRight(TrimLeft(value))])
  }

  // ---------------------------------------------------------------- the parser

  datatype Outcome = Outcome(context: Context, rest: Bytes, ok: bool)

  /** The context after a request line; it goes on to the headers if the line is good. */
  function AfterLine(c: Context, line: Bytes): (r: Context)
    ensures r.state != GotAll
  {
    var (request, ok) := RequestLine(c.request, line);
    Context(if ok then ExpectHeaders else ExpectRequestLine, request, c.failed || Trips(c.request, line))
  }

  /** The context after a header line. */
  function WithLine(c: Context, line: Bytes): (r: Context)
    requires COLON in line
    ensures r.state == c.state && r.failed == c.failed
  {
    var colon := IndexOf(line, COLON);
    FoundExactly(line, COLON);
    c.(request := WithHeader(c.request, line[..colon], line[colon + 1..]))
  }

  lemma FoundExactly(s: Bytes, b: Byte)
    ensures IndexOf(s, b) < |s| <==> b in s
  {
  }

  function ParseHeaders(c: Context, s: Bytes): Outcome
    decreases |s|
  {
    var crlf := FindCrlf(s);
    if crlf < 0 then Outcome(c, s, true)
    else if COLON in s[..crlf] then ParseHeaders(WithLine(c, s[..crlf]), s[crlf + 2..])
    else Outcome(c.(state := GotAll), s[crlf + 2..], true)
  }

  /** parseRequest, which must not be entered once everything has been got. */
  function Parse(c: Context, s: Bytes): Outcome
    requires c.state != GotAll
  {
    var crlf := FindCrlf(s);
    if c.state == ExpectHeaders then ParseHeaders(c, s)
    else if crlf < 0 then Outcome(c, s, true)
    else
      var d := AfterLine(c, s[..crlf]);
      if d.state == ExpectHeaders then ParseHeaders(d, s[crlf + 2..]) else Outcome(d, s, false)
  }

  /** What one header line does. */
  lemma HeaderStep(c: Context, s: Bytes)
    ensures var crlf := FindCrlf(s);
            ParseHeaders(c, s) == if crlf < 0 then Outcome(c, s, true)
                                  else if COLON in s[..crlf] then ParseHeaders(WithLine(c, s[..crlf]), s[crlf + 2..])
                                  else Outcome(c.(state := GotAll), s[crlf + 2..], true)
  {
  }

  /** What one line does. */
  lemma ParseStep(c: Context, s: Bytes)
    requires c.state != GotAll
    ensures var crlf := FindCrlf(s);
            Parse(c, s) == if crlf < 0 then Outcome(c, s, true)
                           else if c.state == ExpectRequestLine then
                             var d := AfterLine(c, s[..crlf]);
                             if d.state == ExpectHeaders then Parse(d, s[crlf + 2..]) else Outcome(d, s, false)
                           else if COLON in s[..crlf] then Parse(WithLine(c, s[..crlf]), s[crlf + 2..])
                           else Outcome(c.(state := GotAll), s[crlf + 2..], true)
  {
    HeaderStep(c, s);
    hide ParseHeaders, FindCrlf, AfterLine, WithLine;
  }

  /** A line end stays where it is when more bytes come. */
  lemma {:induction false} CrlfInLonger(s: Bytes, t: Bytes)
    requires FindCrlf(s) >= 0
    ensures FindCrlf(s + t) == FindCrlf(s)
  {
    var r := FindCrlf(s);
    assert IsCrlf(s + t, r);
    assert forall i :: 0 <= i < r ==> IsCrlf(s + t, i) == IsCrlf(s, i);
  }

  /** More bytes for the same request: the parser is called for every message, after a failure too, until it has all. */
  function Resume(o: Outcome, t: Bytes): Outcome {
    if o.context.state != GotAll then Parse(o.context, o.rest + t) else o.(rest := o.rest + t)
  }

  lemma SplitAtLine(s: Bytes, t: Bytes)
    requires FindCrlf(s) >= 0
    ensures var crlf := FindCrlf(s);
            FindCrlf(s + t) == crlf && (s + t)[..crlf] == s[..crlf] && (s + t)[crlf + 2..] == s[crlf + 2..] + t
  {
    CrlfInLonger(s, t);
  }

  lemma {:induction false} HeadersInPieces(c: Context, s: Bytes, t: Bytes)
    requires c.state == ExpectHeaders
    ensures var o := ParseHeaders(c, s);
            && o.ok && o.context.failed == c.failed && o.context.state != ExpectRequestLine
            && ParseHeaders(c, s + t)
                 == if o.context.state == GotAll then o.(rest := o.rest + t) else ParseHeaders(o.context, o.rest + t)
    decreases |s|
  {
    HeaderStep(c, s);
    HeaderStep(c, s + t);
    hide WithLine, FindCrlf, ParseHeaders;
    var crlf := FindCrlf(s);
    if crlf >= 0 {
      SplitAtLine(s, t);
      if COLON in s[..crlf] {
        HeadersInPieces(WithLine(c, s[..crlf]), s[crlf + 2..], t);
      }
    }
  }

  /**
   Parsing in two pieces is parsing at once, wherever the bytes are cut. After a failure the rest is left where it is,
   with the bad line first.
   */
  lemma ParseInPieces(c: Context, s: Bytes, t: Bytes)
    requires c.state != GotAll
    ensures var o := Parse(c, s);
            Parse(c, s + t) == if o.ok then Resume(o, t) else o.(rest := o.rest + t)
  {
    hide AfterLine, FindCrlf, ParseHeaders;
    var crlf := FindCrlf(s);
    if c.state == ExpectHeaders {
      HeadersInPieces(c, s, t);
    } else if crlf >= 0 {
      SplitAtLine(s, t);
      if AfterLine(c, s[..crlf]).state == ExpectHeaders {
        HeadersInPieces(AfterLine(c, s[..crlf]), s[crlf + 2..], t);
      }
    }
  }

  // ---------------------------------------------------------------- where the headers end

  /** Getting everything takes a line. */
  lemma {:induction false} EndTakesALine(c: Context, s: Bytes)
    requires c.state == ExpectHeaders
    ensures ParseHeaders(c, s).context.state == GotAll ==> |ParseHeaders(c, s).rest| < |s|
    decreases |s|
  {
    hide WithLine, FindCrlf;
    var crlf := FindCrlf(s);
    if crlf >= 0 && COLON in s[..crlf] {
      EndTakesALine(WithLine(c, s[..crlf]), s[crlf + 2..]);
    }
  }

  /** The headers end at the next line, which adds nothing to them. */
  predicate EndsHeaders(c: Context, s: Bytes)
    requires c.state == ExpectHeaders && FindCrlf(s) >= 0
  {
    Parse(c, s) == Outcome(c.(state := GotAll), s[FindCrlf(s) + 2..], true)
  }

  /** A line ends the headers exactly if it has no colon, not only if it is empty as the comment in the code says. */
  lemma HeadersEndExactly(c: Context, s: Bytes)
    requires c.state == ExpectHeaders && FindCrlf(s) >= 0
    ensures EndsHeaders(c, s) <==> COLON !in s[..FindCrlf(s)]
  {
    hide WithLine, FindCrlf;
    var crlf := FindCrlf(s);
    if COLON in s[..crlf] {
      EndTakesALine(WithLine(c, s[..crlf]), s[crlf + 2..]);
    }
  }

  /** The comment is right about a line exactly if the line is empty or has a colon; for instance not about this one. */
  lemma EmptyLineEndsExactly(c: Context, line: Bytes, tail: Bytes)
    requires c.state == ExpectHeaders && CR !in line
    ensures FindCrlf(line + [CR, LF] + tail) >= 0
    ensures (EndsHeaders(c, line + [CR, LF] + tail) <==> line == []) <==> line == [] || COLON in line
    ensures line == Ascii("Host") ==> EndsHeaders(c, line + [CR, LF] + tail)
  {
    hide EndsHeaders, FindCrlf;
    var s := line + [CR, LF] + tail;
    CrlfAfterLine(line, tail);
    assert s[..|line|] == line;
    HeadersEndExactly(c, s);
    assert COLON !in Ascii("Host");
  }

  // ---------------------------------------------------------------- after a failure

  /** A bad request line read a second time sets what it has set, and is as bad. */
  lemma BadLineAgain(r: Request, line: Bytes)
    requires !RequestLine(r, line).1
    ensures RequestLine(RequestLine(r, line).0, line) == RequestLine(r, line)
  {
    hide MethodOf, VersionOf, IndexOf;
  }

  /** A parse fails only on the request line, with which what is left begins. */
  lemma FailsOnLine(c: Context, s: Bytes)
    requires c.state != GotAll && !Parse(c, s).ok
    ensures var o, crlf := Parse(c, s), FindCrlf(s);
            && c.state == ExpectRequestLine && crlf >= 0 && o.rest == s
            && RequestLine(c.request, s[..crlf]) == (o.context.request, false)
            && o.context == Context(ExpectRequestLine, o.context.request, c.failed || Trips(c.request, s[..crlf]))
  {
    hide RequestLine, FindCrlf, ParseHeaders, Trips;
    var crlf := FindCrlf(s);
    if c.state == ExpectHeaders {
      HeadersInPieces(c, s, []);
    } else if crlf >= 0 && AfterLine(c, s[..crlf]).state == ExpectHeaders {
      HeadersInPieces(AfterLine(c, s[..crlf]), s[crlf + 2..], []);
    }
  }

  /** A failed parser called again fails again in the same way, but may trip over the method that it has set. */
  lemma FailsAgain(c: Context, s: Bytes, t: Bytes)
    requires c.state != GotAll && !Parse(c, s).ok
    ensures var o := Parse(c, s);
            var trips := Trips(o.context.request, s[..FindCrlf(s)]);
            Resume(o, t) == Outcome(o.context.(failed := o.context.failed || trips), o.rest + t, false)
  {
    hide RequestLine, FindCrlf, IndexOf, Trips;
    FailsOnLine(c, s);
    CrlfInLonger(s, t);
    var crlf := FindCrlf(s);
    assert (s + t)[..crlf] == s[..crlf];
    BadLineAgain(c.request, s[..crlf]);
  }

  /** The first line of s has a word before a space that is a method. */
  predicate NamesMethod(s: Bytes) {
    FindCrlf(s) >= 0 &&
    var line := s[..FindCrlf(s)];
    IndexOf(line, SPACE) < |line| && MethodOf(line[..IndexOf(line, SPACE)]) != Invalid
  }

  /**
   After a failed parse of a new connection, the next call passes the assertion exactly if the first line has no space
   or its first word is no method.
   */
  lemma NextCallPasses(s: Bytes, t: Bytes)
    requires !Parse(FRESH, s).ok
    ensures !Parse(FRESH, s).context.failed
    ensures !Resume(Parse(FRESH, s), t).context.failed <==> !NamesMethod(s)
  {
    hide FindCrlf, IndexOf, MethodOf, VersionOf, WithTarget;
    FailsOnLine(FRESH, s);
    FailsAgain(FRESH, s, t);
    LineSetsMethod(EMPTY, s[..FindCrlf(s)]);
  }

  lemma LineSetsMethod(r: Request, line: Bytes)
    ensures var a := IndexOf(line, SPACE);
            RequestLine(r, line).0.verb == if a < |line| then MethodOf(line[..a]) else r.verb
  {
    hide MethodOf, VersionOf, IndexOf;
  }

  lemma BadLineAborts(line: Bytes, t: Bytes)
    requires CR !in line && !RequestLine(EMPTY, line).1
    requires IndexOf(line, SPACE) < |line| && MethodOf(line[..IndexOf(line, SPACE)]) != Invalid
    ensures var s := line + [CR, LF];
            !Parse(FRESH, s).ok && Resume(Parse(FRESH, s), t).context.failed
  {
    hide RequestLine, FindCrlf, IndexOf, MethodOf, Resume, Trips;
    var s := line + [CR, LF];
    assert s == line + [CR, LF] + [];
    CrlfAfterLine(line, []);
    assert s[..|line|] == line;
    NextCallPasses(s, t);
  }

  lemma BadVersionLine(m: Method, target: Bytes, version: Bytes)
    requires m != Invalid && SPACE !in target && VersionOf(version) == Unknown
    ensures var line := MethodText(m) + [SPACE] + (target + [SPACE] + version);
            && !RequestLine(EMPTY, line).1
            && IndexOf(line, SPACE) == |MethodText(m)| && MethodOf(line[..|MethodText(m)|]) == m
  {
    hide MethodOf, MethodText, VersionOf, WithTarget, IndexOf;
    MethodWord(m);
    LineParts(MethodText(m), target, version);
  }

  /** A bad line sets what comes before its fault: all but the version, only the method, or nothing. */
  lemma BadLineSets(m: Method, path: Bytes, query: Bytes, version: Bytes, w: Bytes)
    requires m != Invalid && IsTarget(path, query) && VersionOf(version) == Unknown && SPACE !in w
    ensures RequestLine(EMPTY, MethodText(m) + [SPACE] + (path + query + [SPACE] + version))
         == (EMPTY.(verb := m, path := path, query := query), false)
    ensures RequestLine(EMPTY, MethodText(m) + [SPACE] + w) == (EMPTY.(verb := m), false)
    ensures RequestLine(EMPTY, w) == (EMPTY, false)
  {
    hide MethodOf, MethodText, VersionOf, WithTarget, IndexOf;
    MethodWord(m);
    LineParts(MethodText(m), path + query, version);
    TargetRoundTrip(EMPTY.(verb := m), path, query);
    IndexOfNone(w, SPACE);
    IndexAfter(MethodText(m), SPACE, w);
    var line := MethodText(m) + [SPACE] + w;
    assert line[..|MethodText(m)|] == MethodText(m) && line[|MethodText(m)| + 1..] == w;
  }

  /** A request with a known method and an unknown version, and any message after it, fail the assertion. */
  lemma BadVersionAborts(m: Method, target: Bytes, version: Bytes, t: Bytes)
    requires m != Invalid && SPACE !in target && CR !in target && CR !in version && VersionOf(version) == Unknown
    ensures var s := MethodText(m) + [SPACE] + (target + [SPACE] + version) + [CR, LF];
            !Parse(FRESH, s).ok && Resume(Parse(FRESH, s), t).context.failed
  {
    hide MethodOf, MethodText, VersionOf, RequestLine, IndexOf, Parse, Resume;
    MethodWord(m);
    BadVersionLine(m, target, version);
    BadLineAborts(MethodText(m) + [SPACE] + (target + [SPACE] + version), t);
  }

  /** For instance GET / HTTP/9.9, and any byte after it. */
  lemma UnknownVersionAborts(b: Byte)
    ensures var s := Ascii("GET") + [SPACE] + (Ascii("/") + [SPACE] + Ascii("HTTP/9.9")) + [CR, LF];
            !Parse(FRESH, s).ok && Resume(Parse(FRESH, s), [b]).context.failed
  {
    hide Parse, Resume;
    assert Ascii("HTTP/9.9")[5] == 57 && Ascii("HTTP/1.1")[5] == 49 && Ascii("HTTP/1.0")[5] == 49;
    BadVersionAborts(Get, Ascii("/"), Ascii("HTTP/9.9"), [b]);
  }

  // ---------------------------------------------------------------- any chunks

  function Feed(o: Outcome, chunks: seq<Bytes>): Outcome {
    if chunks == [] then o else Resume(Feed(o, chunks[..|chunks| - 1]), chunks[|chunks| - 1])
  }

  /** The chunk after the first k finds the parser failed with a method set. */
  predicate TripsAt(chunks: seq<Bytes>, k: nat)
    requires k <= |chunks|
  {
    !Parse(FRESH, Concat(chunks[..k])).ok && NamesMethod(Concat(chunks[..k]))
  }

  function Flagged(o: Outcome, failed: bool): Outcome {
    o.(context := o.context.(failed := failed))
  }

  /** One parse of a new connection never fails the assertion. */
  lemma FirstCallPasses(s: Bytes)
    ensures !Parse(FRESH, s).context.failed
  {
    hide RequestLine, FindCrlf, ParseHeaders;
    var crlf := FindCrlf(s);
    if crlf >= 0 && AfterLine(FRESH, s[..crlf]).state == ExpectHeaders {
      HeadersInPieces(AfterLine(FRESH, s[..crlf]), s[crlf + 2..], []);
    }
  }

  /** The flag of a failed parser makes no difference to the next call. */
  lemma FlaggedFailsAgain(s: Bytes, t: Bytes, failed: bool)
    requires !Parse(FRESH, s).ok
    ensures Resume(Flagged(Parse(FRESH, s), failed), t) == Flagged(Parse(FRESH, s + t), failed || NamesMethod(s))
  {
    hide RequestLine, FindCrlf, IndexOf, MethodOf;
    var c := FRESH.(failed := failed);
    FailsOnLine(FRESH, s);
    assert Parse(c, s) == Flagged(Parse(FRESH, s), failed);
    FailsAgain(c, s, t);
    ParseInPieces(FRESH, s, t);
    LineSetsMethod(EMPTY, s[..FindCrlf(s)]);
  }

  /** What one more chunk does. */
  lemma OneMoreChunk(s: Bytes, t: Bytes, failed: bool)
    requires Parse(FRESH, s).ok ==> !failed
    ensures Resume(Flagged(Parse(FRESH, s), failed), t)
         == Flagged(Parse(FRESH, s + t), failed || (!Parse(FRESH, s).ok && NamesMethod(s)))
    ensures !Parse(FRESH, s).ok ==> !Parse(FRESH, s + t).ok
  {
    hide Parse, NamesMethod;
    ParseInPieces(FRESH, s, t);
    if Parse(FRESH, s).ok {
      FirstCallPasses(s);
      FirstCallPasses(s + t);
    } else {
      FlaggedFailsAgain(s, t, failed);
    }
  }

  /**
   Up to the end of the first request, feeding a new connection any bytes in any chunks, one call for each, ends where
   one parse of them all does, well formed or not; and the assertion fails exactly if a message comes after a failure
   that has set a method.
   */
  lemma {:induction false} AnyChunks(chunks: seq<Bytes>)
    ensures var f := Feed(Outcome(FRESH, [], true), chunks);
            && f == Flagged(Parse(FRESH, Concat(chunks)), f.context.failed)
            && (f.context.failed <==> exists k :: 0 <= k < |chunks| && TripsAt(chunks, k))
            && (Parse(FRESH, Concat(chunks)).ok ==> f == Parse(FRESH, Concat(chunks)))
  {
    hide Parse, NamesMethod;
    FirstCallPasses(Concat(chunks));
    if chunks == [] {
      ParseNothing();
    } else {
      var n := |chunks| - 1;
      var init, last := chunks[..n], chunks[n];
      AnyChunks(init);
      assert forall k :: 0 <= k <= n ==> init[..k] == chunks[..k];
      assert forall k :: 0 <= k < n ==> TripsAt(init, k) == TripsAt(chunks, k);
      assert chunks[..n] == init;
      var f := Feed(Outcome(FRESH, [], true), init);
      FirstCallPasses(Concat(init));
      OneMoreChunk(Concat(init), last, f.context.failed);
      assert TripsAt(chunks, n) <==> !Parse(FRESH, Concat(init)).ok && NamesMethod(Concat(init));
    }
  }

  lemma ParseNothing()
    ensures Parse(FRESH, []) == Outcome(FRESH, [], true)
  {
  }

  // ---------------------------------------------------------------- well-formed requests

  function MethodText(m: Method): Bytes {
    match m
    case Invalid => Ascii("UNKNOWN")
    case Get => Ascii("GET")
    case Post => Ascii("POST")
    case Head => Ascii("HEAD")
    case Put => Ascii("PUT")
    case Delete => Ascii("DELETE")
  }

  function VersionText(v: Version): Bytes {
    if v == Http10 then Ascii("HTTP/1.0") else Ascii("HTTP/1.1")
  }

  datatype Header = Header(field: Bytes, before: Bytes, value: Bytes, after: Bytes)

  /** A value is sent with any white space around it. */
  predicate IsHeader(h: Header) {
    && COLON !in h.field && CR !in h.field && CR !in h.before && CR !in h.value && CR !in h.after
    && AllBlank(h.before) && IsTrimmed(h.value) && AllBlank(h.after)
  }

  predicate IsTarget(path: Bytes, query: Bytes) {
    && SPACE !in path && QUESTION !in path && CR !in path && SPACE !in query && CR !in query
    && (query == [] || query[0] == QUESTION)
  }

  function RenderHeader(h: Header): Bytes {
    h.field + [COLON] + (h.before + h.value + h.after) + [CR, LF]
  }

  function RenderHeaders(hs: seq<Header>): Bytes {
    if hs == [] then [CR, LF] else RenderHeader(hs[0]) + RenderHeaders(hs[1..])
  }

  function RenderLine(m: Method, path: Bytes, query: Bytes, v: Version): Bytes {
    MethodText(m) + [SPACE] + ((path + query) + [SPACE] + VersionText(v))
  }

  function Render(m: Method, path: Bytes, query: Bytes, v: Version, hs: seq<Header>): Bytes {
    RenderLine(m, path, query, v) + [CR, LF] + RenderHeaders(hs)
  }

  /** The headers of a request, without the white space they are sent with; the last one of a name wins. */
  function HeadersOf(m: map<Bytes, Bytes>, hs: seq<Header>): map<Bytes, Bytes>
    decreases |hs|
  {
    if hs == [] then m else HeadersOf(m[hs[0].field := hs[0].value], hs[1..])
  }

  lemma CrlfAfterLine(line: Bytes, rest: Bytes)
    requires CR !in line
    ensures FindCrlf(line + [CR, LF] + rest) == |line|
  {
    var s := line + [CR, LF] + rest;
    assert IsCrlf(s, |line|);
    forall i | 0 <= i < |line|
      ensures !IsCrlf(s, i)
    {
      assert s[i] == line[i];
    }
  }

  lemma IndexAfter(s: Bytes, b: Byte, t: Bytes)
    requires b !in s
    ensures IndexOf(s + [b] + t, b) == |s|
  {
    assert (s + [b] + t)[|s|] == b;
    assert forall j :: 0 <= j < |s| ==> (s + [b] + t)[j] == s[j];
  }

  lemma IndexOfNone(s: Bytes, b: Byte)
    requires b !in s
    ensures IndexOf(s, b) == |s|
  {
  }

  lemma TargetRoundTrip(r: Request, path: Bytes, query: Bytes)
    requires IsTarget(path, query)
    ensures WithTarget(r, path + query) == r.(path := path, query := if query == [] then r.query else query)
  {
    var t := path + query;
    if query == [] {
      assert t == path;
      IndexOfNone(path, QUESTION);
    } else {
      assert t == path + [QUESTION] + query[1..];
      IndexAfter(path, QUESTION, query[1..]);
      assert t[..|path|] == path && t[|path|..] == query;
    }
  }

  lemma MethodWord(m: Method)
    requires m != Invalid
    ensures MethodOf(MethodText(m)) == m && SPACE !in MethodText(m) && CR !in MethodText(m)
  {
    var t := MethodText(m);
    match m
    case Get => assert t[0] == 71;
    case Post => assert |t| == 4 && |Ascii("GET")| == 3;
    case Head => assert |t| == 4 && |Ascii("GET")| == 3 && t[0] == 72 && Ascii("POST")[0] == 80;
    case Put => assert t[0] == 80 && Ascii("GET")[0] == 71 && |t| == 3 && |Ascii("POST")| == 4 && |Ascii("HEAD")| == 4;
    case Delete =>
      assert |t| == 6;
      assert |Ascii("GET")| == 3 && |Ascii("POST")| == 4 && |Ascii("HEAD")| == 4 && |Ascii("PUT")| == 3;
  }

  /** The parts of a line of three words. */
  lemma LineParts(a: Bytes, target: Bytes, version: Bytes)
    requires SPACE !in a && SPACE !in target
    ensures var rest := target + [SPACE] + version;
            var line := a + [SPACE] + rest;
            && IndexOf(line, SPACE) == |a| && line[..|a|] == a && line[|a| + 1..] == rest
            && IndexOf(rest, SPACE) == |target| && rest[..|target|] == target && rest[|target| + 1..] == version
  {
    IndexAfter(a, SPACE, target + [SPACE] + version);
    IndexAfter(target, SPACE, version);
  }

  lemma VersionWords(v: Version)
    requires v != Unknown
    ensures VersionOf(VersionText(v)) == v && SPACE !in VersionText(v) && CR !in VersionText(v)
  {
    assert Ascii("HTTP/1.0")[7] == 48 && Ascii("HTTP/1.1")[7] == 49;
  }

  /** A rendered request line sets exactly the fields it was rendered from. */
  lemma LineRoundTrip(m: Method, path: Bytes, query: Bytes, v: Version)
    requires m != Invalid && v != Unknown && IsTarget(path, query)
    ensures RequestLine(EMPTY, RenderLine(m, path, query, v)) == (Request(m, v, path, query, map[]), true)
    ensures CR !in RenderLine(m, path, query, v)
  {
    hide MethodOf, MethodText, VersionOf, VersionText, WithTarget, IndexOf;
    MethodWord(m);
    VersionWords(v);
    LineParts(MethodText(m), path + query, VersionText(v));
    TargetRoundTrip(EMPTY.(verb := m), path, query);
  }

  lemma {:induction false} HeadersRoundTrip(r: Request, hs: seq<Header>, tail: Bytes)
    requires forall i :: 0 <= i < |hs| ==> IsHeader(hs[i])
    ensures ParseHeaders(Context(ExpectHeaders, r, false), RenderHeaders(hs) + tail)
         == Outcome(Context(GotAll, r.(headers := HeadersOf(r.headers, hs)), false), tail, true)
    decreases |hs|
  {
    var s := RenderHeaders(hs) + tail;
    if hs == [] {
      assert s == [] + [CR, LF] + tail;
      CrlfAfterLine([], tail);
    } else {
      var h := hs[0];
      var sent := h.before + h.value + h.after;
      var line := h.field + [COLON] + sent;
      var next := RenderHeaders(hs[1..]) + tail;
      assert s == line + [CR, LF] + next;
      CrlfAfterLine(line, next);
      assert s[..|line|] == line && s[|line| + 2..] == next;
      IndexAfter(h.field, COLON, sent);
      assert line[..|h.field|] == h.field && line[|h.field| + 1..] == sent;
      TrimmedIsUnique(h.before, h.value, h.after, sent);
      hide TrimLeft, TrimRight, FindCrlf, AllBlank, IsTrimmed;
      HeadersRoundTrip(WithHeader(r, h.field, sent), hs[1..], tail);
    }
  }

  /**
   Every well-formed request, fed in any chunks, reaches kGotAll with the method, target, version and headers it
   was written with, and leaves what follows it in the buffer.
   */
  lemma RequestInAnyChunks(m: Method, path: Bytes, query: Bytes, v: Version, hs: seq<Header>,
                           tail: Bytes, chunks: seq<Bytes>)
    requires m != Invalid && v != Unknown && IsTarget(path, query)
    requires forall i :: 0 <= i < |hs| ==> IsHeader(hs[i])
    requires Concat(chunks) == Render(m, path, query, v, hs) + tail
    ensures Feed(Outcome(FRESH, [], true), chunks)
         == Outcome(Context(GotAll, Request(m, v, path, query, HeadersOf(map[], hs)), false), tail, true)
  {
    hide Render, Parse, Feed, HeadersOf, IsTarget, IsHeader, Flagged;
    FeedWhenOk(chunks);
    WholeRequest(m, path, query, v, hs, tail);
  }

  /** One parse of a well-formed request sets the fields it was written with, and leaves what follows it. */
  lemma WholeRequest(m: Method, path: Bytes, query: Bytes, v: Version, hs: seq<Header>, tail: Bytes)
    requires m != Invalid && v != Unknown && IsTarget(path, query)
    requires forall i :: 0 <= i < |hs| ==> IsHeader(hs[i])
    ensures Parse(FRESH, Render(m, path, query, v, hs) + tail)
         == Outcome(Context(GotAll, Request(m, v, path, query, HeadersOf(map[], hs)), false), tail, true)
  {
    hide RenderLine, RenderHeaders, Parse, ParseHeaders, HeadersOf, RequestLine, IsTarget, IsHeader;
    var line := RenderLine(m, path, query, v);
    var next := RenderHeaders(hs) + tail;
    assert Render(m, path, query, v, hs) + tail == line + [CR, LF] + next;
    LineRoundTrip(m, path, query, v);
    ParseFirstLine(line, next, Request(m, v, path, query, map[]));
    HeadersRoundTrip(Request(m, v, path, query, map[]), hs, tail);
  }

  /** GET /a?b HTTP/1.1 with the header Host: x, byte by byte. */
  lemma LiteralRequest()
    ensures var line := [71, 69, 84, 32, 47, 97, 63, 98, 32, 72, 84, 84, 80, 47, 49, 46, 49];
            var header := [72, 111, 115, 116, 58, 32, 120, 13, 10];
            var r := Request(Get, Http11, [47, 97], [63, 98], map[[72, 111, 115, 116] := [120]]);
            Parse(FRESH, line + [13, 10] + (header + [13, 10])) == Outcome(Context(GotAll, r, false), [], true)
  {
    var h := Header([72, 111, 115, 116], [32], [120], []);
    LiteralLine();
    LiteralHeaders(h);
    TargetIsGood();
    hide RenderLine, RenderHeaders, Parse, HeadersOf, IsTarget, IsHeader;
    WholeRequest(Get, [47, 97], [63, 98], Http11, [h], []);
    var s := Render(Get, [47, 97], [63, 98], Http11, [h]);
    assert s + [] == s;
  }

  lemma TargetIsGood()
    ensures IsTarget([47, 97], [63, 98]) && IsHeader(Header([72, 111, 115, 116], [32], [120], []))
  {
  }

  lemma LiteralLine()
    ensures RenderLine(Get, [47, 97], [63, 98], Http11)
         == [71, 69, 84, 32, 47, 97, 63, 98, 32, 72, 84, 84, 80, 47, 49, 46, 49]
  {
    MethodBytes();
    VersionBytes();
    hide MethodText, VersionText;
  }

  lemma LiteralHeaders(h: Header)
    requires h == Header([72, 111, 115, 116], [32], [120], [])
    ensures RenderHeaders([h]) == [72, 111, 115, 116, 58, 32, 120, 13, 10] + [13, 10]
    ensures HeadersOf(map[], [h]) == map[[72, 111, 115, 116] := [120]]
  {
    assert [h][1..] == [];
    assert RenderHeaders([]) == [13, 10];
  }

  /** The words of the five methods, byte by byte. */
  lemma MethodBytes()
    ensures MethodText(Get) == [71, 69, 84] && MethodText(Post) == [80, 79, 83, 84]
    ensures MethodText(Head) == [72, 69, 65, 68]
    ensures MethodText(Put) == [80, 85, 84] && MethodText(Delete) == [68, 69, 76, 69, 84, 69]
  {
  }

  lemma VersionBytes()
    ensures VersionText(Http11) == [72, 84, 84, 80, 47, 49, 46, 49]
    ensures VersionText(Http10) == [72, 84, 84, 80, 47, 49, 46, 48]
  {
  }

  /** No other word is a method, and no other one a version. */
  lemma WordsExactly(w: Bytes)
    ensures forall m: Method :: m != Invalid ==> (MethodOf(w) == m <==> w == MethodText(m))
    ensures forall v: Version :: v != Unknown ==> (VersionOf(w) == v <==> w == VersionText(v))
  {
    forall m: Method | m != Invalid
      ensures MethodOf(w) == m <==> w == MethodText(m)
    {
      MethodWord(m);
    }
    forall v: Version | v != Unknown
      ensures VersionOf(w) == v <==> w == VersionText(v)
    {
      VersionWords(v);
    }
  }

  lemma FeedWhenOk(chunks: seq<Bytes>)
    ensures Parse(FRESH, Concat(chunks)).ok ==> Feed(Outcome(FRESH, [], true), chunks) == Parse(FRESH, Concat(chunks))
  {
    hide Parse, Feed, Concat;
    AnyChunks(chunks);
  }

  lemma ParseFirstLine(line: Bytes, next: Bytes, r: Request)
    requires CR !in line && RequestLine(EMPTY, line) == (r, true)
    ensures Parse(FRESH, line + [CR, LF] + next) == ParseHeaders(Context(ExpectHeaders, r, false), next)
  {
    hide RequestLine, FindCrlf;
    var s := line + [CR, LF] + next;
    CrlfAfterLine(line, next);
    assert s[..|line|] == line && s[|line| + 2..] == next;
  }
}
