/**
 Requests are decoded independently of how their bytes arrive, and responses are framed so that decoding
 them gives back the output.
 */
module FastCgiTheorems {
  import opened NetworkOrder
  import opened FastCgiSpec

  // ---------------------------------------------------------------- onMessage

  /** One run of the request callback: its arguments, and whether the connection is shut down after it. */
  datatype Event = Event(params: ParamMap, body: Bytes, closes: bool)

  /** A codec, the bytes its connection has buffered, and the callbacks so far. */
  datatype Session = Session(codec: Codec, buffered: Bytes, events: seq<Event>)

  function OnMessage(x: Session, chunk: Bytes): Session {
    var (c, rest) := Parse(x.codec, x.buffered + chunk);
    if c.gotRequest
    then Session(Codec(false, c.keepConn, [], [], map[]), rest, x.events + [Event(c.params, c.stdin, !c.keepConn)])
    else Session(c, rest, x.events)
  }

  function Feed(x: Session, chunks: seq<Bytes>): Session {
    if chunks == [] then x else OnMessage(Feed(x, chunks[..|chunks| - 1]), chunks[|chunks| - 1])
  }

  predicate EndsRequest(r: Record) {
    r.kind == STDIN && r.content == []
  }

  /** The records of one request: the empty STDIN record comes last and only there. */
  predicate OneRequest(rs: seq<Record>) {
    && AreRecords(rs) && rs != [] && EndsRequest(rs[|rs| - 1])
    && forall i :: 0 <= i < |rs| - 1 ==> !EndsRequest(rs[i])
  }

  /** A strict prefix of one record holds no record. */
  lemma PartOfRecord(r: Record, t: Bytes, p: Bytes)
    requires IsRecord(r) && p <= EncodeRecord(r) + t && |p| < |EncodeRecord(r)|
    ensures !HasRecord(p)
  {
    RecordRoundTrip(r, t);
    var s := EncodeRecord(r) + t;
    if |p| >= HEADER {
      assert p[4..6] == s[4..6];
      assert p[6] == s[6];
    }
  }

  /** Until the last byte of a request has arrived, the request is not complete. */
  lemma {:induction false} NotYet(c: Codec, rs: seq<Record>, p: Bytes)
    requires OneRequest(rs) && !c.gotRequest && p < Encode(rs)
    ensures !Parse(c, p).0.gotRequest
    decreases |rs|
  {
    hide EncodeRecord, OnBeginRequest, OnParams;
    var e, t := EncodeRecord(rs[0]), Encode(rs[1..]);
    if |p| < |e| {
      PartOfRecord(rs[0], t, p);
    } else {
      var p' := p[|e|..];
      assert p == e + p';
      RecordRoundTrip(rs[0], p');
      assert p' < t by {
        assert t == Encode(rs)[|e|..];
      }
      assert |rs| > 1;
      StillOpen(c, rs[0]);
      NotYet(OnRecord(c, rs[0]), rs[1..], p');
    }
  }

  lemma StillOpen(c: Codec, r: Record)
    requires !c.gotRequest
    ensures OnRecord(c, r).gotRequest == EndsRequest(r)
  {
  }

  lemma {:induction false} OpenUntilEnd(c: Codec, rs: seq<Record>)
    requires OneRequest(rs) && !c.gotRequest
    ensures OnRecords(c, rs).gotRequest
    decreases |rs|
  {
    StillOpen(c, rs[0]);
    if |rs| > 1 {
      OpenUntilEnd(OnRecord(c, rs[0]), rs[1..]);
    }
  }

  lemma ParseWhole(c: Codec, rs: seq<Record>)
    requires AreRecords(rs)
    ensures Parse(c, Encode(rs)) == (OnRecords(c, rs), [])
  {
    DecodeEncode(rs, []);
    assert Encode(rs) + [] == Encode(rs);
    ParseIsDecode(c, Encode(rs));
  }

  /** Feeding part of a request, in any chunks, leaves the session as parsing that part at once. */
  lemma {:induction false} FeedPart(c: Codec, events: seq<Event>, rs: seq<Record>, chunks: seq<Bytes>)
    requires OneRequest(rs) && !c.gotRequest && Concat(chunks) < Encode(rs)
    ensures var (c1, rest) := Parse(c, Concat(chunks));
            Feed(Session(c, [], events), chunks) == Session(c1, rest, events)
    decreases |chunks|
  {
    hide OneRequest, Encode;
    if chunks != [] {
      var init, last := chunks[..|chunks| - 1], chunks[|chunks| - 1];
      assert Concat(chunks) == Concat(init) + last;
      FeedPart(c, events, rs, init);
      ParseInPieces(c, Concat(init), last);
      NotYet(c, rs, Concat(chunks));
    } else {
      assert !HasRecord([]);
    }
  }

  /**
   For any one-request stream cut into any non-empty chunks: no callback before the last chunk, exactly one on
   it, and the session ends as if the stream had come in one piece, with nothing left over.
   */
  lemma AnyFragmentation(c: Codec, events: seq<Event>, rs: seq<Record>, chunks: seq<Bytes>)
    requires OneRequest(rs) && !c.gotRequest && Concat(chunks) == Encode(rs)
    requires forall i :: 0 <= i < |chunks| ==> chunks[i] != []
    ensures forall k :: 0 <= k < |chunks| ==> Feed(Session(c, [], events), chunks[..k]).events == events
    ensures var d := OnRecords(c, rs);
            Feed(Session(c, [], events), chunks) == OnMessage(Session(c, [], events), Encode(rs))
            == Session(Codec(false, d.keepConn, [], [], map[]), [], events + [Event(d.params, d.stdin, !d.keepConn)])
  {
    hide OneRequest, Encode;
    var x := Session(c, [], events);
    forall k | 0 <= k < |chunks|
      ensures Feed(x, chunks[..k]).events == events
    {
      PartIsShorter(chunks, k);
      FeedPart(c, events, rs, chunks[..k]);
    }
    EncodedNotEmpty(rs);
    assert chunks != [];
    var init, last := chunks[..|chunks| - 1], chunks[|chunks| - 1];
    PartIsShorter(chunks, |chunks| - 1);
    FeedPart(c, events, rs, init);
    ParseInPieces(c, Concat(init), last);
    ParseWhole(c, rs);
    OpenUntilEnd(c, rs);
    assert [] + Encode(rs) == Encode(rs);
  }

  lemma EncodedNotEmpty(rs: seq<Record>)
    requires OneRequest(rs)
    ensures AreRecords(rs) && Encode(rs) != []
  {
  }

  lemma {:induction false} PartIsShorter(chunks: seq<Bytes>, k: nat)
    requires k < |chunks| && forall i :: 0 <= i < |chunks| ==> chunks[i] != []
    ensures Concat(chunks[..k]) < Concat(chunks)
    decreases |chunks|
  {
    var init, last := chunks[..|chunks| - 1], chunks[|chunks| - 1];
    if k < |init| {
      PartIsShorter(init, k);
      assert init[..k] == chunks[..k];
    } else {
      assert chunks[..k] == init;
    }
    assert Concat(chunks) == Concat(init) + last;
  }

  /** Two requests in one message run the callback once: the code serves one request at a time. */
  lemma PipelinedRequestsMerge(c: Codec, a: seq<Record>, b: seq<Record>)
    requires OneRequest(a) && OneRequest(b) && !c.gotRequest
    ensures |OnMessage(Session(c, [], []), Encode(a) + Encode(b)).events| == 1
  {
    hide Encode, OneRequest;
    EncodedNotEmpty(a);
    EncodedNotEmpty(b);
    ParseInPieces(c, Encode(a), Encode(b));
    ParseWhole(c, a);
    OpenUntilEnd(c, a);
    ParseWhole(OnRecords(c, a), b);
    OnceGot(OnRecords(c, a), b);
    assert [] + (Encode(a) + Encode(b)) == Encode(a) + Encode(b);
    assert [] + Encode(b) == Encode(b);
  }

  lemma {:induction false} OnceGot(c: Codec, rs: seq<Record>)
    requires c.gotRequest
    ensures OnRecords(c, rs).gotRequest
    decreases |rs|
  {
    if rs != [] {
      OnceGot(OnRecord(c, rs[0]), rs[1..]);
    }
  }

  // ---------------------------------------------------------------- a whole request

  function Contents(rs: seq<Record>): Bytes {
    if rs == [] then [] else rs[0].content + Contents(rs[1..])
  }

  /** A stream of one kind: records of that kind, none of them empty. */
  predicate IsStream(rs: seq<Record>, kind: Byte) {
    forall i :: 0 <= i < |rs| ==> IsRecord(rs[i]) && rs[i].kind == kind && rs[i].content != []
  }

  lemma {:induction false} ParamsGather(c: Codec, rs: seq<Record>)
    requires IsStream(rs, PARAMS)
    ensures OnRecords(c, rs) == c.(paramsStream := c.paramsStream + Contents(rs))
    decreases |rs|
  {
    if rs != [] {
      ParamsGather(OnRecord(c, rs[0]), rs[1..]);
      assert c.paramsStream + (rs[0].content + Contents(rs[1..])) == c.paramsStream + rs[0].content + Contents(rs[1..]);
    }
  }

  lemma {:induction false} StdinGathers(c: Codec, rs: seq<Record>)
    requires IsStream(rs, STDIN)
    ensures OnRecords(c, rs) == c.(stdin := c.stdin + Contents(rs))
    decreases |rs|
  {
    if rs != [] {
      StdinGathers(OnRecord(c, rs[0]), rs[1..]);
      assert c.stdin + (rs[0].content + Contents(rs[1..])) == c.stdin + rs[0].content + Contents(rs[1..]);
    }
  }

  lemma {:induction false} OnRecordsConcat(c: Codec, a: seq<Record>, b: seq<Record>)
    ensures OnRecords(c, a + b) == OnRecords(OnRecords(c, a), b)
    decreases |a|
  {
    hide OnRecord;
    if a == [] {
      assert a + b == b;
    } else {
      OnRecordsConcat(OnRecord(c, a[0]), a[1..], b);
      assert (a + b)[1..] == a[1..] + b;
    }
  }

  /** The pairs of a request may be spread over any number of PARAMS records, and its body over any of STDIN. */
  datatype Request = Request(begin: Record, params: seq<Record>, endParams: Record, body: seq<Record>, endBody: Record)

  predicate IsRequest(q: Request, pairs: seq<Pair>) {
    && IsRecord(q.begin) && q.begin.kind == BEGIN_REQUEST && |q.begin.content| >= HEADER
    && FromBytes(q.begin.content[..2]) == RESPONDER
    && IsStream(q.params, PARAMS) && ArePairs(pairs) && Contents(q.params) == EncodePairs(pairs)
    && IsRecord(q.endParams) && q.endParams.kind == PARAMS && q.endParams.content == []
    && IsStream(q.body, STDIN)
    && IsRecord(q.endBody) && EndsRequest(q.endBody)
  }

  function Records(q: Request): seq<Record> {
    [q.begin] + (q.params + ([q.endParams] + (q.body + [q.endBody])))
  }

  lemma RequestRecords(q: Request, pairs: seq<Pair>)
    requires IsRequest(q, pairs)
    ensures OneRequest(Records(q))
  {
    var rs := Records(q);
    forall i | 0 <= i < |rs|
      ensures IsRecord(rs[i]) && (i < |rs| - 1 ==> !EndsRequest(rs[i]))
    {
      var n := 1 + |q.params|;
      assert i == 0 || 1 <= i < n || i == n || n < i < |rs| - 1 || i == |rs| - 1;
      assert 1 <= i < n ==> rs[i] == q.params[i - 1];
      assert n < i < |rs| - 1 ==> rs[i] == q.body[i - n - 1];
    }
  }

  lemma RequestEffect(q: Request, pairs: seq<Pair>, keepConn: bool)
    requires IsRequest(q, pairs)
    ensures var d := OnRecords(Codec(false, keepConn, [], [], map[]), Records(q));
            && d.params == Assigned(map[], pairs) && d.stdin == Contents(q.body)
            && d.keepConn == (q.begin.content[2] == KEEP_CONN)
  {
    var c := Codec(false, keepConn, [], [], map[]);
    var body := q.body + [q.endBody];
    var c1 := OnRecord(c, q.begin);
    OnRecordsConcat(c, [q.begin], q.params + ([q.endParams] + body));
    OnRecordsConcat(c1, q.params, [q.endParams] + body);
    ParamsGather(c1, q.params);
    var c2 := OnRecords(c1, q.params);
    OnRecordsConcat(c2, [q.endParams], body);
    assert [] + Contents(q.params) == EncodePairs(pairs);
    PairsRoundTrip(pairs, map[]);
    var c3 := OnRecord(c2, q.endParams);
    assert c3.params == Assigned(map[], pairs);
    OnRecordsConcat(c3, q.body, [q.endBody]);
    StdinGathers(c3, q.body);
    assert [] + Contents(q.body) == Contents(q.body);
    OneByOne(c, q.begin);
    OneByOne(c2, q.endParams);
    OneByOne(OnRecords(c3, q.body), q.endBody);
  }

  lemma OneByOne(c: Codec, r: Record)
    ensures OnRecords(c, [r]) == OnRecord(c, r)
  {
    assert [r][1..] == [];
  }

  /** Every well-formed request, however it is cut up, reaches the callback once with its pairs and its body. */
  lemma RequestReachesCallback(q: Request, pairs: seq<Pair>, keepConn: bool, chunks: seq<Bytes>)
    requires IsRequest(q, pairs)
    requires AreRecords(Records(q)) && Concat(chunks) == Encode(Records(q))
    requires forall i :: 0 <= i < |chunks| ==> chunks[i] != []
    ensures var c := Codec(false, keepConn, [], [], map[]);
            Feed(Session(c, [], []), chunks).events
              == [Event(Assigned(map[], pairs), Contents(q.body), q.begin.content[2] != KEEP_CONN)]
  {
    hide IsRequest, Encode;
    RequestRecords(q, pairs);
    RequestEffect(q, pairs, keepConn);
    AnyFragmentation(Codec(false, keepConn, [], [], map[]), [], Records(q), chunks);
  }

  // ---------------------------------------------------------------- responses

  /** -len & 7 on unsigned integers. */
  function Padding(n: nat): nat {
    (-(n as int)) % 8
  }

  function Zeros(n: nat): Bytes {
    seq(n, _ => 0)
  }

  function StdoutRecord(content: Bytes): Record {
    Record(1, STDOUT, 1, content, Zeros(Padding(|content|)), 0)
  }

  /** The protocol status and the application status of END_REQUEST, all zero. */
  const END_RECORD := Record(1, END_REQUEST, 1, Zeros(8), [], 0)

  const EMPTY_RESULT := "Empty Result!"

  /** The page sent in place of no output; its Content-Length is the length of EMPTY_RESULT. */
  function DefaultPage(): Bytes {
    Ascii("Content-Type: text/html; charset=UTF-8\r\n") + Ascii("Content-Length: 13\r\n\r\n") + Ascii(EMPTY_RESULT)
  }

  /** The page ends with its 13 bytes of body, after the digits 1 and 3 and two line ends. */
  lemma DefaultLength()
    ensures |EMPTY_RESULT| == 13
    ensures DefaultPage() != [] && Ascii(EMPTY_RESULT) == DefaultPage()[|DefaultPage()| - 13..]
    ensures var n := |DefaultPage()|;
            n >= 19 && DefaultPage()[n - 19..n - 13] == [49, 51, 13, 10, 13, 10]
  {
    var h := Ascii("Content-Length: 13\r\n\r\n");
    assert h[16] == 49 && h[17] == 51 && h[18] == 13 && h[19] == 10 && h[20] == 13 && h[21] == 10;
  }

  function Page(out: Bytes): Bytes {
    if out == [] then DefaultPage() else out
  }

  /** The output in records as long as they can be. */
  function StdoutRecords(out: Bytes): seq<Record>
    requires out != []
    decreases |out|
  {
    if |out| <= MAX_LENGTH then [StdoutRecord(out)]
    else [StdoutRecord(out[..MAX_LENGTH])] + StdoutRecords(out[MAX_LENGTH..])
  }

  function ResponseRecords(out: Bytes): seq<Record> {
    StdoutRecords(Page(out)) + [StdoutRecord([]), END_RECORD]
  }

  lemma RecordSize(content: Bytes)
    requires |content| <= MAX_LENGTH
    ensures IsRecord(StdoutRecord(content)) && |EncodeRecord(StdoutRecord(content))| % 8 == 0
  {
    assert (|content| + Padding(|content|)) % 8 == 0;
  }

  lemma {:induction false} StdoutFraming(out: Bytes)
    requires out != []
    ensures var rs := StdoutRecords(out);
            && AreRecords(rs) && Contents(rs) == out && rs != []
            && (forall i :: 0 <= i < |rs| ==> rs[i] == StdoutRecord(rs[i].content) && 0 < |rs[i].content| <= MAX_LENGTH)
            && (forall i :: 0 <= i < |rs| - 1 ==> |rs[i].content| == MAX_LENGTH)
    decreases |out|
  {
    hide EncodeRecord, StdoutRecord;
    StdoutFields();
    if |out| <= MAX_LENGTH {
      RecordSize(out);
      assert out + [] == out;
    } else {
      RecordSize(out[..MAX_LENGTH]);
      StdoutFraming(out[MAX_LENGTH..]);
      assert out[..MAX_LENGTH] + out[MAX_LENGTH..] == out;
    }
  }

  lemma StdoutFields()
    ensures forall content: Bytes :: StdoutRecord(content).content == content
  {
  }

  lemma StdoutRecordIs(content: Bytes)
    ensures var r := StdoutRecord(content);
            && r.version == 1 && r.kind == 6 && r.id == 1 && r.content == content
            && |r.padding| < 8 && (|content| + |r.padding|) % 8 == 0
            && forall i :: 0 <= i < |r.padding| ==> r.padding[i] == 0
  {
    assert (|content| + Padding(|content|)) % 8 == 0;
  }

  /**
   Decoding a response gives STDOUT records whose payloads are the output (or the default page), all non-empty and
   within 65535 bytes, then one empty STDOUT and one END_REQUEST; every record takes a multiple of 8 bytes.
   */
  lemma ResponseFraming(out: Bytes)
    ensures var rs := ResponseRecords(out);
            var n := |rs| - 2;
            && AreRecords(rs) && Decode(Encode(rs)) == (rs, [])
            && n >= 1 && Contents(rs[..n]) == (if out == [] then DefaultPage() else out)
            && (forall i :: 0 <= i < n ==> rs[i].kind == 6 && 0 < |rs[i].content| <= 65535)
            && (forall i :: 0 <= i < n - 1 ==> |rs[i].content| == 65535)
            && rs[n].kind == 6 && rs[n].content == []
            && rs[n + 1].kind == 3 && rs[n + 1].content == [0, 0, 0, 0, 0, 0, 0, 0]
            && (forall i :: 0 <= i < |rs| ==> rs[i].version == 1 && rs[i].id == 1 && |rs[i].padding| < 8)
            && (forall i :: 0 <= i < |rs| ==> |EncodeRecord(rs[i])| % 8 == 0)
  {
    DefaultLength();
    hide DefaultPage, StdoutRecord, EncodeRecord, Encode;
    var rs := ResponseRecords(out);
    var n := |rs| - 2;
    StdoutFraming(Page(out));
    assert rs[..n] == StdoutRecords(Page(out));
    EndRecordIs();
    forall i | 0 <= i < |rs|
      ensures IsRecord(rs[i]) && |EncodeRecord(rs[i])| % 8 == 0
      ensures rs[i].version == 1 && rs[i].id == 1 && |rs[i].padding| < 8 && (i <= n ==> rs[i].kind == 6)
    {
      if i <= n {
        ResponseRecordIs(out, i);
      }
    }
    ResponseRecordIs(out, n);
    NothingLeft(rs);
  }

  lemma NothingLeft(rs: seq<Record>)
    requires AreRecords(rs)
    ensures Decode(Encode(rs)) == (rs, [])
  {
    DecodeEncode(rs, []);
    assert Encode(rs) + [] == Encode(rs);
  }

  lemma EndRecordIs()
    ensures IsRecord(END_RECORD) && |EncodeRecord(END_RECORD)| % 8 == 0
    ensures END_RECORD == Record(1, 3, 1, [0, 0, 0, 0, 0, 0, 0, 0], [], 0)
  {
  }

  /** A STDOUT record of a response, the empty one included. */
  lemma ResponseRecordIs(out: Bytes, i: nat)
    requires i < |ResponseRecords(out)| - 1
    ensures var r := ResponseRecords(out)[i];
            && IsRecord(r) && |EncodeRecord(r)| % 8 == 0
            && r.version == 1 && r.id == 1 && r.kind == 6 && |r.padding| < 8
            && (i == |ResponseRecords(out)| - 2 ==> r.content == [])
  {
    DefaultLength();
    hide DefaultPage, StdoutRecord, EncodeRecord;
    var rs := ResponseRecords(out);
    StdoutFraming(Page(out));
    StdoutFields();
    var content := if i < |rs| - 2 then rs[i].content else [];
    assert rs[i] == StdoutRecord(content) && |content| <= MAX_LENGTH;
    RecordSize(content);
    StdoutRecordIs(content);
  }
}
