/**
 cgiServer/fastcgi.h: several requests on one connection. onMessage runs the callback at most once for a message, after
 all the complete records in it, so what happens depends on how the messages cut the stream.
 */
module FastCgiPipelining {
  import opened NetworkOrder
  import opened FastCgiSpec
  import opened FastCgiTheorems

  // ---------------------------------------------------------------- how often the callback runs

  /** How many requests the records complete. */
  function Ends(rs: seq<Record>): nat {
    if rs == [] then 0 else Ends(rs[..|rs| - 1]) + if EndsRequest(rs[|rs| - 1]) then 1 else 0
  }

  lemma {:induction false} EndsConcat(a: seq<Record>, b: seq<Record>)
    ensures Ends(a + b) == Ends(a) + Ends(b)
    decreases |b|
  {
    if b == [] {
      assert a + b == a;
    } else {
      var n := |b| - 1;
      EndsConcat(a, b[..n]);
      assert (a + b)[..|a + b| - 1] == a + b[..n];
    }
  }

  /** The records that chunk k completes. */
  function Arrived(chunks: seq<Bytes>, k: nat): seq<Record>
    requires k < |chunks|
  {
    Decode(Decode(Concat(chunks[..k])).1 + chunks[k]).0
  }

  lemma {:induction false} DecodeInPieces(s: Bytes, t: Bytes)
    ensures var (rs, rest) := Decode(s);
            var (more, left) := Decode(rest + t);
            Decode(s + t) == (rs + more, left)
    decreases |s|
  {
    hide RecordAt, TotalAt, HasRecord;
    if HasRecord(s) {
      HeadOfLonger(s, t);
      TotalIsPositive(s);
      var next := s[TotalAt(s)..];
      DecodeInPieces(next, t);
      var (rs, rest) := Decode(next);
      var (more, left) := Decode(rest + t);
      assert [RecordAt(s)] + (rs + more) == ([RecordAt(s)] + rs) + more;
    } else {
      var (more, left) := Decode(s + t);
      assert [] + more == more;
    }
  }

  lemma TotalIsPositive(s: Bytes)
    requires HasRecord(s)
    ensures |s| >= HEADER && 0 < TotalAt(s) <= |s|
  {
  }

  lemma {:induction false} GotExactly(c: Codec, rs: seq<Record>)
    ensures OnRecords(c, rs).gotRequest <==> c.gotRequest || Ends(rs) > 0
    decreases |rs|
  {
    if rs != [] {
      GotExactly(OnRecord(c, rs[0]), rs[1..]);
      assert [rs[0]] + rs[1..] == rs;
      EndsConcat([rs[0]], rs[1..]);
      assert [rs[0]][..0] == [];
      assert Ends([rs[0]]) == if EndsRequest(rs[0]) then 1 else 0;
    }
  }

  /** One message: the records it completes, and one callback if they complete a request. */
  lemma OneMessage(x: Session, chunk: Bytes)
    requires !x.codec.gotRequest
    ensures var (rs, rest) := Decode(x.buffered + chunk);
            var r := OnMessage(x, chunk);
            && r.buffered == rest && !r.codec.gotRequest
            && |r.events| == |x.events| + if Ends(rs) > 0 then 1 else 0
  {
    ParseIsDecode(x.codec, x.buffered + chunk);
    GotExactly(x.codec, Decode(x.buffered + chunk).0);
  }

  lemma {:induction false} FeedBuffers(c: Codec, chunks: seq<Bytes>)
    requires !c.gotRequest
    ensures var x := Feed(Session(c, [], []), chunks);
            !x.codec.gotRequest && x.buffered == Decode(Concat(chunks)).1
  {
    hide Decode, OnMessage;
    if chunks != [] {
      var n := |chunks| - 1;
      FeedBuffers(c, chunks[..n]);
      OneMessage(Feed(Session(c, [], []), chunks[..n]), chunks[n]);
      DecodeInPieces(Concat(chunks[..n]), chunks[n]);
    } else {
      NothingToDecode();
    }
  }

  lemma NothingToDecode()
    ensures Decode([]) == ([], [])
  {
  }

  predicate OneAtATime(chunks: seq<Bytes>) {
    forall k :: 0 <= k < |chunks| ==> Ends(Arrived(chunks, k)) <= 1
  }

  lemma OneAtATimeNext(chunks: seq<Bytes>)
    requires chunks != []
    ensures var n := |chunks| - 1;
            OneAtATime(chunks) <==> OneAtATime(chunks[..n]) && Ends(Arrived(chunks, n)) <= 1
  {
    hide Decode, Ends, Concat;
    var n := |chunks| - 1;
    assert forall k :: 0 <= k < n ==> chunks[..n][..k] == chunks[..k] && chunks[..n][k] == chunks[k];
    assert forall k :: 0 <= k < n ==> Arrived(chunks[..n], k) == Arrived(chunks, k);
  }

  /**
   For any bytes in any chunks the callback runs at most once for each request that they complete, and exactly once for
   each if and only if no chunk completes two.
   */
  lemma {:induction false} CallbacksExactly(c: Codec, chunks: seq<Bytes>)
    requires !c.gotRequest
    ensures var calls, requests := |Feed(Session(c, [], []), chunks).events|, Ends(Decode(Concat(chunks)).0);
            calls <= requests && (calls == requests <==> OneAtATime(chunks))
  {
    hide Decode, OnMessage, Ends;
    if chunks == [] {
      NothingToDecode();
      EndsOfNone();
    } else {
      var n := |chunks| - 1;
      CallbacksExactly(c, chunks[..n]);
      FeedBuffers(c, chunks[..n]);
      OneMessage(Feed(Session(c, [], []), chunks[..n]), chunks[n]);
      DecodeInPieces(Concat(chunks[..n]), chunks[n]);
      EndsConcat(Decode(Concat(chunks[..n])).0, Arrived(chunks, n));
      OneAtATimeNext(chunks);
    }
  }

  lemma EndsOfNone()
    ensures Ends([]) == 0
  {
  }

  // ---------------------------------------------------------------- sequences of requests

  predicate AreRequests(reqs: seq<seq<Record>>) {
    forall i :: 0 <= i < |reqs| ==> OneRequest(reqs[i])
  }

  function Joined(reqs: seq<seq<Record>>): seq<Record> {
    if reqs == [] then [] else Joined(reqs[..|reqs| - 1]) + reqs[|reqs| - 1]
  }

  lemma {:induction false} NoEnds(rs: seq<Record>)
    requires forall i :: 0 <= i < |rs| ==> !EndsRequest(rs[i])
    ensures Ends(rs) == 0
  {
    if rs != [] {
      NoEnds(rs[..|rs| - 1]);
    }
  }

  lemma {:induction false} JoinedEnds(reqs: seq<seq<Record>>)
    requires AreRequests(reqs)
    ensures AreRecords(Joined(reqs)) && Ends(Joined(reqs)) == |reqs|
  {
    if reqs != [] {
      var n := |reqs| - 1;
      JoinedEnds(reqs[..n]);
      EndsConcat(Joined(reqs[..n]), reqs[n]);
      assert OneRequest(reqs[n]);
      NoEnds(reqs[n][..|reqs[n]| - 1]);
    }
  }

  /** A stream of requests in any chunks: as many callbacks as requests if and only if no chunk completes two. */
  lemma RequestsCalledExactly(c: Codec, reqs: seq<seq<Record>>, chunks: seq<Bytes>)
    requires !c.gotRequest && AreRequests(reqs) && AreRecords(Joined(reqs)) && Concat(chunks) == Encode(Joined(reqs))
    ensures |Feed(Session(c, [], []), chunks).events| <= |reqs|
    ensures |Feed(Session(c, [], []), chunks).events| == |reqs| <==> OneAtATime(chunks)
  {
    hide Decode, Feed, OneAtATime;
    CallbacksExactly(c, chunks);
    JoinedEnds(reqs);
    NothingToDecode();
    DecodeEncode(Joined(reqs), []);
    assert Encode(Joined(reqs)) + [] == Encode(Joined(reqs));
  }

  // ---------------------------------------------------------------- what the callback gets

  datatype Service = Service(codec: Codec, events: seq<Event>)

  /** A codec that runs the callback as soon as a request is complete. */
  function ServeOne(v: Service, r: Record): Service {
    var c := OnRecord(v.codec, r);
    if c.gotRequest
    then Service(Codec(false, c.keepConn, [], [], map[]), v.events + [Event(c.params, c.stdin, !c.keepConn)])
    else v.(codec := c)
  }

  function Serve(v: Service, rs: seq<Record>): Service
    decreases |rs|
  {
    if rs == [] then v else Serve(ServeOne(v, rs[0]), rs[1..])
  }

  lemma {:induction false} ServeConcat(v: Service, a: seq<Record>, b: seq<Record>)
    ensures Serve(v, a + b) == Serve(Serve(v, a), b)
    decreases |a|
  {
    hide ServeOne;
    if a == [] {
      assert a + b == b;
    } else {
      ServeConcat(ServeOne(v, a[0]), a[1..], b);
      assert (a + b)[1..] == a[1..] + b;
    }
  }

  /** No record follows the end of a request. */
  predicate EndsLast(rs: seq<Record>) {
    forall i :: 0 <= i < |rs| - 1 ==> !EndsRequest(rs[i])
  }

  /** Serving records with at most one end, at the end, is handling them all and then running the callback. */
  lemma {:induction false} ServeAtEnd(v: Service, rs: seq<Record>)
    requires EndsLast(rs) && !v.codec.gotRequest
    ensures var c := OnRecords(v.codec, rs);
            Serve(v, rs) == if c.gotRequest
                            then Service(Codec(false, c.keepConn, [], [], map[]),
                                         v.events + [Event(c.params, c.stdin, !c.keepConn)])
                            else v.(codec := c)
    decreases |rs|
  {
    if rs != [] {
      StillOpen(v.codec, rs[0]);
      hide OnRecord;
      if |rs| > 1 {
        assert !EndsRequest(rs[0]);
        ServeAtEnd(v.(codec := OnRecord(v.codec, rs[0])), rs[1..]);
      }
    }
  }

  /** In no chunk does a complete record follow the end of a request. */
  predicate Aligned(chunks: seq<Bytes>) {
    forall k :: 0 <= k < |chunks| ==> EndsLast(Arrived(chunks, k))
  }

  lemma AlignedNext(chunks: seq<Bytes>)
    requires chunks != [] && Aligned(chunks)
    ensures var n := |chunks| - 1;
            Aligned(chunks[..n]) && EndsLast(Arrived(chunks, n))
  {
    hide Decode, Concat, EndsLast;
    var n := |chunks| - 1;
    assert forall k :: 0 <= k < n ==> chunks[..n][..k] == chunks[..k] && chunks[..n][k] == chunks[k];
    assert forall k :: 0 <= k < n ==> Arrived(chunks[..n], k) == Arrived(chunks, k);
  }

  /** Then the chunks do not matter: every request is served by itself, at its end. */
  lemma {:induction false} AlignedIsServed(c: Codec, chunks: seq<Bytes>)
    requires !c.gotRequest && Aligned(chunks)
    ensures var (rs, rest) := Decode(Concat(chunks));
            var v := Serve(Service(c, []), rs);
            Feed(Session(c, [], []), chunks) == Session(v.codec, rest, v.events)
  {
    hide Decode, Aligned, EndsLast, Arrived;
    if chunks == [] {
      NothingToDecode();
    } else {
      var n := |chunks| - 1;
      AlignedNext(chunks);
      AlignedIsServed(c, chunks[..n]);
      FeedBuffers(c, chunks[..n]);
      AlignedMessage(c, chunks);
    }
  }

  lemma AlignedMessage(c: Codec, chunks: seq<Bytes>)
    requires !c.gotRequest && chunks != [] && EndsLast(Arrived(chunks, |chunks| - 1))
    requires var (rs, rest) := Decode(Concat(chunks[..|chunks| - 1]));
             var v := Serve(Service(c, []), rs);
             && !v.codec.gotRequest
             && Feed(Session(c, [], []), chunks[..|chunks| - 1]) == Session(v.codec, rest, v.events)
    ensures var (rs, rest) := Decode(Concat(chunks));
            var v := Serve(Service(c, []), rs);
            Feed(Session(c, [], []), chunks) == Session(v.codec, rest, v.events)
  {
    hide Decode, Serve, EndsLast;
    var n := |chunks| - 1;
    var (rs, rest) := Decode(Concat(chunks[..n]));
    var v := Serve(Service(c, []), rs);
    DecodeInPieces(Concat(chunks[..n]), chunks[n]);
    ParseIsDecode(v.codec, rest + chunks[n]);
    ServeConcat(Service(c, []), rs, Arrived(chunks, n));
    ServeAtEnd(v, Arrived(chunks, n));
  }

  // ---------------------------------------------------------------- well-formed requests

  datatype Call = Call(request: Request, pairs: seq<Pair>)

  predicate AreCalls(calls: seq<Call>) {
    forall i :: 0 <= i < |calls| ==> IsRequest(calls[i].request, calls[i].pairs)
  }

  function RecordsOf(calls: seq<Call>): seq<Record> {
    if calls == [] then [] else RecordsOf(calls[..|calls| - 1]) + Records(calls[|calls| - 1].request)
  }

  /** What the callback should get for a request. */
  function OwnEvent(call: Call): Event
    requires IsRequest(call.request, call.pairs)
  {
    Event(Assigned(map[], call.pairs), Contents(call.request.body), call.request.begin.content[2] != KEEP_CONN)
  }

  function OwnEvents(calls: seq<Call>): seq<Event>
    requires AreCalls(calls)
  {
    if calls == [] then [] else OwnEvents(calls[..|calls| - 1]) + [OwnEvent(calls[|calls| - 1])]
  }

  lemma {:induction false} ServedOwn(calls: seq<Call>, keepConn: bool)
    requires AreCalls(calls)
    ensures AreRecords(RecordsOf(calls))
    ensures var v := Serve(Service(Codec(false, keepConn, [], [], map[]), []), RecordsOf(calls));
            v == Service(Codec(false, v.codec.keepConn, [], [], map[]), OwnEvents(calls))
  {
    hide Serve, IsRequest, Records;
    if calls == [] {
      ServeNone(Service(Codec(false, keepConn, [], [], map[]), []));
    } else {
      var n := |calls| - 1;
      var call := calls[n];
      ServedOwn(calls[..n], keepConn);
      var v := Serve(Service(Codec(false, keepConn, [], [], map[]), []), RecordsOf(calls[..n]));
      ServeConcat(Service(Codec(false, keepConn, [], [], map[]), []), RecordsOf(calls[..n]), Records(call.request));
      RequestRecords(call.request, call.pairs);
      RequestEffect(call.request, call.pairs, v.codec.keepConn);
      ServeAtEnd(v, Records(call.request));
      OpenUntilEnd(v.codec, Records(call.request));
    }
  }

  lemma ServeNone(v: Service)
    ensures Serve(v, []) == v
  {
  }

  /** Every request gets its own parameters and body if no chunk has a complete record after the end of a request. */
  lemma EachGetsItsOwn(calls: seq<Call>, keepConn: bool, chunks: seq<Bytes>)
    requires AreCalls(calls) && AreRecords(RecordsOf(calls)) && Concat(chunks) == Encode(RecordsOf(calls))
    requires Aligned(chunks)
    ensures Feed(Session(Codec(false, keepConn, [], [], map[]), [], []), chunks).events == OwnEvents(calls)
  {
    hide Decode, Feed, Aligned, Serve, Encode;
    AlignedIsServed(Codec(false, keepConn, [], [], map[]), chunks);
    ServedOwn(calls, keepConn);
    NothingToDecode();
    DecodeEncode(RecordsOf(calls), []);
    assert Encode(RecordsOf(calls)) + [] == Encode(RecordsOf(calls));
  }

  // ---------------------------------------------------------------- chunks that end where requests end

  function Flattened(groups: seq<seq<Bytes>>): seq<Bytes> {
    if groups == [] then [] else Flattened(groups[..|groups| - 1]) + groups[|groups| - 1]
  }

  /** Every request comes in chunks of its own. */
  predicate CutAtEnds(calls: seq<Call>, groups: seq<seq<Bytes>>)
    requires AreCalls(calls)
  {
    && |groups| == |calls|
    && forall i :: 0 <= i < |groups| ==>
         && AreRecords(Records(calls[i].request)) && Concat(groups[i]) == Encode(Records(calls[i].request))
         && forall j :: 0 <= j < |groups[i]| ==> groups[i][j] != []
  }

  lemma {:induction false} FeedConcat(x: Session, a: seq<Bytes>, b: seq<Bytes>)
    ensures Feed(x, a + b) == Feed(Feed(x, a), b)
    decreases |b|
  {
    hide OnMessage;
    if b == [] {
      assert a + b == a;
    } else {
      var n := |b| - 1;
      FeedConcat(x, a, b[..n]);
      assert (a + b)[..|a + b| - 1] == a + b[..n];
    }
  }

  /** If every request end is a chunk end, every request gets its own parameters and body. */
  lemma {:induction false} CutAtEndsIsServed(calls: seq<Call>, groups: seq<seq<Bytes>>, keepConn: bool)
    requires AreCalls(calls) && CutAtEnds(calls, groups)
    ensures var x := Feed(Session(Codec(false, keepConn, [], [], map[]), [], []), Flattened(groups));
            x == Session(Codec(false, x.codec.keepConn, [], [], map[]), [], OwnEvents(calls))
    decreases |calls|
  {
    hide IsRequest, Records, Encode, OneRequest;
    if calls != [] {
      var n := |calls| - 1;
      var call := calls[n];
      CutAtEndsIsServed(calls[..n], groups[..n], keepConn);
      var x := Feed(Session(Codec(false, keepConn, [], [], map[]), [], []), Flattened(groups[..n]));
      FeedConcat(Session(Codec(false, keepConn, [], [], map[]), [], []), Flattened(groups[..n]), groups[n]);
      RequestRecords(call.request, call.pairs);
      RequestEffect(call.request, call.pairs, x.codec.keepConn);
      AnyFragmentation(x.codec, x.events, Records(call.request), groups[n]);
    }
  }

  // ---------------------------------------------------------------- a chunk that crosses the end

  function EventOf(c: Codec): Event {
    Event(c.params, c.stdin, !c.keepConn)
  }

  function Reset(c: Codec): Codec {
    Codec(false, c.keepConn, [], [], map[])
  }

  /**
   A message with all of one request and the first records of the next: the first callback gets what both leave, and
   the second what the other records leave, since the reset drops the first ones.
   */
  lemma Crossing(c: Codec, a: seq<Record>, b: seq<Record>, n: nat)
    requires OneRequest(a) && OneRequest(b) && n < |b| && !c.gotRequest
    requires AreRecords(a + b[..n]) && AreRecords(b[n..])
    ensures var c1 := OnRecords(c, a + b[..n]);
            var c2 := OnRecords(Reset(c1), b[n..]);
            Feed(Session(c, [], []), [Encode(a + b[..n]), Encode(b[n..])]).events == [EventOf(c1), EventOf(c2)]
  {
    hide Encode, Parse, OnRecord;
    var m1, m2 := Encode(a + b[..n]), Encode(b[n..]);
    var x := Session(c, [], []);
    var c1 := OnRecords(c, a + b[..n]);
    ParseWhole(c, a + b[..n]);
    OnRecordsConcat(c, a, b[..n]);
    OpenUntilEnd(c, a);
    OnceGot(OnRecords(c, a), b[..n]);
    assert [] + m1 == m1 && [] + m2 == m2;
    var x1 := OnMessage(x, m1);
    assert x1 == Session(Reset(c1), [], [EventOf(c1)]);
    ParseWhole(Reset(c1), b[n..]);
    OpenUntilEnd(Reset(c1), b[n..]);
    FeedTwo(x, m1, m2);
  }

  lemma FeedTwo(x: Session, m1: Bytes, m2: Bytes)
    ensures Feed(x, [m1, m2]) == OnMessage(OnMessage(x, m1), m2)
  {
    hide OnMessage;
    assert [m1, m2][..1] == [m1] && [m1][..0] == [];
    assert Feed(x, [m1]) == OnMessage(x, m1);
  }

  /**
   If the parameters of the second request come with the end of the first they are lost, so the second request gets its
   own exactly if it has none.
   */
  lemma CrossingLosesParams(a: seq<Record>, call: Call, keepConn: bool)
    requires OneRequest(a) && IsRequest(call.request, call.pairs)
    requires var q := call.request;
             AreRecords(a + ([q.begin] + q.params)) && AreRecords([q.endParams] + (q.body + [q.endBody]))
    ensures var q := call.request;
            var events := Feed(Session(Codec(false, keepConn, [], [], map[]), [], []),
                               [Encode(a + ([q.begin] + q.params)),
                                Encode([q.endParams] + (q.body + [q.endBody]))]).events;
            && |events| == 2 && events[1].params == map[] && events[1].body == Contents(q.body)
            && (events[1].params == OwnEvent(call).params <==> call.pairs == [])
  {
    var q := call.request;
    var c := Codec(false, keepConn, [], [], map[]);
    var first, last := [q.begin] + q.params, [q.endParams] + (q.body + [q.endBody]);
    RequestRecords(q, call.pairs);
    hide IsRequest, OneRequest, Feed;
    assert Records(q) == first + last;
    assert Records(q)[..|first|] == first && Records(q)[|first|..] == last;
    Crossing(c, a, Records(q), |first|);
    WithoutParams(call, OnRecords(c, a + first).keepConn);
    AssignedKeeps(map[], call.pairs);
  }

  lemma WithoutParams(call: Call, keepConn: bool)
    requires IsRequest(call.request, call.pairs)
    ensures var q := call.request;
            var c := OnRecords(Codec(false, keepConn, [], [], map[]), [q.endParams] + (q.body + [q.endBody]));
            c.params == map[] && c.stdin == Contents(q.body)
  {
    var q := call.request;
    var c := Codec(false, keepConn, [], [], map[]);
    OnRecordsConcat(c, [q.endParams], q.body + [q.endBody]);
    OneByOne(c, q.endParams);
    assert OnRecord(c, q.endParams) == c;
    OnRecordsConcat(c, q.body, [q.endBody]);
    StdinGathers(c, q.body);
    OneByOne(OnRecords(c, q.body), q.endBody);
    assert [] + Contents(q.body) == Contents(q.body);
  }

  lemma {:induction false} AssignedKeeps(m: ParamMap, ps: seq<Pair>)
    ensures m.Keys <= Assigned(m, ps).Keys
    ensures ps != [] ==> Assigned(m, ps) != map[]
    decreases |ps|
  {
    if ps != [] {
      AssignedKeeps(m[ps[0].name := ps[0].value], ps[1..]);
      assert ps[0].name in Assigned(m, ps).Keys;
    }
  }

  // ---------------------------------------------------------------- any chunks, exactly

  /** One message: all its records, then at most one callback and the reset. */
  function ServeMessage(v: Service, rs: seq<Record>): Service {
    var c := OnRecords(v.codec, rs);
    if c.gotRequest then Service(Reset(c), v.events + [EventOf(c)]) else v.(codec := c)
  }

  function ServeMessages(v: Service, chunks: seq<Bytes>, k: nat): Service
    requires k <= |chunks|
  {
    if k == 0 then v else ServeMessage(ServeMessages(v, chunks, k - 1), Arrived(chunks, k - 1))
  }

  /** For any bytes in any chunks, the callbacks are those of the messages' records, one message after the other. */
  lemma {:induction false} FeedIsFold(c: Codec, chunks: seq<Bytes>, k: nat)
    requires !c.gotRequest && k <= |chunks|
    ensures var v := ServeMessages(Service(c, []), chunks, k);
            Feed(Session(c, [], []), chunks[..k]) == Session(v.codec, Decode(Concat(chunks[..k])).1, v.events)
  {
    hide Decode, OnRecords;
    if k == 0 {
      NothingToDecode();
    } else {
      FeedIsFold(c, chunks, k - 1);
      assert chunks[..k][..k - 1] == chunks[..k - 1] && chunks[..k][k - 1] == chunks[k - 1];
      var v := ServeMessages(Service(c, []), chunks, k - 1);
      var rest := Decode(Concat(chunks[..k - 1])).1;
      ParseIsDecode(v.codec, rest + chunks[k - 1]);
      DecodeInPieces(Concat(chunks[..k - 1]), chunks[k - 1]);
    }
  }

  // ---------------------------------------------------------------- two requests, cut anywhere

  function KeepsConn(q: Request): bool
    requires |q.begin.content| >= HEADER
  {
    q.begin.content[2] == KEEP_CONN
  }

  /** The first records of a request, cut among its parameters or after them. */
  function HeadInParams(q: Request, i: nat): seq<Record>
    requires i <= |q.params|
  {
    [q.begin] + q.params[..i]
  }

  function TailFromParams(q: Request, i: nat): seq<Record>
    requires i <= |q.params|
  {
    q.params[i..] + ([q.endParams] + (q.body + [q.endBody]))
  }

  function HeadInBody(q: Request, j: nat): seq<Record>
    requires j <= |q.body|
  {
    [q.begin] + (q.params + ([q.endParams] + q.body[..j]))
  }

  function TailFromBody(q: Request, j: nat): seq<Record>
    requires j <= |q.body|
  {
    q.body[j..] + [q.endBody]
  }

  lemma Cuts(q: Request)
    ensures forall i :: 0 <= i <= |q.params| ==> HeadInParams(q, i) + TailFromParams(q, i) == Records(q)
    ensures forall j :: 0 <= j <= |q.body| ==> HeadInBody(q, j) + TailFromBody(q, j) == Records(q)
  {
    forall i | 0 <= i <= |q.params|
      ensures HeadInParams(q, i) + TailFromParams(q, i) == Records(q)
    {
      assert q.params[..i] + q.params[i..] == q.params;
    }
    forall j | 0 <= j <= |q.body|
      ensures HeadInBody(q, j) + TailFromBody(q, j) == Records(q)
    {
      assert q.body[..j] + q.body[j..] == q.body;
    }
  }

  lemma BeginEffect(c: Codec, call: Call, rs: seq<Record>)
    requires IsRequest(call.request, call.pairs)
    ensures OnRecords(c, [call.request.begin] + rs) == OnRecords(c.(keepConn := KeepsConn(call.request)), rs)
  {
    OnRecordsConcat(c, [call.request.begin], rs);
    OneByOne(c, call.request.begin);
  }

  lemma HeadInParamsEffect(c: Codec, call: Call, i: nat)
    requires IsRequest(call.request, call.pairs) && i <= |call.request.params|
    ensures OnRecords(c, HeadInParams(call.request, i))
         == c.(keepConn := KeepsConn(call.request), paramsStream := c.paramsStream + Contents(call.request.params[..i]))
  {
    BeginEffect(c, call, call.request.params[..i]);
    ParamsGather(c.(keepConn := KeepsConn(call.request)), call.request.params[..i]);
  }

  lemma BodyEffect(c: Codec, body: seq<Record>, end: Record)
    requires IsStream(body, STDIN) && EndsRequest(end)
    ensures OnRecords(c, body + [end]) == c.(stdin := c.stdin + Contents(body), gotRequest := true)
  {
    OnRecordsConcat(c, body, [end]);
    StdinGathers(c, body);
    OneByOne(c.(stdin := c.stdin + Contents(body)), end);
  }

  lemma ParamsEffect(c: Codec, params: seq<Record>, end: Record, rs: seq<Record>)
    requires IsStream(params, PARAMS) && end.kind == PARAMS && end.content == []
    ensures var p := ParseParams(c.paramsStream + Contents(params), c.params);
            OnRecords(c, params + ([end] + rs)) == OnRecords(c.(paramsStream := p.rest, params := p.params), rs)
  {
    OnRecordsConcat(c, params, [end] + rs);
    ParamsGather(c, params);
    var d := c.(paramsStream := c.paramsStream + Contents(params));
    OnRecordsConcat(d, [end], rs);
    OneByOne(d, end);
  }

  lemma TailFromParamsEffect(keepConn: bool, call: Call, i: nat)
    requires IsRequest(call.request, call.pairs) && i <= |call.request.params|
    ensures var p := ParseParams(Contents(call.request.params[i..]), map[]);
            OnRecords(Codec(false, keepConn, [], [], map[]), TailFromParams(call.request, i))
              == Codec(true, keepConn, Contents(call.request.body), p.rest, p.params)
  {
    var q := call.request;
    var c := Codec(false, keepConn, [], [], map[]);
    ParamsEffect(c, q.params[i..], q.endParams, q.body + [q.endBody]);
    var s := Contents(q.params[i..]);
    assert [] + s == s && [] + Contents(q.body) == Contents(q.body);
    var p := ParseParams(s, map[]);
    BodyEffect(c.(paramsStream := p.rest, params := p.params), q.body, q.endBody);
  }

  lemma HeadInBodyEffect(c: Codec, call: Call, j: nat)
    requires IsRequest(call.request, call.pairs) && j <= |call.request.body| && c.paramsStream == []
    ensures OnRecords(c, HeadInBody(call.request, j))
         == c.(keepConn := KeepsConn(call.request), params := Assigned(c.params, call.pairs),
               stdin := c.stdin + Contents(call.request.body[..j]))
  {
    var q := call.request;
    BeginEffect(c, call, q.params + ([q.endParams] + q.body[..j]));
    var d := c.(keepConn := KeepsConn(q));
    ParamsEffect(d, q.params, q.endParams, q.body[..j]);
    assert [] + Contents(q.params) == EncodePairs(call.pairs);
    PairsRoundTrip(call.pairs, c.params);
    StdinGathers(d.(params := Assigned(c.params, call.pairs)), q.body[..j]);
  }

  /** A whole request on a codec with no parameters pending. */
  lemma WholeEffect(keepConn: bool, call: Call)
    requires IsRequest(call.request, call.pairs)
    ensures OnRecords(Codec(false, keepConn, [], [], map[]), Records(call.request))
         == Codec(true, KeepsConn(call.request), Contents(call.request.body), [], Assigned(map[], call.pairs))
  {
    var q := call.request;
    var c := Codec(false, keepConn, [], [], map[]);
    Cuts(q);
    OnRecordsConcat(c, HeadInParams(q, 0), TailFromParams(q, 0));
    HeadInParamsEffect(c, call, 0);
    assert q.params[..0] == [] && q.params[0..] == q.params;
    TailFromParamsEffect(KeepsConn(q), call, 0);
    PairsRoundTrip(call.pairs, map[]);
  }

  /** One message with all of a and the head of b, and the rest of b in any chunks. */
  function TwoRequests(keepConn: bool, a: Call, head: seq<Record>, chunks: seq<Bytes>): seq<Event>
    requires AreRecords(Records(a.request) + head)
  {
    Feed(Session(Codec(false, keepConn, [], [], map[]), [], []), [Encode(Records(a.request) + head)] + chunks).events
  }

  /** The rest of a request that was cut, in any chunks. */
  predicate InChunks(tail: seq<Record>, chunks: seq<Bytes>) {
    && AreRecords(tail) && Concat(chunks) == Encode(tail)
    && forall i :: 0 <= i < |chunks| ==> chunks[i] != []
  }

  lemma TailEnds(q: Request, head: seq<Record>, tail: seq<Record>)
    requires OneRequest(Records(q)) && head + tail == Records(q) && tail != []
    ensures OneRequest(tail) && AreRecords(head)
  {
    var n := |head|;
    assert forall i :: 0 <= i < |tail| ==> tail[i] == Records(q)[n + i];
    assert forall i :: 0 <= i < |head| ==> head[i] == Records(q)[i];
  }

  /** What the two callbacks get, wherever the first message cuts the second request. */
  lemma TwoCallbacks(keepConn: bool, a: Call, b: Call, head: seq<Record>, tail: seq<Record>, chunks: seq<Bytes>)
    requires IsRequest(a.request, a.pairs) && IsRequest(b.request, b.pairs)
    requires head + tail == Records(b.request) && tail != [] && InChunks(tail, chunks)
    requires AreRecords(Records(a.request) + head)
    ensures var d := Codec(true, KeepsConn(a.request), Contents(a.request.body), [], Assigned(map[], a.pairs));
            var c1 := OnRecords(d, head);
            var c2 := OnRecords(Reset(c1), tail);
            TwoRequests(keepConn, a, head, chunks) == [EventOf(c1), EventOf(c2)]
  {
    RequestRecords(b.request, b.pairs);
    TailEnds(b.request, head, tail);
    FirstMessage(keepConn, a, head);
    hide IsRequest, OneRequest, Encode, Records, OnRecords, OnMessage, Feed, Contents, Assigned, Concat;
    var c := Codec(false, keepConn, [], [], map[]);
    var d := Codec(true, KeepsConn(a.request), Contents(a.request.body), [], Assigned(map[], a.pairs));
    var c1 := OnRecords(d, head);
    FeedConcat(Session(c, [], []), [Encode(Records(a.request) + head)], chunks);
    InAnyChunks(Reset(c1), [EventOf(c1)], tail, chunks);
  }

  lemma InAnyChunks(c: Codec, events: seq<Event>, rs: seq<Record>, chunks: seq<Bytes>)
    requires OneRequest(rs) && !c.gotRequest && InChunks(rs, chunks)
    ensures Feed(Session(c, [], events), chunks).events == events + [EventOf(OnRecords(c, rs))]
  {
    hide OneRequest, OnRecords, Encode;
    AnyFragmentation(c, events, rs, chunks);
  }

  lemma FirstMessage(keepConn: bool, a: Call, head: seq<Record>)
    requires IsRequest(a.request, a.pairs) && AreRecords(Records(a.request) + head)
    ensures var d := Codec(true, KeepsConn(a.request), Contents(a.request.body), [], Assigned(map[], a.pairs));
            var c1 := OnRecords(d, head);
            Feed(Session(Codec(false, keepConn, [], [], map[]), [], []), [Encode(Records(a.request) + head)])
              == Session(Reset(c1), [], [EventOf(c1)])
  {
    var c := Codec(false, keepConn, [], [], map[]);
    WholeEffect(keepConn, a);
    var rs := Records(a.request);
    OnRecordsConcat(c, rs, head);
    OnceGot(OnRecords(c, rs), head);
    ParseWhole(c, rs + head);
    var m := Encode(rs + head);
    assert [] + m == m;
    hide IsRequest, Encode, Parse, OnRecords, Records;
    FeedOne(Session(c, [], []), m);
  }

  lemma FeedOne(x: Session, m: Bytes)
    ensures Feed(x, [m]) == OnMessage(x, m)
  {
    hide OnMessage;
    assert [m][..0] == [];
  }

  /**
   Cut among the parameters of the second request, both get their own arguments if and only if their KEEP_CONN flags
   agree and what is left of the parameter stream still gives the same map.
   */
  lemma CutInParamsExactly(keepConn: bool, a: Call, b: Call, i: nat, chunks: seq<Bytes>)
    requires IsRequest(a.request, a.pairs) && IsRequest(b.request, b.pairs) && i <= |b.request.params|
    requires InChunks(TailFromParams(b.request, i), chunks)
    requires AreRecords(Records(a.request) + HeadInParams(b.request, i))
    ensures TwoRequests(keepConn, a, HeadInParams(b.request, i), chunks) == [OwnEvent(a), OwnEvent(b)] <==>
            && KeepsConn(a.request) == KeepsConn(b.request)
            && ParseParams(Contents(b.request.params[i..]), map[]).params == Assigned(map[], b.pairs)
  {
    var q := b.request;
    Cuts(q);
    TwoCallbacks(keepConn, a, b, HeadInParams(q, i), TailFromParams(q, i), chunks);
    HeadInParamsEffect(Codec(true, KeepsConn(a.request), Contents(a.request.body), [], Assigned(map[], a.pairs)), b, i);
    TailFromParamsEffect(KeepsConn(q), b, i);
    hide TwoRequests, OnRecords, Contents, Assigned, ParseParams, HeadInParams, TailFromParams;
  }

  /** Cut after the parameters of the second request, the first gets them too, the second only the rest of its body. */
  lemma CutInBodyGives(keepConn: bool, a: Call, b: Call, j: nat, chunks: seq<Bytes>)
    requires IsRequest(a.request, a.pairs) && IsRequest(b.request, b.pairs) && j <= |b.request.body|
    requires InChunks(TailFromBody(b.request, j), chunks)
    requires AreRecords(Records(a.request) + HeadInBody(b.request, j))
    ensures var q := b.request;
            TwoRequests(keepConn, a, HeadInBody(q, j), chunks)
              == [Event(Assigned(Assigned(map[], a.pairs), b.pairs),
                        Contents(a.request.body) + Contents(q.body[..j]), !KeepsConn(q)),
                  Event(map[], Contents(q.body[j..]), !KeepsConn(q))]
  {
    var q := b.request;
    Cuts(q);
    TwoCallbacks(keepConn, a, b, HeadInBody(q, j), TailFromBody(q, j), chunks);
    HeadInBodyEffect(Codec(true, KeepsConn(a.request), Contents(a.request.body), [], Assigned(map[], a.pairs)), b, j);
    BodyEffect(Codec(false, KeepsConn(q), [], [], map[]), q.body[j..], q.endBody);
    var cb := Contents(q.body[j..]);
    assert [] + cb == cb;
    hide IsRequest, TwoRequests, OnRecords, Contents, Assigned, HeadInBody;
  }

  lemma BodySplit(body: seq<Record>, j: nat)
    requires IsStream(body, STDIN) && j <= |body|
    ensures Contents(body) == Contents(body[..j]) + Contents(body[j..]) && (Contents(body[..j]) == [] <==> j == 0)
  {
    ContentsEmpty(body[..j]);
    hide Contents, IsStream;
    assert body == body[..j] + body[j..];
    ContentsConcat(body[..j], body[j..]);
  }

  /**
   So both get their own arguments if and only if the second has no parameters, no record of its body came with the
   first message, and the KEEP_CONN flags agree.
   */
  lemma CutInBodyExactly(keepConn: bool, a: Call, b: Call, j: nat, chunks: seq<Bytes>)
    requires IsRequest(a.request, a.pairs) && IsRequest(b.request, b.pairs) && j <= |b.request.body|
    requires InChunks(TailFromBody(b.request, j), chunks)
    requires AreRecords(Records(a.request) + HeadInBody(b.request, j))
    ensures TwoRequests(keepConn, a, HeadInBody(b.request, j), chunks) == [OwnEvent(a), OwnEvent(b)] <==>
            b.pairs == [] && j == 0 && KeepsConn(a.request) == KeepsConn(b.request)
  {
    CutInBodyGives(keepConn, a, b, j, chunks);
    AssignedKeeps(map[], b.pairs);
    BodySplit(b.request.body, j);
    hide IsRequest, TwoRequests, Contents, HeadInBody, TailFromBody, InChunks, Records;
    var ca, cb, cj := Contents(a.request.body), Contents(b.request.body[j..]), Contents(b.request.body[..j]);
    if cj == [] {
      assert ca + cj == ca && cj + cb == cb;
    } else {
      assert |ca + cj| != |ca|;
    }
  }

  lemma {:induction false} ContentsConcat(a: seq<Record>, b: seq<Record>)
    ensures Contents(a + b) == Contents(a) + Contents(b)
    decreases |a|
  {
    if a == [] {
      assert a + b == b;
    } else {
      ContentsConcat(a[1..], b);
      assert (a + b)[1..] == a[1..] + b;
    }
  }

  lemma ContentsEmpty(rs: seq<Record>)
    requires forall i :: 0 <= i < |rs| ==> rs[i].content != []
    ensures Contents(rs) == [] <==> rs == []
  {
  }
}
