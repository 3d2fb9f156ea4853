/**
 cgiServer/fastcgi.h and cgiServer/fastcgi.cpp in their own form: an object with two buffers, and loops that
 consume and append bytes, proved equal to the functions of FastCgiSpec.
 */
module FastCgiCodecs {
  import opened Options
  import opened NetworkOrder
  import opened NetBuffers
  import opened FastCgiSpec
  import opened FastCgiTheorems

  class FastCgiCodec {
    var gotRequest: bool
    var keepConn: bool
    const stdin: Buffer
    const paramsStream: Buffer
    var params: ParamMap

    ghost predicate Valid()
      reads this, stdin, paramsStream
    {
      stdin != paramsStream && stdin.Valid() && paramsStream.Valid()
    }

    ghost function View(): Codec
      requires Valid()
      reads this, stdin, paramsStream
    {
      Codec(gotRequest, keepConn, stdin.Contents(), paramsStream.Contents(), params)
    }

    constructor ()
      ensures Valid() && fresh(stdin) && fresh(paramsStream)
      ensures View() == Codec(false, false, [], [], map[])
    {
      gotRequest, keepConn := false, false;
      stdin := new Buffer(INITIAL_SIZE);
      paramsStream := new Buffer(INITIAL_SIZE);
      params := map[];
    }

    // -------------------------------------------------------------- name-value pairs

    method ReadLen() returns (n: nat)
      requires Valid()
      modifies paramsStream
      ensures Valid()
      ensures (n, paramsStream.Contents()) == FastCgiSpec.ReadLen(old(paramsStream.Contents()))
    {
      ghost var s := paramsStream.Contents();
      if paramsStream.ReadableBytes() >= 1 {
        var byte := Unsigned8(paramsStream.PeekInt(1));
        FirstByte(paramsStream.data[paramsStream.reader..paramsStream.reader + 1]);
        assert byte == s[0];
        if byte >= 128 {
          if paramsStream.ReadableBytes() >= 4 {
            var x := paramsStream.ReadInt(4);
            n := x % 0x80000000;
            MaskHighBit(s[..4]);
          } else {
            n := NO_LENGTH;
          }
        } else {
          var x := paramsStream.ReadInt(1);
          FirstByte(s[..1]);
          n := x;
        }
      } else {
        n := NO_LENGTH;
      }
    }

    method ParseAllParams() returns (ok: bool)
      requires Valid()
      modifies this`params, paramsStream
      ensures Valid()
      ensures Parsed(ok, paramsStream.Contents(), params) == ParseParams(old(paramsStream.Contents()), old(params))
    {
      hide FastCgiSpec.ReadLen;
      while paramsStream.ReadableBytes() > 0
        invariant Valid()
        invariant ParseParams(paramsStream.Contents(), params) == ParseParams(old(paramsStream.Contents()), old(params))
        decreases paramsStream.ReadableBytes()
      {
        LengthsAreSafe(paramsStream.Contents());
        var nameLen := ReadLen();
        if nameLen == NO_LENGTH {
          return false;
        }
        LengthsAreSafe(paramsStream.Contents());
        var valueLen := ReadLen();
        if valueLen == NO_LENGTH {
          return false;
        }
        var total := (nameLen + valueLen) % 0x100000000;
        assert total == nameLen + valueLen;
        if paramsStream.ReadableBytes() >= total {
          ghost var s := paramsStream.Contents();
          var name := paramsStream.RetrieveAsString(nameLen);
          var value := paramsStream.RetrieveAsString(valueLen);
          assert value == s[nameLen..nameLen + valueLen];
          assert paramsStream.Contents() == s[nameLen + valueLen..];
          params := params[name := value];
        } else {
          return false;
        }
      }
      return true;
    }

    // -------------------------------------------------------------- records

    method OnParams(content: Bytes) returns (ok: bool)
      requires Valid()
      modifies this`params, paramsStream
      ensures Valid() && View() == FastCgiSpec.OnParams(old(View()), content)
    {
      ok := true;
      if |content| > 0 {
        paramsStream.Append(content);
      } else {
        ok := ParseAllParams();
      }
    }

    method OnStdin(content: Bytes)
      requires Valid()
      modifies this`gotRequest, stdin
      ensures Valid() && View() == FastCgiSpec.OnStdin(old(View()), content)
    {
      if |content| > 0 {
        stdin.Append(content);
      } else {
        gotRequest := true;
      }
    }

    method OnBeginRequest(content: Bytes) returns (ok: bool)
      requires Valid()
      modifies this`keepConn
      ensures Valid() && View() == FastCgiSpec.OnBeginRequest(old(View()), content)
    {
      if |content| >= HEADER {
        var role := FromBytes(content[..2]);
        var flags := content[2];
        if role == RESPONDER {
          keepConn := flags == KEEP_CONN;
          return true;
        }
      }
      return false;
    }

    /** Consumes every complete record of buf. */
    method ParseRequest(buf: Buffer)
      requires Valid() && buf.Valid() && buf != stdin && buf != paramsStream
      modifies this, stdin, paramsStream, buf
      ensures Valid() && buf.Valid()
      ensures (View(), buf.Contents()) == Parse(old(View()), old(buf.Contents()))
    {
      while buf.ReadableBytes() >= HEADER
        invariant Valid() && buf.Valid()
        invariant Parse(View(), buf.Contents()) == Parse(old(View()), old(buf.Contents()))
        decreases buf.ReadableBytes()
      {
        var s := buf.Contents();
        var length := FromBytes(s[4..6]);
        var total := HEADER + length + s[6];
        if buf.ReadableBytes() >= total {
          Dispatch(s[1], s[HEADER..HEADER + length], RecordAt(s));
          buf.Retrieve(total);
        } else {
          break;
        }
      }
    }

    /** The switch of parseRequest; the record that it is given is a ghost. */
    method Dispatch(kind: Byte, content: Bytes, ghost r: Record)
      requires Valid() && r.kind == kind && r.content == content
      modifies this, stdin, paramsStream
      ensures Valid() && View() == OnRecord(old(View()), r)
    {
      if kind == BEGIN_REQUEST {
        var _ := OnBeginRequest(content);
      } else if kind == PARAMS {
        var _ := OnParams(content);
      } else if kind == STDIN {
        OnStdin(content);
      }
    }

    /** onMessage: the callback is what is returned. */
    method OnMessage(buf: Buffer) returns (event: Option<Event>)
      requires Valid() && buf.Valid() && buf != stdin && buf != paramsStream
      modifies this, stdin, paramsStream, buf
      ensures Valid() && buf.Valid()
      ensures Session(View(), buf.Contents(), if event.Some? then [event.value] else [])
           == FastCgiTheorems.OnMessage(Session(old(View()), old(buf.Contents()), []), [])
    {
      assert buf.Contents() + [] == buf.Contents();
      event := None;
      ParseRequest(buf);
      if gotRequest {
        event := Some(Event(params, stdin.Contents(), !keepConn));
        stdin.RetrieveAll();
        paramsStream.RetrieveAll();
        params := map[];
        gotRequest := false;
      }
    }

    // -------------------------------------------------------------- responses

    static method AppendRecord(r: Record, response: Buffer)
      requires IsRecord(r) && response.Valid()
      modifies response
      ensures response.Valid() && response.Contents() == old(response.Contents()) + EncodeRecord(r)
    {
      response.Append([r.version, r.kind] + ToBytes(r.id, 2) + ToBytes(|r.content|, 2) + [|r.padding|, r.unused]);
      response.Append(r.content);
      response.Append(r.padding);
    }

    /** respond: appends the framed response to out. */
    static method Respond(out: Bytes, response: Buffer)
      requires response.Valid()
      modifies response
      ensures AreRecords(ResponseRecords(out))
      ensures response.Valid() && response.Contents() == old(response.Contents()) + Encode(ResponseRecords(out))
    {
      hide EncodeRecord, Encode, StdoutRecords, DefaultPage, StdoutRecord;
      DefaultLength();
      var page := if out == [] then DefaultPage() else out;
      EncodeResponse(page);
      RespondStdout(page, response);
      EndStdout(response);
      EndRequest(response);
    }

    static method RespondStdout(page: Bytes, response: Buffer)
      requires response.Valid() && page != []
      modifies response
      ensures AreRecords(StdoutRecords(page))
      ensures response.Valid() && response.Contents() == old(response.Contents()) + Encode(StdoutRecords(page))
    {
      hide EncodeRecord, Encode, StdoutRecords, StdoutRecord;
      if |page| <= MAX_LENGTH {
        RecordSize(page);
        AppendRecord(StdoutRecord(page), response);
        EncodeShort(page);
      } else {
        RespondInPieces(page, response);
      }
    }

    static method EndStdout(buf: Buffer)
      requires buf.Valid()
      modifies buf
      ensures IsRecord(StdoutRecord([])) && buf.Valid()
      ensures buf.Contents() == old(buf.Contents()) + EncodeRecord(StdoutRecord([]))
    {
      RecordSize([]);
      AppendRecord(StdoutRecord([]), buf);
    }

    static method EndRequest(buf: Buffer)
      requires buf.Valid()
      modifies buf
      ensures buf.Valid() && buf.Contents() == old(buf.Contents()) + EncodeRecord(END_RECORD)
    {
      var header := [1, END_REQUEST] + ToBytes(1, 2) + ToBytes(8, 2) + [0, 0];
      buf.Append(header);
      buf.AppendInt(0, 4);
      buf.AppendInt(0, 4);
      EncodeEnd();
    }

    /** The loop over full records, and the shorter record after them. */
    static method RespondInPieces(page: Bytes, response: Buffer)
      requires response.Valid() && |page| > MAX_LENGTH
      modifies response
      ensures AreRecords(StdoutRecords(page))
      ensures response.Valid() && response.Contents() == old(response.Contents()) + Encode(StdoutRecords(page))
    {
      hide EncodeRecord, Encode, StdoutRecords, StdoutRecord, RestOf;
      RestOfStart(page);
      var numSubstrings := |page| / MAX_LENGTH;
      var i := 0;
      while i < numSubstrings
        invariant 0 <= i <= numSubstrings && response.Valid()
        invariant AreRecords(RestOf(page, i))
        invariant response.Contents() + Encode(RestOf(page, i))
               == old(response.Contents()) + Encode(StdoutRecords(page))
      {
        NextPiece(page, i);
        var piece := page[i * MAX_LENGTH..i * MAX_LENGTH + MAX_LENGTH];
        AppendRecord(StdoutRecord(piece), response);
        i := i + 1;
      }
      LastPiece(page);
      if |page| % MAX_LENGTH != 0 {
        var piece := page[MAX_LENGTH * numSubstrings..];
        RecordSize(piece);
        AppendRecord(StdoutRecord(piece), response);
      }
    }
  }

  /** What a signed byte is as an unsigned one. */
  function Unsigned8(x: int): Byte {
    x % 256
  }

  lemma FirstByte(s: Bytes)
    requires |s| == 1
    ensures Unsigned8(NetworkToHost(s)) == s[0]
    ensures s[0] < 128 ==> NetworkToHost(s) == s[0]
  {
    assert FromBytes(s[..0]) == 0;
  }

  lemma MaskHighBit(s: Bytes)
    requires |s| == 4
    ensures NetworkToHost(s) % 0x80000000 == FromBytes(s) % 0x80000000
  {
    assert Pow256(4) == 0x100000000 && Pow256(3) == 0x1000000;
  }

  /** The records still to come after i full ones. */
  function RestOf(page: Bytes, i: nat): seq<Record>
    requires i * MAX_LENGTH <= |page|
  {
    var rest := page[i * MAX_LENGTH..];
    if rest == [] then [] else StdoutRecords(rest)
  }

  lemma RestOfStart(page: Bytes)
    requires page != []
    ensures RestOf(page, 0) == StdoutRecords(page) && AreRecords(StdoutRecords(page))
  {
    assert page[0..] == page;
    StdoutFraming(page);
  }

  lemma NextPiece(page: Bytes, i: nat)
    requires (i + 1) * MAX_LENGTH <= |page|
    ensures var r := StdoutRecord(page[i * MAX_LENGTH..i * MAX_LENGTH + MAX_LENGTH]);
            && IsRecord(r) && AreRecords(RestOf(page, i)) && AreRecords(RestOf(page, i + 1))
            && Encode(RestOf(page, i)) == EncodeRecord(r) + Encode(RestOf(page, i + 1))
  {
    hide EncodeRecord, StdoutRecord;
    var rest := page[i * MAX_LENGTH..];
    var next := page[(i + 1) * MAX_LENGTH..];
    var piece := page[i * MAX_LENGTH..i * MAX_LENGTH + MAX_LENGTH];
    RecordSize(piece);
    StdoutFraming(rest);
    assert rest[..MAX_LENGTH] == piece && rest[MAX_LENGTH..] == next;
    if next == [] {
      assert rest == piece;
    } else {
      StdoutFraming(next);
    }
    assert RestOf(page, i) == [StdoutRecord(piece)] + RestOf(page, i + 1);
    EncodeFirst(StdoutRecord(piece), RestOf(page, i + 1));
  }

  lemma EncodeFirst(r: Record, rs: seq<Record>)
    requires IsRecord(r) && AreRecords(rs)
    ensures AreRecords([r] + rs) && Encode([r] + rs) == EncodeRecord(r) + Encode(rs)
  {
    assert ([r] + rs)[1..] == rs;
  }

  lemma LastPiece(page: Bytes)
    ensures var n := |page| / MAX_LENGTH;
            var last := page[MAX_LENGTH * n..];
            && |last| == |page| % MAX_LENGTH && AreRecords(RestOf(page, n))
            && Encode(RestOf(page, n)) == if last == [] then [] else EncodeRecord(StdoutRecord(last))
  {
    hide EncodeRecord, StdoutRecord;
    var n := |page| / MAX_LENGTH;
    var last := page[MAX_LENGTH * n..];
    assert page[n * MAX_LENGTH..] == last;
    if last != [] {
      RecordSize(last);
      EncodeFirst(StdoutRecord(last), []);
      assert [StdoutRecord(last)] + [] == [StdoutRecord(last)];
    }
  }

  lemma EncodeShort(page: Bytes)
    requires page != [] && |page| <= MAX_LENGTH
    ensures IsRecord(StdoutRecord(page)) && AreRecords(StdoutRecords(page))
    ensures Encode(StdoutRecords(page)) == EncodeRecord(StdoutRecord(page))
  {
    hide EncodeRecord, StdoutRecord;
    RecordSize(page);
    EncodeFirst(StdoutRecord(page), []);
    assert [StdoutRecord(page)] + [] == [StdoutRecord(page)];
  }

  lemma EncodeEnd()
    ensures EncodeRecord(END_RECORD)
         == [1, END_REQUEST] + ToBytes(1, 2) + ToBytes(8, 2) + [0, 0] + HostToNetwork(0, 4) + HostToNetwork(0, 4)
  {
    ZeroBytes(4);
    assert Zeros(8) == Zeros(4) + Zeros(4);
  }

  lemma {:induction false} ZeroBytes(n: nat)
    ensures ToBytes(0, n) == Zeros(n)
  {
    if n > 0 {
      ZeroBytes(n - 1);
    }
  }

  lemma EncodeResponse(page: Bytes)
    requires page != []
    ensures IsRecord(StdoutRecord([])) && AreRecords(StdoutRecords(page))
    ensures AreRecords(StdoutRecords(page) + [StdoutRecord([]), END_RECORD])
    ensures Encode(StdoutRecords(page) + [StdoutRecord([]), END_RECORD])
         == Encode(StdoutRecords(page)) + EncodeRecord(StdoutRecord([])) + EncodeRecord(END_RECORD)
  {
    hide EncodeRecord, StdoutRecord, Encode;
    StdoutFraming(page);
    RecordSize([]);
    EncodeTwo(StdoutRecord([]), END_RECORD);
    EncodeConcat(StdoutRecords(page), [StdoutRecord([]), END_RECORD]);
  }

  lemma EncodeTwo(a: Record, b: Record)
    requires IsRecord(a) && IsRecord(b)
    ensures Encode([a, b]) == EncodeRecord(a) + EncodeRecord(b)
  {
    EncodeFirst(b, []);
    EncodeFirst(a, [b]);
    assert [b] + [] == [b] && [a] + [b] == [a, b];
  }
}
