/**
 One FastCGI request and one response, byte by byte, as section 3.3 of the FastCGI Specification 1.0 lays them out.
 */
module FastCgiLiterals {
  import opened NetworkOrder
  import opened FastCgiSpec
  import opened FastCgiTheorems

  /** The bytes of a record with a short content and no padding. */
  lemma ShortRecord(kind: Byte, content: Bytes)
    requires |content| < 256
    ensures IsRecord(Record(1, kind, 1, content, [], 0))
    ensures EncodeRecord(Record(1, kind, 1, content, [], 0)) == [1, kind, 0, 1, 0, |content|, 0, 0] + content
  {
    SmallNumber(1);
    SmallNumber(|content|);
    hide ToBytes;
  }

  lemma SmallNumber(n: nat)
    requires n < 256
    ensures ToBytes(n, 2) == [0, n]
  {
    assert ToBytes(n, 2) == ToBytes(n / 256, 1) + [n % 256];
    assert ToBytes(0, 1) == ToBytes(0, 0) + [0];
  }

  /** A responder's begin record with the given flags. */
  function Begin(flags: Byte): Record {
    Record(1, 1, 1, [0, 1, flags, 0, 0, 0, 0, 0], [], 0)
  }

  const PAIR := Record(1, 4, 1, [1, 1, 97, 98], [], 0)
  const NO_PARAMS := Record(1, 4, 1, [], [], 0)
  const BODY := Record(1, 5, 1, [104, 105], [], 0)
  const NO_BODY := Record(1, 5, 1, [], [], 0)

  function LiteralRecordsOf(flags: Byte): Request {
    Request(Begin(flags), [PAIR], NO_PARAMS, [BODY], NO_BODY)
  }

  /**
   Version, kind, two bytes each of request id and content length, padding length and a spare byte; then the content.
   */
  function LiteralBytes(flags: Byte): Bytes {
    [1, 1, 0, 1, 0, 8, 0, 0] + [0, 1, flags, 0, 0, 0, 0, 0] + ([1, 4, 0, 1, 0, 4, 0, 0] + [1, 1, 97, 98]
    + ([1, 4, 0, 1, 0, 0, 0, 0] + ([1, 5, 0, 1, 0, 2, 0, 0] + [104, 105] + [1, 5, 0, 1, 0, 0, 0, 0])))
  }

  lemma LiteralRecords(flags: Byte)
    ensures Records(LiteralRecordsOf(flags)) == [Begin(flags), PAIR, NO_PARAMS, BODY, NO_BODY]
    ensures AreRecords(Records(LiteralRecordsOf(flags)))
    ensures Encode(Records(LiteralRecordsOf(flags))) == LiteralBytes(flags)
  {
    ShortRecord(1, Begin(flags).content);
    ShortRecord(4, PAIR.content);
    ShortRecord(4, []);
    ShortRecord(5, BODY.content);
    ShortRecord(5, []);
    hide EncodeRecord;
    EncodeNext(NO_BODY, []);
    EncodeNext(BODY, [NO_BODY]);
    EncodeNext(NO_PARAMS, [BODY, NO_BODY]);
    EncodeNext(PAIR, [NO_PARAMS, BODY, NO_BODY]);
    EncodeNext(Begin(flags), [PAIR, NO_PARAMS, BODY, NO_BODY]);
    hide Encode;
    assert [1, 5, 0, 1, 0, 0, 0, 0] + [] + [] == [1, 5, 0, 1, 0, 0, 0, 0];
    assert [1, 4, 0, 1, 0, 0, 0, 0] + [] == [1, 4, 0, 1, 0, 0, 0, 0];
  }

  lemma EncodeNext(r: Record, rs: seq<Record>)
    requires IsRecord(r) && AreRecords(rs)
    ensures AreRecords([r] + rs) && Encode([r] + rs) == EncodeRecord(r) + Encode(rs)
    ensures rs == [] ==> Encode(rs) == []
  {
    assert ([r] + rs)[1..] == rs;
  }

  lemma LiteralIsRequest(flags: Byte)
    ensures IsRequest(LiteralRecordsOf(flags), [Pair([97], [98], false, false)])
  {
    var p := Pair([97], [98], false, false);
    TwoBytes([0, 1]);
    assert Begin(flags).content[..2] == [0, 1];
    assert [p][1..] == [] && EncodePairs([p]) == EncodePair(p) + [];
    assert [PAIR][1..] == [] && Contents([PAIR]) == PAIR.content + [];
  }

  /** A request for a=b with body hi, in one message: the callback gets just that, and flags 1 keeps the connection. */
  lemma LiteralRequest(flags: Byte)
    ensures Feed(Session(Codec(false, false, [], [], map[]), [], []), [LiteralBytes(flags)]).events
         == [Event(map[[97] := [98]], [104, 105], flags != 1)]
  {
    LiteralRecords(flags);
    LiteralIsRequest(flags);
    LiteralMeaning(flags);
    hide IsRequest, Encode, Feed, Assigned, Contents, Records, LiteralBytes, AreRecords;
    var s := LiteralBytes(flags);
    ConcatGrows([], s);
    assert [] + [s] == [s] && Concat([]) + s == s;
    RequestReachesCallback(LiteralRecordsOf(flags), [Pair([97], [98], false, false)], false, [s]);
  }

  lemma LiteralMeaning(flags: Byte)
    ensures Assigned(map[], [Pair([97], [98], false, false)]) == map[[97] := [98]]
    ensures Contents(LiteralRecordsOf(flags).body) == [104, 105] && LiteralBytes(flags) != []
  {
    assert [Pair([97], [98], false, false)][1..] == [];
    assert [BODY][1..] == [] && Contents([BODY]) == BODY.content + [];
  }

  /** The response to output hi: one STDOUT record padded to eight bytes, the empty one, and END_REQUEST. */
  lemma LiteralResponse()
    ensures ResponseRecords([104, 105])
         == [Record(1, 6, 1, [104, 105], [0, 0, 0, 0, 0, 0], 0), Record(1, 6, 1, [], [], 0),
             Record(1, 3, 1, [0, 0, 0, 0, 0, 0, 0, 0], [], 0)]
    ensures IsRecord(StdoutRecord([104, 105]))
    ensures EncodeRecord(StdoutRecord([104, 105])) == [1, 6, 0, 1, 0, 2, 6, 0] + [104, 105] + [0, 0, 0, 0, 0, 0]
  {
    assert Padding(2) == 6 && Padding(0) == 0;
    assert Zeros(6) == [0, 0, 0, 0, 0, 0] && Zeros(0) == [];
    assert StdoutRecord([104, 105]) == Record(1, 6, 1, [104, 105], [0, 0, 0, 0, 0, 0], 0);
    assert StdoutRecord([]) == Record(1, 6, 1, [], [], 0);
    EndRecordIs();
    SmallNumber(1);
    SmallNumber(2);
    hide ToBytes, StdoutRecord;
    assert StdoutRecords([104, 105]) == [StdoutRecord([104, 105])];
  }
}
