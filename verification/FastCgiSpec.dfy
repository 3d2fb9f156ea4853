/**
 The FastCGI records, name-value pairs and requests that cgiServer/fastcgi.cpp works on (sections 3.3, 3.4, 5.1,
 5.2, 5.3 and 5.5 of the FastCGI Specification 1.0), as functions on byte sequences.
 */
module FastCgiSpec {
  import opened NetworkOrder

  type ParamMap = map<Bytes, Bytes>

  const HEADER := 8
  const MAX_LENGTH := 0xffff
  const BEGIN_REQUEST: Byte := 1
  const END_REQUEST: Byte := 3
  const PARAMS: Byte := 4
  const STDIN: Byte := 5
  const STDOUT: Byte := 6
  const RESPONDER := 1
  const KEEP_CONN: Byte := 1

  // ---------------------------------------------------------------- records

  datatype Record = Record(version: Byte, kind: Byte, id: nat, content: Bytes, padding: Bytes, unused: Byte)

  predicate IsRecord(r: Record) {
    r.id < 65536 && |r.content| <= MAX_LENGTH && |r.padding| < 256
  }

  function EncodeRecord(r: Record): Bytes
    requires IsRecord(r)
  {
    [r.version, r.kind] + ToBytes(r.id, 2) + ToBytes(|r.content|, 2) + [|r.padding|, r.unused] + r.content + r.padding
  }

  predicate AreRecords(rs: seq<Record>) {
    forall i :: 0 <= i < |rs| ==> IsRecord(rs[i])
  }

  function Encode(rs: seq<Record>): Bytes
    requires AreRecords(rs)
  {
    if rs == [] then [] else EncodeRecord(rs[0]) + Encode(rs[1..])
  }

  /** The fields that a parser finds at the head of s. */
  function LengthAt(s: Bytes): nat
    requires |s| >= HEADER
  {
    FromBytes(s[4..6])
  }

  function TotalAt(s: Bytes): nat
    requires |s| >= HEADER
  {
    HEADER + LengthAt(s) + s[6]
  }

  predicate HasRecord(s: Bytes) {
    |s| >= HEADER && |s| >= TotalAt(s)
  }

  function RecordAt(s: Bytes): Record
    requires HasRecord(s)
  {
    var n := LengthAt(s);
    Record(s[0], s[1], FromBytes(s[2..4]), s[HEADER..HEADER + n], s[HEADER + n..TotalAt(s)], s[7])
  }

  /** The complete records at the head of s, and what is left. */
  function Decode(s: Bytes): (seq<Record>, Bytes)
    decreases |s|
  {
    if HasRecord(s) then
      var (rs, rest) := Decode(s[TotalAt(s)..]);
      ([RecordAt(s)] + rs, rest)
    else
      ([], s)
  }

  lemma RecordRoundTrip(r: Record, t: Bytes)
    requires IsRecord(r)
    ensures var s := EncodeRecord(r) + t;
            HasRecord(s) && RecordAt(s) == r && TotalAt(s) == |EncodeRecord(r)| && s[TotalAt(s)..] == t
  {
    var e := EncodeRecord(r);
    var s := e + t;
    BytesRoundTrip(r.id, 2);
    BytesRoundTrip(|r.content|, 2);
    assert s[2..4] == ToBytes(r.id, 2);
    assert s[4..6] == ToBytes(|r.content|, 2);
    assert s[6] == |r.padding|;
    assert s[HEADER..HEADER + |r.content|] == r.content;
    assert s[HEADER + |r.content|..|e|] == r.padding;
  }

  /** Decoding any encoded records, with anything incomplete after them, gives them back. */
  lemma {:induction false} DecodeEncode(rs: seq<Record>, t: Bytes)
    requires AreRecords(rs) && !HasRecord(t)
    ensures Decode(Encode(rs) + t) == (rs, t)
  {
    if rs == [] {
      assert Encode(rs) + t == t;
    } else {
      DecodeEncode(rs[1..], t);
      RecordRoundTrip(rs[0], Encode(rs[1..]) + t);
      assert Encode(rs) + t == EncodeRecord(rs[0]) + (Encode(rs[1..]) + t);
      assert [rs[0]] + rs[1..] == rs;
    }
  }

  lemma {:induction false} EncodeConcat(a: seq<Record>, b: seq<Record>)
    requires AreRecords(a) && AreRecords(b)
    ensures AreRecords(a + b) && Encode(a + b) == Encode(a) + Encode(b)
  {
    hide EncodeRecord;
    if a == [] {
      assert a + b == b;
    } else {
      EncodeConcat(a[1..], b);
      assert (a + b)[1..] == a[1..] + b;
    }
  }

  // ---------------------------------------------------------------- name-value pairs

  /** What readLen returns when the stream is too short: (uint32_t)-1. */
  const NO_LENGTH := 0xffffffff

  datatype Pair = Pair(name: Bytes, value: Bytes, wideName: bool, wideValue: bool)

  /** One byte, or four with the high bit set. */
  predicate IsLength(n: nat, wide: bool) {
    if wide then n < 0x80000000 else n < 128
  }

  function EncodeLength(n: nat, wide: bool): Bytes
    requires IsLength(n, wide)
  {
    if wide then ToBytes(n + 0x80000000, 4) else [n]
  }

  predicate IsPair(p: Pair) {
    IsLength(|p.name|, p.wideName) && IsLength(|p.value|, p.wideValue)
  }

  function EncodePair(p: Pair): Bytes
    requires IsPair(p)
  {
    EncodeLength(|p.name|, p.wideName) + EncodeLength(|p.value|, p.wideValue) + p.name + p.value
  }

  predicate ArePairs(ps: seq<Pair>) {
    forall i :: 0 <= i < |ps| ==> IsPair(ps[i])
  }

  function EncodePairs(ps: seq<Pair>): Bytes
    requires ArePairs(ps)
  {
    if ps == [] then [] else EncodePair(ps[0]) + EncodePairs(ps[1..])
  }

  /** m after the assignments of ps, in order: the last value of a name wins. */
  function Assigned(m: ParamMap, ps: seq<Pair>): ParamMap
    decreases |ps|
  {
    if ps == [] then m else Assigned(m[ps[0].name := ps[0].value], ps[1..])
  }

  /** readLen: a length, or NO_LENGTH, and the rest of the stream. */
  function ReadLen(s: Bytes): (nat, Bytes) {
    if s == [] then (NO_LENGTH, s)
    else if s[0] < 128 then (s[0], s[1..])
    else if |s| < 4 then (NO_LENGTH, s)
    else (FromBytes(s[..4]) % 0x80000000, s[4..])
  }

  datatype Parsed = Parsed(ok: bool, rest: Bytes, params: ParamMap)

  /** parseAllParams: stops where the stream is malformed, with the pairs read so far. */
  function ParseParams(s: Bytes, m: ParamMap): Parsed
    decreases |s|
  {
    if s == [] then Parsed(true, s, m)
    else
      var (nameLen, s1) := ReadLen(s);
      if nameLen == NO_LENGTH then Parsed(false, s1, m)
      else
        var (valueLen, s2) := ReadLen(s1);
        if valueLen == NO_LENGTH then Parsed(false, s2, m)
        else if |s2| >= nameLen + valueLen then
          var s3 := s2[nameLen + valueLen..];
          ParseParams(s3, m[s2[..nameLen] := s2[nameLen..nameLen + valueLen]])
        else Parsed(false, s2, m)
  }

  /** A length never equals the sentinel, and two of them never wrap round in 32 bits. */
  lemma LengthsAreSafe(s: Bytes)
    ensures var (n, rest) := ReadLen(s);
            && (n == NO_LENGTH || n < 0x80000000)
            && (n == NO_LENGTH ==> rest == s)
            && (n != NO_LENGTH ==> |rest| < |s|)
  {
  }

  /** It is the sentinel exactly if the stream is too short for the length that it begins with. */
  lemma NoLengthExactly(s: Bytes)
    ensures ReadLen(s).0 == NO_LENGTH <==> s == [] || (s[0] >= 128 && |s| < 4)
  {
  }

  lemma {:induction false} LengthRoundTrip(n: nat, wide: bool, t: Bytes)
    requires IsLength(n, wide)
    ensures ReadLen(EncodeLength(n, wide) + t) == (n, t)
  {
    if wide {
      var x := n + 0x80000000;
      var e := ToBytes(x, 4);
      assert Pow256(4) == 0x100000000;
      BytesRoundTrip(x, 4);
      HighByte(x);
      assert (e + t)[..4] == e;
      assert (e + t)[4..] == t;
    }
  }

  lemma HighByte(x: nat)
    requires 0x80000000 <= x < 0x100000000
    ensures ToBytes(x, 4)[0] >= 128
  {
    assert ToBytes(x, 4) == ToBytes(x / 256, 3) + [x % 256];
    assert ToBytes(x / 256, 3) == ToBytes(x / 256 / 256, 2) + [x / 256 % 256];
    assert ToBytes(x / 256 / 256, 2) == ToBytes(x / 256 / 256 / 256, 1) + [x / 256 / 256 % 256];
    assert ToBytes(x / 256 / 256 / 256, 1) == [x / 256 / 256 / 256 % 256];
  }

  lemma LengthNotEmpty(n: nat, wide: bool)
    requires IsLength(n, wide)
    ensures EncodeLength(n, wide) != []
  {
  }

  lemma ParseOnePair(p: Pair, t: Bytes, m: ParamMap)
    requires IsPair(p)
    ensures ParseParams(EncodePair(p) + t, m) == ParseParams(t, m[p.name := p.value])
  {
    hide ReadLen, EncodeLength;
    var n, v := EncodeLength(|p.name|, p.wideName), EncodeLength(|p.value|, p.wideValue);
    var s := EncodePair(p) + t;
    assert s == n + (v + (p.name + p.value + t));
    LengthRoundTrip(|p.name|, p.wideName, v + (p.name + p.value + t));
    LengthRoundTrip(|p.value|, p.wideValue, p.name + p.value + t);
    var s2 := p.name + p.value + t;
    assert s2[..|p.name|] == p.name;
    assert s2[|p.name|..|p.name| + |p.value|] == p.value;
    assert s2[|p.name| + |p.value|..] == t;
    LengthNotEmpty(|p.name|, p.wideName);
  }

  /** Any list of pairs, in any mix of length encodings, decodes to the map where the last value wins. */
  lemma {:induction false} PairsRoundTrip(ps: seq<Pair>, m: ParamMap)
    requires ArePairs(ps)
    ensures ParseParams(EncodePairs(ps), m) == Parsed(true, [], Assigned(m, ps))
    decreases |ps|
  {
    if ps != [] {
      ParseOnePair(ps[0], EncodePairs(ps[1..]), m);
      PairsRoundTrip(ps[1..], m[ps[0].name := ps[0].value]);
    }
  }

  lemma {:induction false} PairsThen(ps: seq<Pair>, t: Bytes, m: ParamMap)
    requires ArePairs(ps)
    ensures ParseParams(EncodePairs(ps) + t, m) == ParseParams(t, Assigned(m, ps))
    decreases |ps|
  {
    hide EncodePair, ParseParams;
    if ps == [] {
      assert EncodePairs(ps) + t == t;
    } else {
      assert EncodePairs(ps) + t == EncodePair(ps[0]) + (EncodePairs(ps[1..]) + t);
      ParseOnePair(ps[0], EncodePairs(ps[1..]) + t, m);
      PairsThen(ps[1..], t, m[ps[0].name := ps[0].value]);
    }
  }

  /** A pair that is cut off anywhere is refused, and the pairs before it stay assigned. */
  lemma CutPairIsRefused(ps: seq<Pair>, p: Pair, t: Bytes, m: ParamMap)
    requires ArePairs(ps) && IsPair(p) && t < EncodePair(p) && t != []
    ensures var r := ParseParams(EncodePairs(ps) + t, m);
            !r.ok && r.params == Assigned(m, ps)
  {
    hide EncodePairs, Assigned, EncodePair;
    PairsThen(ps, t, m);
    CutPair(p, t, Assigned(m, ps));
  }

  /** A proper prefix of a + b is one of a, or a and one of b. */
  lemma CutSplit(a: Bytes, b: Bytes, t: Bytes)
    requires t < a + b
    ensures t < a || (|a| <= |t| && t == a + t[|a|..] && t[|a|..] < b)
  {
    if |t| < |a| {
      assert t == a[..|t|];
    } else {
      assert t[..|a|] == a;
      assert t[|a|..] == b[..|t| - |a|];
    }
  }

  lemma CutPair(p: Pair, t: Bytes, m: ParamMap)
    requires IsPair(p) && t < EncodePair(p) && t != []
    ensures !ParseParams(t, m).ok && ParseParams(t, m).params == m
  {
    var n, v := EncodeLength(|p.name|, p.wideName), EncodeLength(|p.value|, p.wideValue);
    assert EncodePair(p) == n + (v + (p.name + p.value));
    CutSplit(n, v + (p.name + p.value), t);
    if t < n {
      CutLength(|p.name|, p.wideName, t);
    } else {
      LengthRoundTrip(|p.name|, p.wideName, t[|n|..]);
      hide EncodeLength, EncodePair, ReadLen;
      CutAfterName(p, t, t[|n|..], m);
    }
    hide ReadLen, EncodeLength;
  }

  lemma CutAfterName(p: Pair, t: Bytes, t1: Bytes, m: ParamMap)
    requires IsPair(p) && t != [] && ReadLen(t) == (|p.name|, t1)
    requires t1 < EncodeLength(|p.value|, p.wideValue) + (p.name + p.value)
    ensures !ParseParams(t, m).ok && ParseParams(t, m).params == m
  {
    var v := EncodeLength(|p.value|, p.wideValue);
    CutSplit(v, p.name + p.value, t1);
    if t1 < v {
      CutLength(|p.value|, p.wideValue, t1);
    } else {
      LengthRoundTrip(|p.value|, p.wideValue, t1[|v|..]);
    }
    hide ReadLen, EncodeLength;
  }

  lemma LengthSize(n: nat, wide: bool)
    requires IsLength(n, wide)
    ensures |EncodeLength(n, wide)| == (if wide then 4 else 1) && (wide ==> EncodeLength(n, wide)[0] >= 128)
  {
    if wide {
      HighByte(n + 0x80000000);
    }
  }

  lemma CutLength(n: nat, wide: bool, t: Bytes)
    requires IsLength(n, wide) && t < EncodeLength(n, wide)
    ensures ReadLen(t).0 == NO_LENGTH
  {
    LengthSize(n, wide);
  }

  // ---------------------------------------------------------------- requests

  datatype Codec = Codec(gotRequest: bool, keepConn: bool, stdin: Bytes, paramsStream: Bytes, params: ParamMap)

  function OnBeginRequest(c: Codec, content: Bytes): Codec {
    if |content| >= HEADER && FromBytes(content[..2]) == RESPONDER
    then c.(keepConn := content[2] == KEEP_CONN)
    else c
  }

  function OnParams(c: Codec, content: Bytes): Codec {
    if content != [] then c.(paramsStream := c.paramsStream + content)
    else
      var p := ParseParams(c.paramsStream, c.params);
      c.(paramsStream := p.rest, params := p.params)
  }

  function OnStdin(c: Codec, content: Bytes): Codec {
    if content != [] then c.(stdin := c.stdin + content) else c.(gotRequest := true)
  }

  function OnRecord(c: Codec, r: Record): Codec {
    if r.kind == BEGIN_REQUEST then OnBeginRequest(c, r.content)
    else if r.kind == PARAMS then OnParams(c, r.content)
    else if r.kind == STDIN then OnStdin(c, r.content)
    else c
  }

  function OnRecords(c: Codec, rs: seq<Record>): Codec
    decreases |rs|
  {
    if rs == [] then c else OnRecords(OnRecord(c, rs[0]), rs[1..])
  }

  /** parseRequest: consumes the complete records of s. */
  function Parse(c: Codec, s: Bytes): (Codec, Bytes)
    decreases |s|
  {
    if HasRecord(s) then Parse(OnRecord(c, RecordAt(s)), s[TotalAt(s)..]) else (c, s)
  }

  lemma TwoBytes(s: Bytes)
    requires |s| == 2
    ensures FromBytes(s) == (s[0] as int) * 256 + s[1]
  {
    assert s[..1] == [s[0]] && [s[0]][..0] == [];
    assert FromBytes([s[0]]) == s[0];
  }

  /** Records of other kinds, and begin records that are short or of another role, change nothing. */
  lemma OtherRecordsIgnored(c: Codec, r: Record)
    requires r.kind !in {1, 4, 5} || (r.kind == 1 && (|r.content| < 8 || r.content[0] != 0 || r.content[1] != 1))
    ensures OnRecord(c, r) == c
  {
    if r.kind == 1 && |r.content| >= 8 {
      TwoBytes(r.content[..2]);
    }
  }

  /** Parsing is decoding followed by the records in order. */
  lemma {:induction false} ParseIsDecode(c: Codec, s: Bytes)
    ensures var (rs, rest) := Decode(s);
            Parse(c, s) == (OnRecords(c, rs), rest)
    decreases |s|
  {
    if HasRecord(s) {
      var t := s[TotalAt(s)..];
      ParseIsDecode(OnRecord(c, RecordAt(s)), t);
      var (rs, rest) := Decode(t);
      assert ([RecordAt(s)] + rs)[1..] == rs;
    }
  }

  /** Parsing a stream in two pieces is parsing it whole, wherever it is cut. */
  lemma {:induction false} ParseInPieces(c: Codec, s: Bytes, t: Bytes)
    ensures var (c1, rest) := Parse(c, s);
            Parse(c, s + t) == Parse(c1, rest + t)
    decreases |s|
  {
    if HasRecord(s) {
      HeadOfLonger(s, t);
      ParseInPieces(OnRecord(c, RecordAt(s)), s[TotalAt(s)..], t);
    }
  }

  lemma HeadOfLonger(s: Bytes, t: Bytes)
    requires HasRecord(s)
    ensures HasRecord(s + t) && RecordAt(s + t) == RecordAt(s) && TotalAt(s + t) == TotalAt(s)
    ensures (s + t)[TotalAt(s)..] == s[TotalAt(s)..] + t
  {
    assert (s + t)[4..6] == s[4..6];
    assert (s + t)[2..4] == s[2..4];
    var n := LengthAt(s);
    assert (s + t)[HEADER..HEADER + n] == s[HEADER..HEADER + n];
    assert (s + t)[HEADER + n..TotalAt(s)] == s[HEADER + n..TotalAt(s)];
  }
}
