/**
 netLayer/Buffer.h and netLayer/Buffer.cpp: a sliding window over a vector that behaves as a plain sequence
 of bytes, whatever compaction and growth do underneath.
 */
module NetBuffers {
  import opened NetworkOrder

  const CHEAP_PREPEND := 8
  const INITIAL_SIZE := 1024

  /** The overflow area on the stack of readFd. */
  const EXTRA_SIZE := 65536

  const CR: Byte := 13
  const LF: Byte := 10

  /** What readv may return when the buffer has room for writable bytes. */
  function ReadLimit(writable: nat): nat {
    if writable < EXTRA_SIZE then writable + EXTRA_SIZE else writable
  }

  datatype ReadResult = ReadError(errno: int) | ReadBytes(bytes: seq<Byte>)

  predicate IsCrlf(s: seq<Byte>, i: int) {
    0 <= i && i + 1 < |s| && s[i] == CR && s[i + 1] == LF
  }

  /** The position of the first CRLF, or -1. */
  function FindCrlf(s: seq<Byte>): (r: int)
    ensures -1 <= r < |s|
    ensures r >= 0 ==> IsCrlf(s, r)
    ensures forall i :: 0 <= i < (if r >= 0 then r else |s|) ==> !IsCrlf(s, i)
  {
    if |s| < 2 then -1
    else if IsCrlf(s, 0) then 0
    else
      var r := FindCrlf(s[1..]);
      assert forall i :: 1 <= i < |s| ==> IsCrlf(s, i) == IsCrlf(s[1..], i - 1);
      if r < 0 then -1 else r + 1
  }

  class Buffer {
    var data: seq<Byte>
    var reader: nat
    var writer: nat

    ghost predicate Valid()
      reads this
    {
      CHEAP_PREPEND <= |data| && reader <= writer <= |data|
    }

    /** The readable bytes: all that a caller sees. */
    function Contents(): seq<Byte>
      requires Valid()
      reads this
    {
      data[reader..writer]
    }

    constructor (initialSize: nat)
      ensures Valid() && Contents() == []
      ensures WritableBytes() == initialSize && PrependableBytes() == CHEAP_PREPEND
    {
      data := seq(CHEAP_PREPEND + initialSize, _ => 0);
      reader := CHEAP_PREPEND;
      writer := CHEAP_PREPEND;
    }

    function ReadableBytes(): (n: nat)
      requires Valid()
      reads this
      ensures n == |Contents()|
    {
      writer - reader
    }

    function WritableBytes(): nat
      requires Valid()
      reads this
    {
      |data| - writer
    }

    function PrependableBytes(): nat
      reads this
    {
      reader
    }

    /** findCRLF: std::search for CRLF in the readable bytes. */
    method FindCRLF() returns (crlf: int)
      requires Valid()
      ensures crlf == FindCrlf(Contents())
    {
      var s := Contents();
      crlf := 0;
      while crlf + 1 < |s|
        invariant 0 <= crlf && (crlf <= |s|)
        invariant forall i :: 0 <= i < crlf ==> !IsCrlf(s, i)
      {
        if s[crlf] == CR && s[crlf + 1] == LF {
          assert IsCrlf(s, crlf);
          return;
        }
        crlf := crlf + 1;
      }
      crlf := -1;
    }

    method RetrieveAll()
      requires Valid()
      modifies this
      ensures Valid() && Contents() == []
      ensures PrependableBytes() == CHEAP_PREPEND
    {
      reader := CHEAP_PREPEND;
      writer := CHEAP_PREPEND;
    }

    method Retrieve(len: nat)
      requires Valid() && len <= ReadableBytes()
      modifies this
      ensures Valid() && Contents() == old(Contents())[len..]
    {
      if len < ReadableBytes() {
        reader := reader + len;
      } else {
        RetrieveAll();
      }
    }

    method RetrieveAsString(len: nat) returns (result: seq<Byte>)
      requires Valid() && len <= ReadableBytes()
      modifies this
      ensures Valid() && result == old(Contents())[..len] && Contents() == old(Contents())[len..]
    {
      result := data[reader..reader + len];
      Retrieve(len);
    }

    method RetrieveAllAsString() returns (result: seq<Byte>)
      requires Valid()
      modifies this
      ensures Valid() && result == old(Contents()) && Contents() == []
    {
      result := RetrieveAsString(ReadableBytes());
    }

    /** Makes room by growing, or by moving the readable bytes to the front. */
    method MakeSpace(len: nat)
      requires Valid() && WritableBytes() < len
      modifies this
      ensures Valid() && Contents() == old(Contents())
      ensures WritableBytes() >= len
    {
      if WritableBytes() + PrependableBytes() < len + CHEAP_PREPEND {
        data := data + seq(writer + len - |data|, _ => 0);
      } else {
        assert CHEAP_PREPEND < reader;
        var readable := ReadableBytes();
        data := data[..CHEAP_PREPEND] + data[reader..writer] + data[CHEAP_PREPEND + readable..];
        reader := CHEAP_PREPEND;
        writer := reader + readable;
        assert readable == ReadableBytes();
      }
    }

    method EnsureWritableBytes(len: nat)
      requires Valid()
      modifies this
      ensures Valid() && Contents() == old(Contents())
      ensures WritableBytes() >= len
      ensures old(WritableBytes()) >= len ==> WritableBytes() == old(WritableBytes())
    {
      if WritableBytes() < len {
        MakeSpace(len);
      }
    }

    method HasWritten(len: nat)
      requires Valid() && len <= WritableBytes()
      modifies this`writer
      ensures Valid() && Contents() == old(Contents()) + data[old(writer)..old(writer) + len]
    {
      writer := writer + len;
    }

    method Append(bytes: seq<Byte>)
      requires Valid()
      modifies this
      ensures Valid() && Contents() == old(Contents()) + bytes
      ensures old(WritableBytes()) >= |bytes| ==> WritableBytes() == old(WritableBytes()) - |bytes|
    {
      EnsureWritableBytes(|bytes|);
      data := data[..writer] + bytes + data[writer + |bytes|..];
      HasWritten(|bytes|);
    }

    method Unwrite(len: nat)
      requires Valid() && len <= ReadableBytes()
      modifies this
      ensures Valid() && Contents() == old(Contents())[..|old(Contents())| - len]
    {
      writer := writer - len;
    }

    method Prepend(bytes: seq<Byte>)
      requires Valid() && |bytes| <= PrependableBytes()
      modifies this
      ensures Valid() && Contents() == bytes + old(Contents())
    {
      reader := reader - |bytes|;
      data := data[..reader] + bytes + data[reader + |bytes|..];
    }

    /** Moves the readable bytes to a new buffer with at least reserve bytes to spare. */
    method Shrink(reserve: nat)
      requires Valid()
      modifies this
      ensures Valid() && Contents() == old(Contents())
      ensures WritableBytes() >= reserve
    {
      var other := new Buffer(INITIAL_SIZE);
      other.EnsureWritableBytes(ReadableBytes() + reserve);
      other.Append(Contents());
      data, reader, writer := other.data, other.reader, other.writer;
    }

    /** readFd: readv fills the writable bytes first and the overflow area after them. */
    method ReadFd(result: ReadResult) returns (n: int)
      requires Valid()
      requires result.ReadBytes? ==> |result.bytes| <= ReadLimit(WritableBytes())
      modifies this
      ensures Valid()
      ensures result.ReadError? ==> n < 0 && Contents() == old(Contents())
      ensures result.ReadBytes? ==> n == |result.bytes| && Contents() == old(Contents()) + result.bytes
    {
      var writable := WritableBytes();
      match result
      case ReadError(_) =>
        n := -1;
      case ReadBytes(bytes) =>
        n := |bytes|;
        if n <= writable {
          data := data[..writer] + bytes + data[writer + n..];
          writer := writer + n;
        } else {
          data := data[..writer] + bytes[..writable];
          writer := |data|;
          Append(bytes[writable..]);
        }
    }

    // -------------------------------------------------------------- network-order integers

    method AppendInt(x: int, width: nat)
      requires Valid() && FitsSigned(x, width)
      modifies this
      ensures Valid() && Contents() == old(Contents()) + HostToNetwork(x, width)
    {
      Append(HostToNetwork(x, width));
    }

    method PrependInt(x: int, width: nat)
      requires Valid() && FitsSigned(x, width) && width <= PrependableBytes()
      modifies this
      ensures Valid() && Contents() == HostToNetwork(x, width) + old(Contents())
    {
      Prepend(HostToNetwork(x, width));
    }

    function PeekInt(width: nat): int
      requires Valid() && 1 <= width <= ReadableBytes()
      reads this
    {
      NetworkToHost(data[reader..reader + width])
    }

    /** Reads back whatever integer the contents start with. */
    method ReadInt(width: nat) returns (x: int)
      requires Valid() && 1 <= width <= ReadableBytes()
      modifies this
      ensures Valid() && Contents() == old(Contents())[width..]
      ensures x == NetworkToHost(old(Contents())[..width])
      ensures forall y :: FitsSigned(y, width) && HostToNetwork(y, width) <= old(Contents()) ==> x == y
    {
      hide HostToNetwork, NetworkToHost, FitsSigned;
      x := PeekInt(width);
      assert data[reader..reader + width] == Contents()[..width];
      ReadsBack(Contents(), width);
      Retrieve(width);
    }

    // -------------------------------------------------------------- any run of operations

    /** The assertion that the operation makes about the buffer. */
    predicate Permits(op: BufferOp)
      requires Valid()
      reads this
    {
      match op
      case OpPrepend(bytes) => |bytes| <= PrependableBytes()
      case OpRetrieve(len) => len <= ReadableBytes()
      case OpUnwrite(len) => len <= ReadableBytes()
      case OpReadFd(bytes) => |bytes| <= ReadLimit(WritableBytes())
      case _ => true
    }

    method Perform(op: BufferOp)
      requires Valid() && Permits(op)
      modifies this
      ensures Valid() && Contents() == Applied(old(Contents()), op)
    {
      match op
      case OpAppend(bytes) => Append(bytes);
      case OpPrepend(bytes) => Prepend(bytes);
      case OpRetrieve(len) => Retrieve(len);
      case OpRetrieveAll => RetrieveAll();
      case OpUnwrite(len) => Unwrite(len);
      case OpEnsure(len) => EnsureWritableBytes(len);
      case OpShrink(reserve) => Shrink(reserve);
      case OpReadFd(bytes) => var _ := ReadFd(ReadBytes(bytes));
    }

    /** Any run, up to the first operation that the buffer does not permit, acts on the contents alone. */
    method PerformAll(ops: seq<BufferOp>) returns (k: nat)
      requires Valid()
      modifies this
      ensures Valid() && k <= |ops|
      ensures Contents() == AppliedAll(old(Contents()), ops[..k])
      ensures k < |ops| ==> !Permits(ops[k])
    {
      k := 0;
      while k < |ops|
        invariant Valid() && 0 <= k <= |ops|
        invariant Contents() == AppliedAll(old(Contents()), ops[..k])
      {
        if !Permits(ops[k]) {
          return;
        }
        assert ops[..k + 1][..k] == ops[..k];
        Perform(ops[k]);
        k := k + 1;
      }
    }
  }

  lemma ReadsBack(s: seq<Byte>, width: nat)
    requires 1 <= width <= |s|
    ensures forall y :: FitsSigned(y, width) && HostToNetwork(y, width) <= s ==> NetworkToHost(s[..width]) == y
  {
    forall y | FitsSigned(y, width) && HostToNetwork(y, width) <= s
      ensures NetworkToHost(s[..width]) == y
    {
      IntRoundTrip(y, width);
      hide HostToNetwork, NetworkToHost, FitsSigned;
      assert HostToNetwork(y, width) == s[..width];
    }
  }

  datatype BufferOp =
    | OpAppend(bytes: seq<Byte>)
    | OpPrepend(bytes: seq<Byte>)
    | OpRetrieve(len: nat)
    | OpRetrieveAll
    | OpUnwrite(len: nat)
    | OpEnsure(len: nat)
    | OpShrink(len: nat)
    | OpReadFd(bytes: seq<Byte>)

  /** The effect of an operation on a plain sequence of bytes. */
  function Applied(s: seq<Byte>, op: BufferOp): seq<Byte> {
    match op
    case OpAppend(bytes) => s + bytes
    case OpPrepend(bytes) => bytes + s
    case OpRetrieve(len) => if len <= |s| then s[len..] else []
    case OpRetrieveAll => []
    case OpUnwrite(len) => if len <= |s| then s[..|s| - len] else []
    case OpEnsure(_) => s
    case OpShrink(_) => s
    case OpReadFd(bytes) => s + bytes
  }

  function AppliedAll(s: seq<Byte>, ops: seq<BufferOp>): seq<Byte> {
    if ops == [] then s else Applied(AppliedAll(s, ops[..|ops| - 1]), ops[|ops| - 1])
  }
}
