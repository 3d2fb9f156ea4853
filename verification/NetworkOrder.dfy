/** Byte strings, and integers in network byte order as netLayer/Buffer.h reads and writes them. */
module NetworkOrder {

  type Byte = b: int | 0 <= b < 256
  type Bytes = seq<Byte>

  function Ascii(s: string): Bytes {
    seq(|s|, i requires 0 <= i < |s| => s[i] as int % 256)
  }

  /** The bytes of the chunks, one after the other. */
  function Concat(chunks: seq<Bytes>): Bytes {
    if chunks == [] then [] else Concat(chunks[..|chunks| - 1]) + chunks[|chunks| - 1]
  }

  lemma ConcatGrows(chunks: seq<Bytes>, chunk: Bytes)
    ensures Concat(chunks + [chunk]) == Concat(chunks) + chunk
  {
    assert (chunks + [chunk])[..|chunks|] == chunks;
  }

  function Pow256(n: nat): (p: nat)
    ensures p >= 1
  {
    if n == 0 then 1 else 256 * Pow256(n - 1)
  }

  /** The n low bytes of x, most significant first. */
  function ToBytes(x: nat, n: nat): (s: seq<Byte>)
    ensures |s| == n
  {
    if n == 0 then [] else ToBytes(x / 256, n - 1) + [x % 256]
  }

  function FromBytes(s: seq<Byte>): nat {
    if s == [] then 0 else 256 * FromBytes(s[..|s| - 1]) + s[|s| - 1]
  }

  lemma {:induction false} BytesRoundTrip(x: nat, n: nat)
    requires x < Pow256(n)
    ensures FromBytes(ToBytes(x, n)) == x
  {
    if n > 0 {
      BytesRoundTrip(x / 256, n - 1);
      assert ToBytes(x, n)[..n - 1] == ToBytes(x / 256, n - 1);
    }
  }

  /** The most significant byte comes first: a byte in front of n others counts 256 to the n. */
  lemma {:induction false} FirstCountsMost(b: Byte, s: Bytes)
    ensures FromBytes([b] + s) == b * Pow256(|s|) + FromBytes(s)
  {
    if s == [] {
      assert [b] + s == [b] && [b][..0] == [];
    } else {
      var n := |s| - 1;
      FirstCountsMost(b, s[..n]);
      assert ([b] + s)[..|s|] == [b] + s[..n];
      Distribute(b, Pow256(n));
    }
  }

  lemma Distribute(b: nat, p: nat)
    ensures 256 * (b * p) == b * (256 * p)
  {
  }

  /** For instance 0x01020304 and -2. */
  lemma LiteralIntegers()
    ensures FitsSigned(0x01020304, 4) && HostToNetwork(0x01020304, 4) == [1, 2, 3, 4]
    ensures FitsSigned(-2, 2) && HostToNetwork(-2, 2) == [255, 254] && NetworkToHost([255, 254]) == -2
  {
    assert Pow256(1) == 256 && Pow256(2) == 65536 && Pow256(3) == 16777216;
    assert ToBytes(0x01020304, 4) == ToBytes(0x010203, 3) + [4];
    assert ToBytes(0x010203, 3) == ToBytes(0x0102, 2) + [3];
    assert ToBytes(0x0102, 2) == ToBytes(1, 1) + [2];
    assert ToBytes(65534, 2) == ToBytes(255, 1) + [254];
    assert ToBytes(255, 1) == ToBytes(0, 0) + [255] && ToBytes(1, 1) == ToBytes(0, 0) + [1];
    assert [255, 254][..1] == [255] && FromBytes([255]) == 255;
  }

  lemma {:induction false} FromBytesBound(s: seq<Byte>)
    ensures FromBytes(s) < Pow256(|s|)
  {
    if s != [] {
      FromBytesBound(s[..|s| - 1]);
    }
  }

  // ---------------------------------------------------------------- signed integers

  /** The values of a two's complement integer of n bytes. */
  predicate FitsSigned(x: int, n: nat) {
    n >= 1 && -128 * Pow256(n - 1) <= x < 128 * Pow256(n - 1)
  }

  function Unsigned(x: int, n: nat): nat
    requires FitsSigned(x, n)
  {
    if x >= 0 then x else x + Pow256(n)
  }

  function Signed(u: nat, n: nat): int
    requires n >= 1
  {
    if u < 128 * Pow256(n - 1) then u else u - Pow256(n)
  }

  function HostToNetwork(x: int, n: nat): seq<Byte>
    requires FitsSigned(x, n)
  {
    ToBytes(Unsigned(x, n), n)
  }

  function NetworkToHost(s: seq<Byte>): int
    requires s != []
  {
    Signed(FromBytes(s), |s|)
  }

  /** Every integer of any width reads back as it was written. */
  lemma IntRoundTrip(x: int, n: nat)
    requires FitsSigned(x, n)
    ensures |HostToNetwork(x, n)| == n && NetworkToHost(HostToNetwork(x, n)) == x
  {
    BytesRoundTrip(Unsigned(x, n), n);
  }

  /** And every string of bytes is the writing of the integer that it reads as. */
  lemma {:induction false} FromToBytes(s: seq<Byte>)
    ensures ToBytes(FromBytes(s), |s|) == s
  {
    if s != [] {
      FromToBytes(s[..|s| - 1]);
      assert s == s[..|s| - 1] + [s[|s| - 1]];
    }
  }
}
