/**
 * The byte layout of the encrypted envelope written by `AesGcmService.Encrypt`
 * (Chaincase.Common/Services/AesGcmService.cs):
 *
 *   [0, 4)                     nonce length, int32 little-endian
 *   [4, 4 + n)                 nonce
 *   [4 + n, 8 + n)             tag length, int32 little-endian
 *   [8 + n, 8 + n + t)         authentication tag
 *   [8 + n + t, end)           ciphertext
 *
 * This module holds the value-level specification: 32-bit two's-complement
 * integers, `BinaryPrimitives.Write/ReadInt32LittleEndian`, the serialiser and
 * the parser it should agree with.
 */
module Envelope {
  import opened Wrappers

  type byte = x: int | 0 <= x < 0x100

  const Int32Min: int := -0x8000_0000
  const Int32Max: int := 0x7FFF_FFFF
  const TwoTo32: int := 0x1_0000_0000

  /** `AesGcm.NonceByteSizes.MaxSize` and `AesGcm.TagByteSizes.MaxSize` in .NET. */
  const NonceSize: nat := 12
  const TagSize: nat := 16

  predicate IsInt32(x: int) {
    Int32Min <= x <= Int32Max
  }

  /** C# `int` arithmetic in an unchecked context: the mathematical result wrapped into int32. */
  function Wrap32(x: int): (r: int)
    ensures IsInt32(r) && (r - x) % TwoTo32 == 0
    ensures IsInt32(x) ==> r == x
  {
    (x - Int32Min) % TwoTo32 + Int32Min
  }

  /** The cast `(uint)x` of an int32. */
  function UInt32Of(x: int): (u: nat)
    requires IsInt32(x)
    ensures u < TwoTo32
    ensures x >= 0 ==> u == x
    ensures x < 0 ==> u == x + TwoTo32 && u > Int32Max
  {
    if x < 0 then x + TwoTo32 else x
  }

  /** `BinaryPrimitives.WriteInt32LittleEndian`: the four bytes of `v`, least significant first. */
  function Int32LE(v: int): (b: seq<byte>)
    requires IsInt32(v)
    ensures |b| == 4
  {
    var u := UInt32Of(v);
    var u1 := u / 0x100;
    var u2 := u1 / 0x100;
    [u % 0x100, u1 % 0x100, u2 % 0x100, u2 / 0x100]
  }

  /** `BinaryPrimitives.ReadInt32LittleEndian` on four bytes. */
  function ReadInt32LE(b: seq<byte>): (v: int)
    requires |b| == 4
    ensures IsInt32(v)
  {
    var u := b[0] as int + 0x100 * (b[1] as int + 0x100 * (b[2] as int + 0x100 * b[3] as int));
    if u > Int32Max then u - TwoTo32 else u
  }

  /** Splitting a number below 256 * `bound` into its low byte and the rest. */
  lemma SplitByte(x: nat, bound: nat)
    requires x < 0x100 * bound
    ensures x == x % 0x100 + 0x100 * (x / 0x100) && x / 0x100 < bound
  {
  }

  /** A low byte and the rest determine the number, and are determined by it. */
  lemma JoinByte(x: nat, low: byte, high: nat)
    requires x == low + 0x100 * high
    ensures x % 0x100 == low && x / 0x100 == high
  {
  }

  /** Reading back what was written gives the value. */
  lemma ReadWriteInt32(v: int)
    requires IsInt32(v)
    ensures ReadInt32LE(Int32LE(v)) == v
  {
    var u := UInt32Of(v);
    var u1 := u / 0x100;
    var u2 := u1 / 0x100;
    SplitByte(u, 0x100_0000);
    SplitByte(u1, 0x1_0000);
    SplitByte(u2, 0x100);
    var b := Int32LE(v);
    assert b == [u % 0x100, u1 % 0x100, u2 % 0x100, u2 / 0x100];
    assert u == b[0] as int + 0x100 * (b[1] as int + 0x100 * (b[2] as int + 0x100 * b[3] as int));
  }

  /** Writing what was read gives the bytes back: four bytes and an int32 are in bijection. */
  lemma WriteReadInt32(b: seq<byte>)
    requires |b| == 4
    ensures Int32LE(ReadInt32LE(b)) == b
  {
    var u2 := b[2] as int + 0x100 * b[3] as int;
    var u1 := b[1] as int + 0x100 * u2;
    var u := b[0] as int + 0x100 * u1;
    JoinByte(u, b[0], u1);
    JoinByte(u1, b[1], u2);
    JoinByte(u2, b[2], b[3]);
    assert UInt32Of(ReadInt32LE(b)) == u;
  }

  /** The three variable-length parts of an envelope. */
  datatype Fields = Fields(nonce: seq<byte>, tag: seq<byte>, cipher: seq<byte>)

  /** Every length of the layout, and the total, fit in an int32. */
  predicate Fits(f: Fields) {
    8 + |f.nonce| + |f.tag| + |f.cipher| <= Int32Max
  }

  /** The envelope bytes of `f`, as `Encrypt` lays them out. */
  function Serialise(f: Fields): (b: seq<byte>)
    requires Fits(f)
    ensures |b| == 4 + |f.nonce| + 4 + |f.tag| + |f.cipher|
  {
    Int32LE(|f.nonce|) + f.nonce + Int32LE(|f.tag|) + f.tag + f.cipher
  }

  /** The nonce length field of a blob of at least four bytes. */
  function NonceLength(b: seq<byte>): int
    requires |b| >= 4
  {
    ReadInt32LE(b[..4])
  }

  /** The tag length field, read just after a nonce of `n` bytes. */
  function TagLength(b: seq<byte>, n: nat): int
    requires 8 + n <= |b|
  {
    ReadInt32LE(b[4 + n..8 + n])
  }

  /** A blob whose two length fields are non-negative and whose parts lie inside it. */
  predicate WellFormed(b: seq<byte>) {
    && |b| >= 8
    && 0 <= NonceLength(b) <= |b| - 8
    && 0 <= TagLength(b, NonceLength(b)) <= |b| - 8 - NonceLength(b)
  }

  /** `Span.Slice` throws `ArgumentOutOfRangeException` on a malformed blob. */
  datatype ParseError = SliceOutOfRange

  /** The parts of a blob, taking both sizes from the blob itself. */
  function Parse(b: seq<byte>): (r: Result<Fields, ParseError>)
    ensures r.Success? <==> WellFormed(b)
    ensures r.Success? ==> |r.value.cipher| == |b| - 8 - |r.value.nonce| - |r.value.tag|
  {
    if !WellFormed(b) then Failure(SliceOutOfRange)
    else
      var n := NonceLength(b);
      var t := TagLength(b, n);
      Success(Fields(b[4..4 + n], b[8 + n..8 + n + t], b[8 + n + t..]))
  }

  /** Where each part of a serialised envelope sits: the five regions are consecutive,
      so they are pairwise disjoint and cover the whole buffer. */
  lemma {:induction false} SerialiseLayout(f: Fields)
    requires Fits(f)
    ensures var b := Serialise(f); var n, t := |f.nonce|, |f.tag|;
      && b[..4] == Int32LE(n)
      && b[4..4 + n] == f.nonce
      && b[4 + n..8 + n] == Int32LE(t)
      && b[8 + n..8 + n + t] == f.tag
      && b[8 + n + t..] == f.cipher
  {
    var b := Serialise(f);
    var n, t := |f.nonce|, |f.tag|;
    var p1 := Int32LE(n);
    var p3 := Int32LE(t);
    assert b == p1 + f.nonce + p3 + f.tag + f.cipher;
    assert b[..4] == p1;
    assert b[4..4 + n] == f.nonce;
    assert b[4 + n..8 + n] == p3;
    assert b[8 + n..8 + n + t] == f.tag;
    assert b[8 + n + t..] == f.cipher;
  }

  /** Parsing a serialised envelope recovers its parts (parse after serialise is the identity). */
  lemma ParseSerialise(f: Fields)
    requires Fits(f)
    ensures Parse(Serialise(f)) == Success(f)
  {
    var b := Serialise(f);
    var n, t := |f.nonce|, |f.tag|;
    SerialiseLayout(f);
    ReadWriteInt32(n);
    ReadWriteInt32(t);
    assert NonceLength(b) == n;
    assert TagLength(b, n) == t;
  }

  /** A blob that parses is exactly the serialisation of its parts: nothing in it is ignored. */
  lemma SerialiseParse(b: seq<byte>)
    requires |b| <= Int32Max && Parse(b).Success?
    ensures Fits(Parse(b).value) && Serialise(Parse(b).value) == b
  {
    var f := Parse(b).value;
    var n := NonceLength(b);
    var t := TagLength(b, n);
    WriteReadInt32(b[..4]);
    WriteReadInt32(b[4 + n..8 + n]);
    assert b == b[..4] + b[4..4 + n] + b[4 + n..8 + n] + b[8 + n..8 + n + t] + b[8 + n + t..];
  }
}
