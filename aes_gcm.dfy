/**
 * `AesGcmService` (Chaincase.Common/Services/AesGcmService.cs): password-derived
 * AES-GCM encryption of strings into a base64 envelope, and its inverse.
 *
 * The .NET primitives it calls (PBKDF2 of section 5.2 of RFC 8018, the AES-GCM
 * AEAD of NIST SP 800-38D, UTF-8, base64 of section 4 of RFC 4648) are not
 * modelled; they are function-valued parameters, and what the service relies on
 * them for is the hypothesis `Lawful`.
 */
module AesGcm {
  import opened Wrappers
  import opened Envelope

  /** What `AesGcm.Encrypt` writes: the ciphertext span and the tag span. */
  datatype Sealed = Sealed(cipher: seq<byte>, tag: seq<byte>)

  /** The library calls the service makes. */
  datatype Primitives = Primitives(
    /** `Rfc2898DeriveBytes(password, salt, iterations).GetBytes(length)` */
    deriveKey: (string, seq<byte>, nat, nat) -> seq<byte>,
    /** `AesGcm.Encrypt(nonce, plaintext, ciphertext, tag)` under a key */
    seal: (seq<byte>, seq<byte>, seq<byte>) -> Sealed,
    /** `AesGcm.Decrypt(nonce, ciphertext, tag, plaintext)` under a key; None when it throws */
    open: (seq<byte>, seq<byte>, seq<byte>, seq<byte>) -> Option<seq<byte>>,
    /** `Encoding.UTF8.GetBytes` (None when it throws: the bytes would not fit in an array)
        and `Encoding.UTF8.GetString` */
    utf8Encode: string -> Option<seq<byte>>,
    utf8Decode: seq<byte> -> string,
    /** `Convert.ToBase64String` and `Convert.FromBase64String`; None when it throws */
    toBase64: seq<byte> -> string,
    fromBase64: string -> Option<seq<byte>>)

  /** AES-128: the derived key is 16 bytes. */
  const KeySize: nat := 16
  /** The fixed salt: eight zero bytes. */
  const Salt: seq<byte> := [0, 0, 0, 0, 0, 0, 0, 0]
  const Iterations: nat := 1000
  /** `AesGcm.TagByteSizes.MinSize`: the shortest tag `AesGcm.Decrypt` accepts. */
  const MinTagSize: nat := 12

  /** The properties of the primitives the service depends on: key lengths, the
      AEAD's length preservation and decrypt-after-encrypt, the two codecs'
      round trips on what fits in an array, and .NET's bound on array lengths.
      `ReferenceIsLawful` shows that primitives with these properties exist. */
  ghost predicate Lawful(p: Primitives) {
    && (forall pw, salt, iterations, len :: |p.deriveKey(pw, salt, iterations, len)| == len)
    && (forall k, n, m :: |p.seal(k, n, m).cipher| == |m| && |p.seal(k, n, m).tag| == TagSize)
    && (forall k, n, m :: |k| == KeySize && |n| == NonceSize ==>
          p.open(k, n, p.seal(k, n, m).cipher, p.seal(k, n, m).tag) == Some(m))
    && (forall k, n, c, t :: p.open(k, n, c, t).Some? ==> |p.open(k, n, c, t).value| == |c|)
    && (forall s :: p.utf8Encode(s).Some? ==>
          |p.utf8Encode(s).value| <= Int32Max && p.utf8Decode(p.utf8Encode(s).value) == s)
    && (forall b :: |b| <= Int32Max ==> p.fromBase64(p.toBase64(b)) == Some(b))
    && (forall s :: p.fromBase64(s).Some? ==> |p.fromBase64(s).value| <= Int32Max)
  }

  datatype CryptoError =
    | EncodingOverflow     // Encoding.UTF8.GetBytes throws: the bytes would not fit in an array
    | LengthOverflow       // the envelope length overflows int32 (OverflowException)
    | MalformedBase64      // FormatException from Convert.FromBase64String
    | MalformedEnvelope    // ArgumentOutOfRangeException from Span.Slice
    | InvalidParameterSize // ArgumentException from AesGcm.Decrypt: a nonce not of 12 bytes or a tag not of 12 to 16
    | AuthenticationFailed // CryptographicException from AesGcm.Decrypt: the tag does not verify

  /** The key derived from a password: PBKDF2 over the fixed salt and iteration count. */
  function KeyFor(p: Primitives, password: string): (key: seq<byte>)
    requires Lawful(p)
    ensures |key| == KeySize
  {
    p.deriveKey(password, Salt, Iterations, KeySize)
  }

  /** The envelope `Encrypt` produces for `plain` with the nonce the random source supplied. */
  function Sealing(p: Primitives, key: seq<byte>, nonce: seq<byte>, plain: string): (r: Result<string, CryptoError>)
    requires Lawful(p) && |nonce| == NonceSize
    ensures p.utf8Encode(plain).None? ==> r == Failure(EncodingOverflow)
    ensures p.utf8Encode(plain).Some? ==> (r.Failure? <==> 36 + |p.utf8Encode(plain).value| > Int32Max)
    ensures r.Failure? ==> r.error == EncodingOverflow || r.error == LengthOverflow
  {
    match p.utf8Encode(plain)
    case None => Failure(EncodingOverflow)
    case Some(bytes) =>
      if 4 + NonceSize + 4 + TagSize + |bytes| > Int32Max then Failure(LengthOverflow)
      else
        var s := p.seal(key, nonce, bytes);
        Success(p.toBase64(Serialise(Fields(nonce, s.tag, s.cipher))))
  }

  /** What `Decrypt` returns for an envelope text: the plaintext or the error it throws. */
  function Opening(p: Primitives, key: seq<byte>, text: string): (r: Result<string, CryptoError>)
    ensures p.fromBase64(text).None? <==> r == Failure(MalformedBase64)
    ensures r.Success? ==>
      var b := p.fromBase64(text);
      && b.Some? && Parse(b.value).Success?
      && |Parse(b.value).value.nonce| == NonceSize
      && MinTagSize <= |Parse(b.value).value.tag| <= TagSize
  {
    match p.fromBase64(text)
    case None => Failure(MalformedBase64)
    case Some(bytes) =>
      match Parse(bytes)
      case Failure(_) => Failure(MalformedEnvelope)
      case Success(f) =>
        if |f.nonce| != NonceSize || !(MinTagSize <= |f.tag| <= TagSize) then Failure(InvalidParameterSize)
        else
          match p.open(key, f.nonce, f.cipher, f.tag)
          case None => Failure(AuthenticationFailed)
          case Some(m) => Success(p.utf8Decode(m))
  }

  /** The envelope of `plain` decodes to exactly 36 + |UTF-8(plain)| bytes laid out as
      `Serialise` says, with a ciphertext as long as the plaintext bytes. */
  lemma SealedLayout(p: Primitives, key: seq<byte>, nonce: seq<byte>, plain: string)
    requires Lawful(p) && |nonce| == NonceSize
    requires Sealing(p, key, nonce, plain).Success?
    ensures var bytes := p.fromBase64(Sealing(p, key, nonce, plain).value);
      && p.utf8Encode(plain).Some?
      && bytes.Some?
      && |bytes.value| == 36 + |p.utf8Encode(plain).value|
      && Parse(bytes.value).Success?
      && Parse(bytes.value).value.nonce == nonce
      && |Parse(bytes.value).value.tag| == TagSize
      && |Parse(bytes.value).value.cipher| == |p.utf8Encode(plain).value|
  {
    var m := p.utf8Encode(plain).value;
    var s := p.seal(key, nonce, m);
    ParseSerialise(Fields(nonce, s.tag, s.cipher));
  }

  /** Decrypt after encrypt: a store built from the same password gets the plaintext back. */
  lemma DecryptEncrypt(p: Primitives, password: string, nonce: seq<byte>, plain: string)
    requires Lawful(p) && |nonce| == NonceSize
    requires Sealing(p, KeyFor(p, password), nonce, plain).Success?
    ensures Opening(p, KeyFor(p, password), Sealing(p, KeyFor(p, password), nonce, plain).value) == Success(plain)
  {
    var key := KeyFor(p, password);
    var m := p.utf8Encode(plain).value;
    var s := p.seal(key, nonce, m);
    ParseSerialise(Fields(nonce, s.tag, s.cipher));
  }

  /** The envelope length wraps to a negative int32 exactly when it does not fit. */
  lemma LengthWraps(cipherSize: nat)
    requires cipherSize <= Int32Max
    ensures Wrap32(36 + cipherSize) < 0 <==> 36 + cipherSize > Int32Max
    ensures 36 + cipherSize <= Int32Max ==> Wrap32(36 + cipherSize) == 36 + cipherSize
  {
  }

  /** `Span.Slice(start, length)` on a span of `total` bytes does not throw: .NET checks
      `(ulong)(uint)start + (ulong)(uint)length <= (ulong)(uint)total`. */
  predicate SliceOk(start: int, length: int, total: nat)
    requires IsInt32(start) && IsInt32(length)
  {
    UInt32Of(start) + UInt32Of(length) <= total
  }

  class AesGcmService {
    const prims: Primitives
    /** The AES key `_aes` was created with. */
    const key: seq<byte>

    ghost predicate Valid() {
      Lawful(prims) && |key| == KeySize
    }

    constructor (password: string, prims: Primitives)
      requires Lawful(prims)
      ensures Valid() && this.prims == prims && key == KeyFor(prims, password)
    {
      this.prims := prims;
      this.key := prims.deriveKey(password, Salt, Iterations, KeySize);
    }

    /** `Encrypt(plain)`; `entropy` stands for the bytes `RandomNumberGenerator.Fill` writes. */
    method Encrypt(plain: string, entropy: seq<byte>) returns (r: Result<string, CryptoError>)
      requires Valid() && |entropy| == NonceSize
      ensures r == Sealing(prims, key, entropy, plain)
    {
      var encoded := prims.utf8Encode(plain);
      if encoded.None? {
        return Failure(EncodingOverflow);
      }
      var plainBytes := encoded.value;
      assert |plainBytes| <= Int32Max;
      var nonceSize := NonceSize;
      var tagSize := TagSize;
      var cipherSize := |plainBytes|;
      var encryptedDataLength := Wrap32(4 + nonceSize + 4 + tagSize + cipherSize);
      LengthWraps(cipherSize);
      if encryptedDataLength < 0 {
        return Failure(LengthOverflow);
      }
      var encryptedData := WriteEnvelope(encryptedDataLength, entropy, plainBytes);
      r := Success(prims.toBase64(encryptedData));
    }

    /** The buffer `Encrypt` fills: the two sizes, the nonce, then the AEAD's ciphertext
        and tag written into their slices. */
    method WriteEnvelope(encryptedDataLength: nat, entropy: seq<byte>, plainBytes: seq<byte>)
      returns (encryptedData: seq<byte>)
      requires Valid() && |entropy| == NonceSize
      requires encryptedDataLength == 36 + |plainBytes| <= Int32Max
      ensures var sealed := prims.seal(key, entropy, plainBytes);
        encryptedData == Serialise(Fields(entropy, sealed.tag, sealed.cipher))
    {
      var nonceSize := NonceSize;
      var tagSize := TagSize;
      var buffer := new byte[encryptedDataLength];
      ghost var blank := buffer[..];
      WriteInt32LittleEndian(buffer, 0, nonceSize);
      WriteInt32LittleEndian(buffer, 4 + nonceSize, tagSize);
      Fill(buffer, 4, entropy);
      var nonce := buffer[4..4 + nonceSize];
      assert nonce == entropy;
      var sealed := prims.seal(key, nonce, plainBytes);
      Fill(buffer, 4 + nonceSize + 4 + tagSize, sealed.cipher);
      Fill(buffer, 4 + nonceSize + 4, sealed.tag);
      EncryptLayout(blank, entropy, sealed.tag, sealed.cipher);
      encryptedData := buffer[..];
    }

    /** `Decrypt(cipher)`: decode, slice with sizes taken from the blob, open (which first
        checks the nonce and tag sizes), decode UTF-8. */
    method Decrypt(cipher: string) returns (r: Result<string, CryptoError>)
      requires Valid()
      ensures r == Opening(prims, key, cipher)
    {
      var decoded := prims.fromBase64(cipher);
      if decoded.None? {
        return Failure(MalformedBase64);
      }
      var bytes := decoded.value;
      var encryptedData := new byte[|bytes|](i => if 0 <= i < |bytes| then bytes[i] else 0);
      assert encryptedData[..] == bytes;
      var fields := ExtractParameters(encryptedData);
      if fields.Failure? {
        return Failure(MalformedEnvelope);
      }
      var f := fields.value;
      if |f.nonce| != NonceSize || !(MinTagSize <= |f.tag| <= TagSize) {
        return Failure(InvalidParameterSize);
      }
      var plain := prims.open(key, f.nonce, f.cipher, f.tag);
      if plain.None? {
        return Failure(AuthenticationFailed);
      }
      var plainBytes := CopyOut(plain.value);
      r := Success(prims.utf8Decode(plainBytes));
    }
  }

  /** In a well-formed blob none of the offset and size computations of `Decrypt` wraps. */
  lemma OffsetsDoNotWrap(length: nat, nonceSize: int, tagSize: int)
    requires length <= Int32Max && 0 <= nonceSize && 0 <= tagSize && 8 + nonceSize + tagSize <= length
    ensures Wrap32(4 + nonceSize) == 4 + nonceSize
    ensures Wrap32(Wrap32(4 + nonceSize) + 4) == 8 + nonceSize
    ensures Wrap32(Wrap32(Wrap32(4 + nonceSize) + 4) + tagSize) == 8 + nonceSize + tagSize
    ensures Wrap32(Wrap32(Wrap32(Wrap32(length - 4) - nonceSize) - 4) - tagSize) == length - 8 - nonceSize - tagSize
  {
  }

  /** The slicing in `Decrypt`, step by step with C#'s int32 arithmetic: each failed
      `Slice` bound check is an error. It agrees with the specification `Parse`. */
  method ExtractParameters(encryptedData: array<byte>) returns (r: Result<Fields, ParseError>)
    requires encryptedData.Length <= Int32Max
    ensures r == Parse(encryptedData[..])
  {
    var length := encryptedData.Length;
    ghost var b := encryptedData[..];
    if !SliceOk(0, 4, length) {
      assert !WellFormed(b);
      return Failure(SliceOutOfRange);
    }
    var nonceSize := ReadInt32LE(encryptedData[0..4]);
    assert nonceSize == NonceLength(b);
    var tagLengthAt := Wrap32(4 + nonceSize);
    if !SliceOk(tagLengthAt, 4, length) {
      assert !WellFormed(b);
      return Failure(SliceOutOfRange);
    }
    var tagSize := ReadInt32LE(encryptedData[tagLengthAt..tagLengthAt + 4]);
    var cipherSize := Wrap32(Wrap32(Wrap32(Wrap32(length - 4) - nonceSize) - 4) - tagSize);
    if !SliceOk(4, nonceSize, length) {
      assert !WellFormed(b);
      return Failure(SliceOutOfRange);
    }
    assert 0 <= nonceSize <= length - 8;
    assert tagLengthAt == 4 + nonceSize;
    assert tagSize == TagLength(b, nonceSize);
    var nonce := encryptedData[4..4 + nonceSize];
    var tagAt := Wrap32(Wrap32(4 + nonceSize) + 4);
    if !SliceOk(tagAt, tagSize, length) {
      assert !WellFormed(b);
      return Failure(SliceOutOfRange);
    }
    assert 0 <= tagSize <= length - 8 - nonceSize;
    var tag := encryptedData[tagAt..tagAt + tagSize];
    var cipherAt := Wrap32(Wrap32(Wrap32(4 + nonceSize) + 4) + tagSize);
    OffsetsDoNotWrap(length, nonceSize, tagSize);
    if !SliceOk(cipherAt, cipherSize, length) {
      assert false;
      return Failure(SliceOutOfRange);
    }
    var cipherBytes := encryptedData[cipherAt..cipherAt + cipherSize];
    assert WellFormed(b);
    assert nonce == b[4..4 + nonceSize];
    assert tag == b[8 + nonceSize..8 + nonceSize + tagSize];
    assert cipherBytes == b[8 + nonceSize + tagSize..];
    r := Success(Fields(nonce, tag, cipherBytes));
  }

  /** `BinaryPrimitives.WriteInt32LittleEndian(span.Slice(offset, 4), value)`. */
  method WriteInt32LittleEndian(a: array<byte>, offset: nat, value: int)
    requires IsInt32(value) && offset + 4 <= a.Length
    modifies a
    ensures a[..] == Splice(old(a[..]), offset, Int32LE(value))
  {
    Fill(a, offset, Int32LE(value));
  }

  /** The decrypted bytes written into a fresh buffer of their own length and read back. */
  method CopyOut(m: seq<byte>) returns (out: seq<byte>)
    ensures out == m
  {
    var buffer := new byte[|m|];
    Fill(buffer, 0, m);
    assert buffer[..] == m;
    out := buffer[..];
  }

  /** A library call that writes `src` into the span starting at `offset`
      (`RandomNumberGenerator.Fill`, the AEAD writing its outputs). */
  method Fill(a: array<byte>, offset: nat, src: seq<byte>)
    requires offset + |src| <= a.Length
    modifies a
    ensures a[..] == Splice(old(a[..]), offset, src)
  {
    forall i | 0 <= i < |src| {
      a[offset + i] := src[i];
    }
    assert a[..] == old(a[..offset]) + src + old(a[offset + |src|..]);
  }

  /** `s` with `src` written over it from `offset` on. */
  function Splice(s: seq<byte>, offset: nat, src: seq<byte>): (r: seq<byte>)
    requires offset + |src| <= |s|
    ensures |r| == |s|
  {
    s[..offset] + src + s[offset + |src|..]
  }

  lemma SpliceKeeps(s: seq<byte>, offset: nat, src: seq<byte>, x: nat, y: nat)
    requires offset + |src| <= |s| && x <= y <= |s|
    requires y <= offset || offset + |src| <= x
    ensures Splice(s, offset, src)[x..y] == s[x..y]
  {
  }

  lemma SpliceWrites(s: seq<byte>, offset: nat, src: seq<byte>)
    requires offset + |src| <= |s|
    ensures Splice(s, offset, src)[offset..offset + |src|] == src
  {
  }

  /** The five writes of `Encrypt`, in its order, fill the buffer with the envelope. */
  lemma EncryptLayout(blank: seq<byte>, nonce: seq<byte>, tag: seq<byte>, cipher: seq<byte>)
    requires |nonce| == NonceSize && |tag| == TagSize && |blank| == 36 + |cipher|
    requires Fits(Fields(nonce, tag, cipher))
    ensures
      var s1 := Splice(blank, 0, Int32LE(NonceSize));
      var s2 := Splice(s1, 16, Int32LE(TagSize));
      var s3 := Splice(s2, 4, nonce);
      var s4 := Splice(s3, 36, cipher);
      var s5 := Splice(s4, 20, tag);
      s5 == Serialise(Fields(nonce, tag, cipher))
  {
    var s1 := Splice(blank, 0, Int32LE(NonceSize));
    var s2 := Splice(s1, 16, Int32LE(TagSize));
    var s3 := Splice(s2, 4, nonce);
    var s4 := Splice(s3, 36, cipher);
    var s5 := Splice(s4, 20, tag);
    var f := Fields(nonce, tag, cipher);
    SerialiseLayout(f);
    // nonce length field
    SpliceWrites(blank, 0, Int32LE(NonceSize));
    SpliceKeeps(s1, 16, Int32LE(TagSize), 0, 4);
    SpliceKeeps(s2, 4, nonce, 0, 4);
    SpliceKeeps(s3, 36, cipher, 0, 4);
    SpliceKeeps(s4, 20, tag, 0, 4);
    // nonce
    SpliceWrites(s2, 4, nonce);
    SpliceKeeps(s3, 36, cipher, 4, 16);
    SpliceKeeps(s4, 20, tag, 4, 16);
    // tag length field
    SpliceWrites(s1, 16, Int32LE(TagSize));
    SpliceKeeps(s2, 4, nonce, 16, 20);
    SpliceKeeps(s3, 36, cipher, 16, 20);
    SpliceKeeps(s4, 20, tag, 16, 20);
    // tag
    SpliceWrites(s4, 20, tag);
    // ciphertext
    SpliceWrites(s3, 36, cipher);
    SpliceKeeps(s4, 20, tag, 36, |s5|);
    SlicesDetermine(s5, Serialise(f), NonceSize, TagSize);
  }

  /** Two buffers that agree on the five regions of the envelope layout are equal. */
  lemma SlicesDetermine(a: seq<byte>, b: seq<byte>, n: nat, t: nat)
    requires |a| == |b| >= 8 + n + t
    requires a[..4] == b[..4] && a[4..4 + n] == b[4..4 + n] && a[4 + n..8 + n] == b[4 + n..8 + n]
    requires a[8 + n..8 + n + t] == b[8 + n..8 + n + t] && a[8 + n + t..] == b[8 + n + t..]
    ensures a == b
  {
    assert a == a[..4] + a[4..4 + n] + a[4 + n..8 + n] + a[8 + n..8 + n + t] + a[8 + n + t..];
    assert b == b[..4] + b[4..4 + n] + b[4 + n..8 + n] + b[8 + n..8 + n + t] + b[8 + n + t..];
  }

  // A reference instance of the primitives, showing that `Lawful` can be met. It is not a
  // cipher (the "ciphertext" is the plaintext); text is encoded as four little-endian
  // bytes per character, and bytes as text one character per byte.

  function ZeroKey(password: string, salt: seq<byte>, iterations: nat, len: nat): seq<byte> {
    seq(len, i => 0)
  }

  function PlainSeal(key: seq<byte>, nonce: seq<byte>, m: seq<byte>): Sealed {
    Sealed(m, seq(TagSize, i => 0))
  }

  function PlainOpen(key: seq<byte>, nonce: seq<byte>, c: seq<byte>, tag: seq<byte>): Option<seq<byte>> {
    if |key| == KeySize && |nonce| == NonceSize && MinTagSize <= |tag| <= TagSize then Some(c) else None
  }

  function CharOf(q: seq<byte>): char
    requires |q| == 4
  {
    var v := ReadInt32LE(q);
    if 0 <= v < 0xD800 || 0xE000 <= v < 0x11_0000 then v as char else ' '
  }

  function WideEncodeAll(s: string): (b: seq<byte>)
    ensures |b| == 4 * |s|
  {
    if s == [] then [] else Int32LE(s[0] as int) + WideEncodeAll(s[1..])
  }

  function WideEncode(s: string): Option<seq<byte>> {
    if 4 * |s| <= Int32Max then Some(WideEncodeAll(s)) else None
  }

  function WideDecode(b: seq<byte>): string
    decreases |b|
  {
    if |b| < 4 then [] else [CharOf(b[..4])] + WideDecode(b[4..])
  }

  lemma {:induction false} WideDecodeEncode(s: string)
    ensures WideDecode(WideEncodeAll(s)) == s
  {
    if s != [] {
      var b := WideEncodeAll(s);
      assert b[..4] == Int32LE(s[0] as int);
      assert b[4..] == WideEncodeAll(s[1..]);
      ReadWriteInt32(s[0] as int);
      WideDecodeEncode(s[1..]);
      assert [s[0]] + s[1..] == s;
    }
  }

  function ByteString(b: seq<byte>): string {
    seq(|b|, i requires 0 <= i < |b| => b[i] as char)
  }

  function StringBytes(s: string): Option<seq<byte>> {
    if |s| <= Int32Max && forall i :: 0 <= i < |s| ==> s[i] as int < 0x100 then
      Some(seq(|s|, i requires 0 <= i < |s| => if s[i] as int < 0x100 then s[i] as int else 0))
    else None
  }

  function Reference(): Primitives {
    Primitives(ZeroKey, PlainSeal, PlainOpen, WideEncode, WideDecode, ByteString, StringBytes)
  }

  lemma ReferenceCipher()
    ensures var p := Reference();
      && (forall pw, salt, iterations, len :: |p.deriveKey(pw, salt, iterations, len)| == len)
      && (forall k, n, m :: |p.seal(k, n, m).cipher| == |m| && |p.seal(k, n, m).tag| == TagSize)
      && (forall k, n, m :: |k| == KeySize && |n| == NonceSize ==>
            p.open(k, n, p.seal(k, n, m).cipher, p.seal(k, n, m).tag) == Some(m))
      && (forall k, n, c, t :: p.open(k, n, c, t).Some? ==> |p.open(k, n, c, t).value| == |c|)
  {
  }

  lemma ReferenceText()
    ensures var p := Reference();
      forall s :: p.utf8Encode(s).Some? ==>
        |p.utf8Encode(s).value| <= Int32Max && p.utf8Decode(p.utf8Encode(s).value) == s
  {
    forall s | WideEncode(s).Some?
      ensures WideDecode(WideEncode(s).value) == s
    {
      WideDecodeEncode(s);
    }
  }

  lemma ReferenceBase64()
    ensures var p := Reference();
      && (forall b :: |b| <= Int32Max ==> p.fromBase64(p.toBase64(b)) == Some(b))
      && (forall s :: p.fromBase64(s).Some? ==> |p.fromBase64(s).value| <= Int32Max)
  {
    forall b: seq<byte> | |b| <= Int32Max
      ensures StringBytes(ByteString(b)) == Some(b)
    {
      var t := ByteString(b);
      assert forall i :: 0 <= i < |t| ==> t[i] as int == b[i];
      assert StringBytes(t).value == b;
    }
  }

  /** The hypothesis on the primitives is consistent: the reference instance meets it. */
  lemma ReferenceIsLawful()
    ensures Lawful(Reference())
  {
    ReferenceCipher();
    ReferenceText();
    ReferenceBase64();
  }
}
