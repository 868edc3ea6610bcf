/**
 * `NSDataExtensions.ToHexString` (Chaincase.iOS/AppDelegate.cs): the push-notification
 * device token as upper-case base16 (the alphabet of section 8 of RFC 4648).
 */
module Hex {
  import opened Wrappers
  import Envelope

  type byte = Envelope.byte

  /** The digit `AppendFormat("{0:x2}")` writes for a nibble. */
  function LowerDigit(n: nat): char
    requires n < 16
  {
    if n < 10 then ('0' as int + n) as char else ('a' as int + n - 10) as char
  }

  predicate IsUpperHexChar(c: char) {
    '0' <= c <= '9' || 'A' <= c <= 'F'
  }

  /** The base16 digit of a nibble. */
  function UpperDigit(n: nat): (c: char)
    requires n < 16
    ensures IsUpperHexChar(c)
  {
    if n < 10 then ('0' as int + n) as char else ('A' as int + n - 10) as char
  }

  /** The nibble a base16 digit stands for. */
  function DigitValue(c: char): (n: nat)
    requires IsUpperHexChar(c)
    ensures n < 16 && UpperDigit(n) == c
  {
    if c <= '9' then c as int - '0' as int else c as int - 'A' as int + 10
  }

  lemma DigitValueOfDigit(n: nat)
    requires n < 16
    ensures DigitValue(UpperDigit(n)) == n
  {
  }

  /** `char.ToUpperInvariant` on the characters this code produces. */
  function UpperChar(c: char): char {
    if 'a' <= c <= 'z' then (c as int - 32) as char else c
  }

  /** `string.ToUpperInvariant` */
  function ToUpperInvariant(s: string): (r: string)
    ensures |r| == |s| && forall i :: 0 <= i < |s| ==> r[i] == UpperChar(s[i])
  {
    seq(|s|, i requires 0 <= i < |s| => UpperChar(s[i]))
  }

  /** Upper-casing a lower-case digit gives the base16 digit. */
  lemma UpperLowerDigit(n: nat)
    requires n < 16
    ensures UpperChar(LowerDigit(n)) == UpperDigit(n)
  {
  }

  /** Base16 of a byte string: two digits per byte, high nibble first, bytes in order. */
  function Hex(bytes: seq<byte>): (s: string)
    ensures |s| == 2 * |bytes|
    ensures forall i :: 0 <= i < |s| ==> IsUpperHexChar(s[i])
    ensures forall k :: 0 <= k < |bytes| ==>
      s[2 * k] == UpperDigit(bytes[k] / 16) && s[2 * k + 1] == UpperDigit(bytes[k] % 16)
    decreases |bytes|
  {
    if bytes == [] then []
    else
      var rest := Hex(bytes[1..]);
      var s := [UpperDigit(bytes[0] / 16), UpperDigit(bytes[0] % 16)] + rest;
      assert forall k :: 1 <= k < |bytes| ==> bytes[1..][k - 1] == bytes[k] && s[2 * k] == rest[2 * (k - 1)];
      s
  }

  /** A base16 decoder: pairs of digits back to bytes; odd length or a foreign character fails. */
  function Unhex(s: string): (r: Option<seq<byte>>)
    ensures r.Some? ==> 2 * |r.value| == |s|
    decreases |s|
  {
    if s == [] then Some([])
    else if |s| < 2 || !IsUpperHexChar(s[0]) || !IsUpperHexChar(s[1]) then None
    else
      match Unhex(s[2..])
      case None => None
      case Some(rest) => Some([16 * DigitValue(s[0]) + DigitValue(s[1])] + rest)
  }

  /** Decoding the encoding gives the bytes back. */
  lemma {:induction false} UnhexHex(bytes: seq<byte>)
    ensures Unhex(Hex(bytes)) == Some(bytes)
    decreases |bytes|
  {
    if bytes != [] {
      var s := Hex(bytes);
      assert s[0] == UpperDigit(bytes[0] / 16) && s[1] == UpperDigit(bytes[0] % 16);
      assert s[2..] == Hex(bytes[1..]);
      UnhexHex(bytes[1..]);
      DigitValueOfDigit(bytes[0] / 16);
      DigitValueOfDigit(bytes[0] % 16);
      assert [bytes[0]] + bytes[1..] == bytes;
    }
  }

  /** Different tokens never share a hex string. */
  lemma HexInjective(a: seq<byte>, b: seq<byte>)
    requires Hex(a) == Hex(b)
    ensures a == b
  {
    UnhexHex(a);
    UnhexHex(b);
  }

  /** `ToHexString`: null stays null; otherwise each byte is appended as two lower-case
      digits and the whole text is upper-cased at the end. */
  method ToHexString(bytes: array?<byte>) returns (r: Option<string>)
    ensures bytes == null ==> r == None
    ensures bytes != null ==> r == Some(Hex(bytes[..]))
  {
    if bytes == null {
      return None;
    }
    var sb: string := [];
    for i := 0 to bytes.Length
      invariant |sb| == 2 * i
      invariant forall k :: 0 <= k < i ==>
        sb[2 * k] == LowerDigit(bytes[k] / 16) && sb[2 * k + 1] == LowerDigit(bytes[k] % 16)
    {
      sb := sb + [LowerDigit(bytes[i] / 16), LowerDigit(bytes[i] % 16)];
    }
    var s := ToUpperInvariant(sb);
    var expected := Hex(bytes[..]);
    forall j | 0 <= j < |s|
      ensures s[j] == expected[j]
    {
      var k := j / 2;
      assert bytes[..][k] == bytes[k];
      UpperLowerDigit(bytes[k] / 16);
      UpperLowerDigit(bytes[k] % 16);
      if j % 2 == 0 {
        assert j == 2 * k;
      } else {
        assert j == 2 * k + 1;
      }
    }
    assert s == expected;
    return Some(s);
  }
}
