/**
 * String helpers that the C# code takes from the .NET base library:
 * decimal formatting of integers (string interpolation), `ushort.Parse`,
 * `string.Join` and `string.Split` with a separator.
 */
module Text {
  import opened Wrappers

  predicate IsDigit(c: char) {
    '0' <= c <= '9'
  }

  predicate AllDigits(s: string) {
    forall i :: 0 <= i < |s| ==> IsDigit(s[i])
  }

  function DigitChar(d: nat): (c: char)
    requires d < 10
    ensures IsDigit(c) && c as int - '0' as int == d
  {
    ('0' as int + d) as char
  }

  /** Decimal rendering of a natural number, as `{n}` in a C# interpolated string. */
  function DecimalString(n: nat): (s: string)
    ensures |s| >= 1 && AllDigits(s)
    ensures s[0] == '0' ==> n == 0 && s == "0"
    decreases n
  {
    if n < 10 then [DigitChar(n)] else DecimalString(n / 10) + [DigitChar(n % 10)]
  }

  /** The number a string of decimal digits denotes. */
  function DigitsValue(s: string): nat
    requires AllDigits(s)
  {
    if s == [] then 0
    else DigitsValue(s[..|s| - 1]) * 10 + (s[|s| - 1] as int - '0' as int)
  }

  datatype ParseError = FormatError | OverflowError

  /** `ushort.Parse` restricted to plain ASCII digits: empty or non-digit text is a
      format error, a value above 65535 an overflow. */
  function ParseUShort(s: string): (r: Result<nat, ParseError>)
    ensures r.Success? ==> r.value < 0x1_0000 && AllDigits(s) && s != []
    ensures r.Success? ==> r.value == DigitsValue(s)
    ensures (s == [] || !AllDigits(s)) ==> r == Failure(FormatError)
    ensures s != [] && AllDigits(s) && DigitsValue(s) >= 0x1_0000 ==> r == Failure(OverflowError)
  {
    if s == [] || !AllDigits(s) then Failure(FormatError)
    else if DigitsValue(s) >= 0x1_0000 then Failure(OverflowError)
    else Success(DigitsValue(s))
  }

  lemma {:induction false} DigitsValueOfDecimal(n: nat)
    ensures DigitsValue(DecimalString(n)) == n
    decreases n
  {
    if n >= 10 {
      var s := DecimalString(n);
      DigitsValueOfDecimal(n / 10);
      assert s[..|s| - 1] == DecimalString(n / 10);
    }
  }

  /** Printing a 16-bit version number and parsing it back gives the number. */
  lemma ParseDecimalString(n: nat)
    requires n < 0x1_0000
    ensures ParseUShort(DecimalString(n)) == Success(n)
  {
    DigitsValueOfDecimal(n);
  }

  /** `string.Join(sep, parts)`. */
  function Join(sep: string, parts: seq<string>): string
  {
    if |parts| == 0 then ""
    else if |parts| == 1 then parts[0]
    else parts[0] + sep + Join(sep, parts[1..])
  }

  /** `s.Split(sep)`: scanning left to right, every occurrence of `sep` ends a piece. */
  function Split(s: string, sep: string): (r: seq<string>)
    requires |sep| > 0
    ensures |r| >= 1
    decreases |s|
  {
    if s == [] then [""]
    else if sep <= s then [""] + Split(s[|sep|..], sep)
    else
      var rest := Split(s[1..], sep);
      [[s[0]] + rest[0]] + rest[1..]
  }

  /** `sep` occurs somewhere inside `s`. */
  predicate Occurs(s: string, sep: string)
    decreases |s|
  {
    sep <= s || (s != [] && Occurs(s[1..], sep))
  }

  /** The first character of `sep` does not appear again in it, so two occurrences
      of `sep` can never overlap (true of " " and of "&keys="). */
  predicate FirstCharUnique(sep: string) {
    |sep| > 0 && forall i :: 0 < i < |sep| ==> sep[i] != sep[0]
  }

  lemma JoinCons(sep: string, a: string, x: seq<string>)
    requires |x| >= 1
    ensures Join(sep, [a] + x) == a + sep + Join(sep, x)
  {
    assert ([a] + x)[1..] == x;
  }

  lemma JoinExtendHead(sep: string, c: char, r: seq<string>)
    requires |r| >= 1
    ensures Join(sep, [[c] + r[0]] + r[1..]) == [c] + Join(sep, r)
  {
    if |r| > 1 {
      JoinCons(sep, [c] + r[0], r[1..]);
      JoinCons(sep, r[0], r[1..]);
      assert [r[0]] + r[1..] == r;
    }
  }

  /** Joining the pieces of a split with the same separator gives the string back. */
  lemma {:induction false} JoinSplit(s: string, sep: string)
    requires |sep| > 0
    ensures Join(sep, Split(s, sep)) == s
    decreases |s|
  {
    if s == [] {
    } else if sep <= s {
      JoinSplit(s[|sep|..], sep);
      JoinSplitAtSeparator(s, sep);
    } else {
      JoinSplit(s[1..], sep);
      JoinSplitAtChar(s, sep);
    }
  }

  lemma JoinSplitAtSeparator(s: string, sep: string)
    requires |sep| > 0 && s != [] && sep <= s
    requires Join(sep, Split(s[|sep|..], sep)) == s[|sep|..]
    ensures Join(sep, Split(s, sep)) == s
  {
    var x := Split(s[|sep|..], sep);
    SplitUnfoldAtSeparator(s, sep);
    JoinAfterSeparator(s, sep, x);
  }

  lemma SplitUnfoldAtSeparator(s: string, sep: string)
    requires |sep| > 0 && s != [] && sep <= s
    ensures Split(s, sep) == [""] + Split(s[|sep|..], sep)
  {
  }

  lemma JoinAfterSeparator(s: string, sep: string, x: seq<string>)
    requires |sep| > 0 && sep <= s && |x| >= 1
    requires Join(sep, x) == s[|sep|..]
    ensures Join(sep, [""] + x) == s
  {
    JoinCons(sep, "", x);
    assert "" + sep == sep;
    assert sep + s[|sep|..] == s by {
      assert s[..|sep|] == sep;
      assert s[..|sep|] + s[|sep|..] == s;
    }
  }

  lemma JoinSplitAtChar(s: string, sep: string)
    requires |sep| > 0 && s != [] && !(sep <= s)
    requires Join(sep, Split(s[1..], sep)) == s[1..]
    ensures Join(sep, Split(s, sep)) == s
  {
    var r := Split(s[1..], sep);
    SplitUnfoldAtChar(s, sep);
    JoinAfterChar(s, sep, r);
  }

  lemma SplitUnfoldAtChar(s: string, sep: string)
    requires |sep| > 0 && s != [] && !(sep <= s)
    ensures var r := Split(s[1..], sep); Split(s, sep) == [[s[0]] + r[0]] + r[1..]
  {
  }

  lemma JoinAfterChar(s: string, sep: string, r: seq<string>)
    requires s != [] && |r| >= 1
    requires Join(sep, r) == s[1..]
    ensures Join(sep, [[s[0]] + r[0]] + r[1..]) == s
  {
    JoinExtendHead(sep, s[0], r);
    assert s == [s[0]] + s[1..];
  }

  /** A piece without the separator in it splits into itself. */
  lemma {:induction false} SplitWithoutSeparator(k: string, sep: string)
    requires |sep| > 0 && !Occurs(k, sep)
    ensures Split(k, sep) == [k]
    decreases |k|
  {
    if k != [] {
      SplitWithoutSeparator(k[1..], sep);
      assert [k[0]] + k[1..] == k;
    }
  }

  lemma SeparatorNotAfterPiece(k: string, t: string, sep: string)
    requires FirstCharUnique(sep) && !Occurs(k, sep) && k != []
    ensures !(sep <= k + sep + t)
  {
    if sep <= k + sep + t {
      if |k| >= |sep| {
        assert false;
      } else {
        SeparatorStartsAt(k, t, sep);
        assert false;
      }
    }
  }

  lemma SeparatorStartsAt(k: string, t: string, sep: string)
    requires |sep| > 0
    ensures (k + sep + t)[|k|] == sep[0]
  {
  }

  /** Splitting `k + sep + t` cuts exactly at the separator after `k`. */
  lemma {:induction false} SplitAtSeparator(k: string, t: string, sep: string)
    requires FirstCharUnique(sep) && !Occurs(k, sep)
    ensures Split(k + sep + t, sep) == [k] + Split(t, sep)
    decreases |k|
  {
    var s := k + sep + t;
    if k == [] {
      assert sep <= s;
      assert s[|sep|..] == t;
    } else {
      SeparatorNotAfterPiece(k, t, sep);
      assert s[0] == k[0];
      assert s[1..] == k[1..] + sep + t;
      SplitAtSeparator(k[1..], t, sep);
      assert Split(s, sep) == [[k[0]] + k[1..]] + Split(t, sep);
      assert [k[0]] + k[1..] == k;
    }
  }

  /** When no piece contains the separator, splitting the joined string recovers the
      pieces in order. */
  lemma {:induction false} SplitJoin(parts: seq<string>, sep: string)
    requires FirstCharUnique(sep) && |parts| > 0
    requires forall i :: 0 <= i < |parts| ==> !Occurs(parts[i], sep)
    ensures Split(Join(sep, parts), sep) == parts
    decreases |parts|
  {
    if |parts| == 1 {
      SplitWithoutSeparator(parts[0], sep);
    } else {
      SplitAtSeparator(parts[0], Join(sep, parts[1..]), sep);
      SplitJoin(parts[1..], sep);
      assert [parts[0]] + parts[1..] == parts;
    }
  }
}
