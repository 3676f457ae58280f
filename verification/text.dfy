/** String primitives the wizard leans on, written out instead of borrowed from
    a JavaScript engine: `String.prototype.trim`, the regular-expression class
    `\d`, `String.prototype.slice` with non-negative bounds, and `startsWith`. */
module Text {

  /** The ECMAScript WhiteSpace and LineTerminator code points: exactly what
      `trim` strips from both ends of a string. */
  const Whitespace: set<char> := {
    '\t', '\n', '\U{000B}', '\U{000C}', '\r', ' ', '\U{00A0}', '\U{1680}',
    '\U{2000}', '\U{2001}', '\U{2002}', '\U{2003}', '\U{2004}', '\U{2005}',
    '\U{2006}', '\U{2007}', '\U{2008}', '\U{2009}', '\U{200A}',
    '\U{2028}', '\U{2029}', '\U{202F}', '\U{205F}', '\U{3000}', '\U{FEFF}'
  }

  /** The class `\d` of a regular expression without the `u` flag: ASCII digits only. */
  predicate IsDigit(c: char) {
    '0' <= c <= '9'
  }

  predicate AllDigits(s: string) {
    forall i :: 0 <= i < |s| ==> IsDigit(s[i])
  }

  /** Every character is whitespace: the strings that `trim` turns into "". */
  predicate Blank(s: string) {
    forall i :: 0 <= i < |s| ==> s[i] in Whitespace
  }

  function Min(a: int, b: int): int {
    if a <= b then a else b
  }

  function Max(a: int, b: int): int {
    if a <= b then b else a
  }

  /** Drops the leading whitespace: the result is a suffix of `s` that does
      not start with whitespace, and everything dropped was whitespace. */
  function TrimStart(s: string): (r: string)
    ensures |r| <= |s| && r == s[|s| - |r|..]
    ensures forall i :: 0 <= i < |s| - |r| ==> s[i] in Whitespace
    ensures r == "" || r[0] !in Whitespace
  {
    if s == [] || s[0] !in Whitespace then s else TrimStart(s[1..])
  }

  /** Drops the trailing whitespace: the result is a prefix of `s` that does
      not end with whitespace, and everything dropped was whitespace. */
  function TrimEnd(s: string): (r: string)
    ensures |r| <= |s| && r == s[..|r|]
    ensures forall i :: |r| <= i < |s| ==> s[i] in Whitespace
    ensures r == "" || r[|r| - 1] !in Whitespace
  {
    if s == [] || s[|s| - 1] !in Whitespace then s else TrimEnd(s[..|s| - 1])
  }

  /** `s.trim()`. It is empty exactly when `s` is blank, and otherwise neither
      starts nor ends with whitespace. */
  function Trim(s: string): (r: string)
    ensures r == "" <==> Blank(s)
    ensures r == "" || (r[0] !in Whitespace && r[|r| - 1] !in Whitespace)
    ensures |r| <= |s|
  {
    var t := TrimStart(s);
    var r := TrimEnd(t);
    r
  }

  /** `s.replace(/\D/g, '')`: the ASCII digits of `s`, in their order. */
  function Digits(s: string): (r: string)
    ensures |r| <= |s|
    ensures AllDigits(r)
    ensures r == "" <==> forall i :: 0 <= i < |s| ==> !IsDigit(s[i])
  {
    if s == [] then []
    else
      var rest := Digits(s[1..]);
      assert forall i :: 1 <= i < |s| ==> s[i] == s[1..][i - 1];
      if IsDigit(s[0]) then [s[0]] + rest else rest
  }

  /** Removing non-digits commutes with concatenation. */
  lemma {:induction false} DigitsAppend(a: string, b: string)
    ensures Digits(a + b) == Digits(a) + Digits(b)
  {
    if a == [] {
      assert a + b == b;
    } else {
      assert (a + b)[1..] == a[1..] + b;
      DigitsAppend(a[1..], b);
    }
  }

  /** A string of digits is its own digit content. */
  lemma {:induction false} DigitsOfDigits(s: string)
    requires AllDigits(s)
    ensures Digits(s) == s
  {
    if s != [] {
      DigitsOfDigits(s[1..]);
    }
  }

  /** `s.slice(start, end)` for non-negative bounds: both bounds are clamped to
      the length, and a start at or beyond the end gives "". */
  function Slice(s: string, start: nat, end: nat): (r: string)
    ensures |r| == Max(0, Min(end, |s|) - Min(start, |s|))
    ensures forall i :: 0 <= i < |r| ==> r[i] == s[start + i]
  {
    if start >= |s| || start >= end then [] else s[start..Min(end, |s|)]
  }

  /** `s.startsWith(prefix)`: `s` agrees with `prefix` at each of its
      positions. */
  predicate StartsWith(s: string, prefix: string): (b: bool)
    ensures b <==> |prefix| <= |s| && forall i :: 0 <= i < |prefix| ==> s[i] == prefix[i]
  {
    |prefix| <= |s| && s[..|prefix|] == prefix
  }
}
