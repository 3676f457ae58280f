/** The phone mask of the first step (src/pages/PersonalForm.tsx): the
    pattern `0\d{3} \d{3} \d{3}` and the formatter applied on every keystroke.
    Formatting keeps at most ten digits, forces a leading `0`, and groups the
    digits 4/3/3 with single spaces. */
module PhoneFormat {
  import opened Text

  /** `phonePattern.test(s)` for the anchored pattern `^0\d{3} \d{3} \d{3}$`. */
  predicate MatchesPhonePattern(s: string) {
    && |s| == 12
    && s[0] == '0'
    && IsDigit(s[1]) && IsDigit(s[2]) && IsDigit(s[3])
    && s[4] == ' '
    && IsDigit(s[5]) && IsDigit(s[6]) && IsDigit(s[7])
    && s[8] == ' '
    && IsDigit(s[9]) && IsDigit(s[10]) && IsDigit(s[11])
  }

  /** What the mask admits at position `i`. */
  predicate MaskAllows(i: nat, c: char) {
    if i == 0 then c == '0'
    else if i == 4 || i == 8 then c == ' '
    else IsDigit(c)
  }

  /** `s` agrees with the mask at every position it has. */
  predicate FitsMask(s: string) {
    |s| <= 12 && forall i :: 0 <= i < |s| ==> MaskAllows(i, s[i])
  }

  /** A full string that fits the mask, used to complete a shorter one. */
  const Template: string := "0000 000 000"

  /** `parts.filter(Boolean)`: the non-empty strings, in order. */
  function NonEmpty(parts: seq<string>): (r: seq<string>)
    ensures |r| <= |parts|
    ensures forall i :: 0 <= i < |r| ==> r[i] != ""
    ensures forall x :: x in r <==> x in parts && x != ""
  {
    if parts == [] then []
    else if parts[0] == "" then NonEmpty(parts[1..])
    else [parts[0]] + NonEmpty(parts[1..])
  }

  /** Filtering distributes over concatenation, so the kept parts stay in
      their original order. */
  lemma {:induction false} NonEmptyAppend(a: seq<string>, b: seq<string>)
    ensures NonEmpty(a + b) == NonEmpty(a) + NonEmpty(b)
    decreases |a|
  {
    if a != [] {
      assert (a + b)[1..] == a[1..] + b;
      NonEmptyAppend(a[1..], b);
    } else {
      assert a + b == b;
    }
  }

  /** `parts.join(sep)`. */
  function Join(parts: seq<string>, sep: string): string {
    if parts == [] then ""
    else if |parts| == 1 then parts[0]
    else parts[0] + sep + Join(parts[1..], sep)
  }

  /** The first at most ten digits, with a `0` forced in front: a `0` is
      prepended when the first digit is not one, and the result cut back to
      ten characters. */
  function Normalize(digitsOnly: string): (n: string)
    requires digitsOnly != ""
    ensures n != "" && n[0] == '0'
    ensures |digitsOnly| <= 10 ==> |n| <= 10
    ensures digitsOnly[0] == '0' ==> n == digitsOnly
    ensures digitsOnly[0] != '0' ==> n[1..] == Slice(digitsOnly, 0, 9)
  {
    if digitsOnly[0] == '0' then digitsOnly else Slice("0" + digitsOnly, 0, 10)
  }

  /** The three groups of four, three and three characters, joined by single
      spaces, empty groups left out. */
  function Group(normalized: string): string {
    var n := |normalized|;
    var parts := [
      Slice(normalized, 0, Min(4, n)),
      Slice(normalized, 4, Min(7, n)),
      Slice(normalized, 7, Min(10, n))
    ];
    Join(NonEmpty(parts), " ")
  }

  /** `formatPhone(value)`. */
  function FormatPhone(value: string): string {
    var digitsOnly := Slice(Digits(value), 0, 10);
    if digitsOnly == "" then "" else Group(Normalize(digitsOnly))
  }

  /** The digit string the formatter groups, stated from the input's digits
      alone: the first ten when they start with `0`, otherwise `0` followed by
      the first nine. */
  function ExpectedDigits(value: string): (n: string)
    ensures |n| <= 10 && AllDigits(n)
    ensures n == "" <==> Digits(value) == ""
    ensures n != "" ==> n[0] == '0'
  {
    var d := Digits(value);
    if d == "" then ""
    else if d[0] == '0' then Slice(d, 0, 10)
    else "0" + Slice(d, 0, 9)
  }

  /** The formatter's digit string is the one `ExpectedDigits` describes. */
  lemma NormalizeIsExpected(value: string)
    requires Digits(value) != ""
    ensures Normalize(Slice(Digits(value), 0, 10)) == ExpectedDigits(value)
  {
    var d := Digits(value);
    var t := Slice(d, 0, 10);
    if d[0] != '0' {
      var a := Slice("0" + t, 0, 10);
      var b := "0" + Slice(d, 0, 9);
      assert |a| == |b|;
      forall i | 0 <= i < |a|
        ensures a[i] == b[i]
      {
        if i > 0 {
          assert a[i] == ("0" + t)[i] == t[i - 1];
        }
      }
    }
  }

  /** The grouping spelled out by length. */
  lemma GroupShape(n: string)
    requires 1 <= |n| <= 10
    ensures |n| <= 4 ==> Group(n) == n
    ensures 4 < |n| <= 7 ==> Group(n) == n[..4] + " " + n[4..]
    ensures 7 < |n| ==> Group(n) == n[..4] + " " + n[4..7] + " " + n[7..]
  {
    var k := |n|;
    var p0 := Slice(n, 0, Min(4, k));
    var p1 := Slice(n, 4, Min(7, k));
    var p2 := Slice(n, 7, Min(10, k));
    assert p0 == n[..Min(4, k)] && p0 != "";
    assert [p0, p1, p2][1..] == [p1, p2];
    assert [p1, p2][1..] == [p2];
    assert [p2][1..] == [];
    assert NonEmpty([p2]) == (if p2 == "" then [] else [p2]);
    assert NonEmpty([p1, p2]) == (if p1 == "" then [] else [p1]) + NonEmpty([p2]);
    assert NonEmpty([p0, p1, p2]) == [p0] + NonEmpty([p1, p2]);
    if k <= 4 {
      assert p1 == "" && p2 == "";
      assert NonEmpty([p0, p1, p2]) == [p0];
    } else if k <= 7 {
      assert p1 == n[4..];
      assert p2 == "";
      assert NonEmpty([p0, p1, p2]) == [p0, p1];
      assert Join([p0, p1], " ") == p0 + " " + Join([p1], " ");
    } else {
      assert p1 == n[4..7];
      assert p2 == n[7..];
      assert NonEmpty([p0, p1, p2]) == [p0, p1, p2];
      assert Join([p0, p1, p2], " ") == p0 + " " + Join([p1, p2], " ");
      assert Join([p1, p2], " ") == p1 + " " + Join([p2], " ");
    }
  }

  /** Dropping the two separators of three digit groups. */
  lemma DigitsOfGroups(a: string, b: string, c: string)
    requires AllDigits(a) && AllDigits(b) && AllDigits(c)
    ensures Digits(a + " " + b + " " + c) == a + b + c
  {
    DigitsOfDigits(a);
    DigitsOfDigits(b);
    DigitsOfDigits(c);
    assert Digits(" ") == "";
    var x1 := a + " ";
    DigitsAppend(a, " ");
    var x2 := x1 + b;
    DigitsAppend(x1, b);
    var x3 := x2 + " ";
    DigitsAppend(x2, " ");
    assert Digits(x1) == a;
    assert Digits(x2) == a + b;
    assert Digits(x3) == a + b;
    DigitsAppend(x3, c);
    assert Digits(x3 + c) == a + b + c;
  }

  /** Grouping only inserts spaces: the digits come back out unchanged. */
  lemma GroupDigits(n: string)
    requires 1 <= |n| <= 10 && AllDigits(n)
    ensures Digits(Group(n)) == n
  {
    GroupShape(n);
    var k := |n|;
    DigitsOfDigits(n[..Min(4, k)]);
    if k > 4 {
      DigitsOfDigits(n[4..Min(7, k)]);
      DigitsAppend(n[..4], " ");
      if k <= 7 {
        assert n[4..Min(7, k)] == n[4..];
        DigitsAppend(n[..4] + " ", n[4..]);
        assert n[..4] + n[4..] == n;
      } else {
        DigitsOfGroups(n[..4], n[4..7], n[7..]);
        assert n[..4] + n[4..7] + n[7..] == n;
      }
    }
  }

  /** A grouped digit string fits the mask and does not end in a space;
      with ten digits it matches the full pattern. */
  lemma GroupFitsMask(n: string)
    requires 1 <= |n| <= 10 && AllDigits(n) && n[0] == '0'
    ensures FitsMask(Group(n))
    ensures Group(n)[|Group(n)| - 1] != ' '
    ensures MatchesPhonePattern(Group(n)) <==> |n| == 10
  {
    GroupShape(n);
    var g := Group(n);
    var k := |n|;
    if k <= 4 {
      assert g == n;
    } else if k <= 7 {
      assert |g| == k + 1;
      forall i | 0 <= i < |g|
        ensures MaskAllows(i, g[i])
      {
        if i > 4 {
          assert g[i] == n[4..][i - 5];
        }
      }
    } else {
      assert |g| == k + 2;
      forall i | 0 <= i < |g|
        ensures MaskAllows(i, g[i])
      {
        if 4 < i < 8 {
          assert g[i] == n[4..7][i - 5];
        } else if i > 8 {
          assert g[i] == n[7..][i - 9];
        }
      }
      if k == 10 {
        assert MaskAllows(1, g[1]) && MaskAllows(2, g[2]) && MaskAllows(3, g[3]);
        assert MaskAllows(5, g[5]) && MaskAllows(6, g[6]) && MaskAllows(7, g[7]);
        assert MaskAllows(9, g[9]) && MaskAllows(10, g[10]) && MaskAllows(11, g[11]);
      }
    }
  }

  /** The full pattern is the mask at full length. */
  lemma PatternIsFullMask(s: string)
    ensures MatchesPhonePattern(s) <==> |s| == 12 && FitsMask(s)
  {
    if |s| == 12 && FitsMask(s) {
      assert MaskAllows(0, s[0]) && MaskAllows(1, s[1]) && MaskAllows(2, s[2]) && MaskAllows(3, s[3]);
      assert MaskAllows(4, s[4]) && MaskAllows(5, s[5]) && MaskAllows(6, s[6]) && MaskAllows(7, s[7]);
      assert MaskAllows(8, s[8]) && MaskAllows(9, s[9]) && MaskAllows(10, s[10]) && MaskAllows(11, s[11]);
    }
  }

  /** Any string fitting the mask is a prefix of a string matching the full
      pattern: complete it from `Template`. */
  lemma MaskPrefixCompletes(s: string)
    requires FitsMask(s)
    ensures MatchesPhonePattern(s + Template[|s|..])
  {
    var full := s + Template[|s|..];
    assert |full| == 12;
    forall i | 0 <= i < 12
      ensures MaskAllows(i, full[i])
    {
      if i >= |s| {
        assert full[i] == Template[i];
      }
    }
    PatternIsFullMask(full);
  }

  /** No digit in the input gives the empty string; otherwise the output is
      non-empty and starts with `0`. */
  lemma FormatPhoneEmpty(value: string)
    ensures FormatPhone(value) == "" <==> forall i :: 0 <= i < |value| ==> !IsDigit(value[i])
    ensures FormatPhone(value) != "" ==> FormatPhone(value)[0] == '0'
  {
    if Digits(value) != "" {
      NormalizeIsExpected(value);
      var n := ExpectedDigits(value);
      GroupShape(n);
    }
  }

  /** The digits of the output are the expected ones: the input's first ten
      when they start with `0`, otherwise `0` and the input's first nine. */
  lemma FormatPhoneDigits(value: string)
    ensures Digits(FormatPhone(value)) == ExpectedDigits(value)
  {
    if Digits(value) != "" {
      NormalizeIsExpected(value);
      GroupDigits(ExpectedDigits(value));
    }
  }

  /** The output holds only digits and single spaces: it fits the mask
      `0ddd ddd ddd` as far as it goes, is a prefix of a full match, never ends
      in a space, has at most ten digits, and matches the full pattern exactly
      when it has ten. */
  lemma FormatPhoneShape(value: string)
    ensures var r := FormatPhone(value);
      && FitsMask(r)
      && (r == "" || r[|r| - 1] != ' ')
      && MatchesPhonePattern(r + Template[|r|..])
      && |Digits(r)| <= 10
      && (MatchesPhonePattern(r) <==> |Digits(r)| == 10)
  {
    var r := FormatPhone(value);
    FormatPhoneDigits(value);
    if Digits(value) != "" {
      NormalizeIsExpected(value);
      GroupFitsMask(ExpectedDigits(value));
    }
    MaskPrefixCompletes(r);
  }

  /** The formatted value matches the full pattern exactly when the input
      held ten digits, or nine not starting with `0` (the formatter then
      supplies the `0`). */
  lemma FormatPhoneAccepted(value: string)
    ensures MatchesPhonePattern(FormatPhone(value)) <==>
      |Digits(value)| >= 10 || (|Digits(value)| == 9 && Digits(value)[0] != '0')
  {
    FormatPhoneShape(value);
    FormatPhoneDigits(value);
  }

  /** Formatting a formatted number changes nothing. */
  lemma FormatPhoneIdempotent(value: string)
    ensures FormatPhone(FormatPhone(value)) == FormatPhone(value)
  {
    var r := FormatPhone(value);
    if Digits(value) != "" {
      NormalizeIsExpected(value);
      var n := ExpectedDigits(value);
      GroupDigits(n);
      assert Digits(r) == n;
      assert Slice(n, 0, 10) == n;
    }
  }

  /** Every string matching the pattern is left as it is. */
  lemma PatternIsFixedPoint(p: string)
    requires MatchesPhonePattern(p)
    ensures FormatPhone(p) == p
  {
    var n := p[..4] + p[5..8] + p[9..];
    assert p == p[..4] + " " + p[5..8] + " " + p[9..];
    DigitsOfGroups(p[..4], p[5..8], p[9..]);
    assert Slice(Digits(p), 0, 10) == n;
    GroupShape(n);
    assert n[..4] == p[..4] && n[4..7] == p[5..8] && n[7..] == p[9..];
  }

  /** Eleven digits not starting with `0`: a `0` is forced in front and the last digit is cut off. */
  lemma FormatPhoneExample(v: string)
    requires v == "71234567890"
    ensures FormatPhone(v) == "0712 345 678"
  {
    var n := "0712345678";
    ExampleDigits(v);
    NormalizeIsExpected(v);
    assert FormatPhone(v) == Group(n);
    ExampleGroups(n);
  }

  lemma ExampleDigits(v: string)
    requires v == "71234567890"
    ensures ExpectedDigits(v) == "0712345678"
  {
    DigitsOfDigits(v);
    assert Slice(v, 0, 9) == "712345678";
  }

  lemma ExampleGroups(n: string)
    requires n == "0712345678"
    ensures Group(n) == "0712 345 678"
  {
    assert n[..4] == "0712" && n[4..7] == "345" && n[7..] == "678";
    GroupShape(n);
  }
}
