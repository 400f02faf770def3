/** The pieces of Python's str and html modules that the link generator
    relies on: str(int), integer formatting with a width, str.replace,
    the `in` test on strings, str.strip, str.lower on ASCII, and
    html.escape. */
module Text {
  import opened Wrappers

  // ---------------------------------------------------------------------
  // Decimal numerals: str(n) and its reading back

  predicate IsDigit(c: char) { '0' <= c <= '9' }

  predicate AllDigits(s: string) { forall i :: 0 <= i < |s| ==> IsDigit(s[i]) }

  function DigitChar(d: nat): (c: char)
    requires d < 10
    ensures IsDigit(c)
  {
    ['0', '1', '2', '3', '4', '5', '6', '7', '8', '9'][d]
  }

  function DigitValue(c: char): nat
    requires IsDigit(c)
  {
    (c as int - '0' as int) as nat
  }

  /** The number a string of decimal digits denotes (leading zeros allowed). */
  function DigitsValue(s: string): nat
    requires AllDigits(s)
  {
    if s == [] then 0 else DigitsValue(s[..|s| - 1]) * 10 + DigitValue(s[|s| - 1])
  }

  /** str(m) for a non-negative integer: the shortest decimal numeral of m. */
  function NatToString(m: nat): (r: string)
    ensures |r| > 0 && AllDigits(r)
    ensures DigitsValue(r) == m
    ensures r[0] == '0' ==> r == "0"
    decreases m
  {
    if m < 10 then [DigitChar(m)]
    else
      var prefix := NatToString(m / 10);
      assert (prefix + [DigitChar(m % 10)])[..|prefix|] == prefix;
      prefix + [DigitChar(m % 10)]
  }

  function Abs(n: int): nat { if n < 0 then -n else n }

  /** str(n): an optional minus sign followed by the digits of |n|. */
  function IntToString(n: int): string
  {
    if n < 0 then "-" + NatToString(-n) else NatToString(n)
  }

  /** Reads back an integer numeral: an optional '-' and at least one digit.
      This is the reference against which the numerals below are checked. */
  function DecimalValue(s: string): Option<int>
  {
    if |s| > 0 && s[0] == '-' then
      if |s| > 1 && AllDigits(s[1..]) then Some(0 - DigitsValue(s[1..])) else None
    else if |s| > 0 && AllDigits(s) then Some(DigitsValue(s))
    else None
  }

  lemma IntToStringRoundTrip(n: int)
    ensures DecimalValue(IntToString(n)) == Some(n)
  {
    if n < 0 {
      assert IntToString(n)[1..] == NatToString(-n);
    }
  }

  function Repeat(c: char, k: nat): (r: string)
    ensures |r| == k && forall i :: 0 <= i < k ==> r[i] == c
  {
    if k == 0 then [] else [c] + Repeat(c, k - 1)
  }

  lemma {:induction false} LeadingZerosValue(z: nat, d: string)
    requires AllDigits(d)
    ensures AllDigits(Repeat('0', z) + d)
    ensures DigitsValue(Repeat('0', z) + d) == DigitsValue(d)
    decreases |d|
  {
    var s := Repeat('0', z) + d;
    if d == [] {
      assert s == Repeat('0', z);
      ZerosValue(z);
    } else {
      var d' := d[..|d| - 1];
      LeadingZerosValue(z, d');
      assert s[..|s| - 1] == Repeat('0', z) + d';
    }
  }

  lemma {:induction false} ZerosValue(z: nat)
    ensures AllDigits(Repeat('0', z)) && DigitsValue(Repeat('0', z)) == 0
  {
    if z > 0 {
      ZerosValue(z - 1);
      assert Repeat('0', z)[..z - 1] == Repeat('0', z - 1);
    }
  }

  /** format(n, spec) for an integer n and a spec of the form [0][width][d]:
      the numeral right-aligned in `width` columns, filled with spaces, or,
      with the 0 flag, with zeros placed between the sign and the digits.
      A width no larger than the numeral leaves it as it is. */
  function FormatInt(n: int, zeroFill: bool, width: int): (r: string)
    ensures |r| == if width > |IntToString(n)| then width else |IntToString(n)|
    ensures zeroFill ==> DecimalValue(r) == Some(n)
    ensures zeroFill ==> r != [] && if n < 0 then r[0] == '-' && AllDigits(r[1..]) else AllDigits(r)
    ensures !zeroFill ==> r == Repeat(' ', |r| - |IntToString(n)|) + IntToString(n)
  {
    var numeral := IntToString(n);
    var fill := width - |numeral|;
    if fill <= 0 then
      IntToStringRoundTrip(n);
      assert Repeat(' ', 0) + numeral == numeral;
      numeral
    else if zeroFill then
      ZeroFillValue(n, fill);
      ZeroFilledDigits(n, fill);
      ZeroFilled(n, fill)
    else
      Repeat(' ', fill) + numeral
  }

  /** The sign of n, `fill` zeros, then the digits of |n|. */
  function ZeroFilled(n: int, fill: nat): string
  {
    (if n < 0 then "-" else "") + Repeat('0', fill) + NatToString(Abs(n))
  }

  /** A zero-filled numeral is the sign, for a negative n only, then digits. */
  lemma ZeroFilledDigits(n: int, fill: nat)
    ensures var z := ZeroFilled(n, fill);
            z != [] && if n < 0 then z[0] == '-' && AllDigits(z[1..]) else AllDigits(z)
  {
    var tail := Repeat('0', fill) + NatToString(Abs(n));
    LeadingZerosValue(fill, NatToString(Abs(n)));
    if n < 0 {
      assert ZeroFilled(n, fill) == "-" + tail;
      assert ("-" + tail)[1..] == tail;
    } else {
      assert ZeroFilled(n, fill) == tail;
    }
  }

  lemma ZeroFillValue(n: int, fill: nat)
    ensures DecimalValue(ZeroFilled(n, fill)) == Some(n)
    ensures |ZeroFilled(n, fill)| == fill + |IntToString(n)|
  {
    var digits := NatToString(Abs(n));
    var tail := Repeat('0', fill) + digits;
    LeadingZerosValue(fill, digits);
    if n < 0 {
      assert ZeroFilled(n, fill) == "-" + tail;
      NegativeNumeral(tail, -n);
    } else {
      assert ZeroFilled(n, fill) == tail;
      NonNegativeNumeral(tail);
    }
  }

  lemma NegativeNumeral(tail: string, m: nat)
    requires tail != [] && AllDigits(tail) && DigitsValue(tail) == m
    ensures DecimalValue("-" + tail) == Some(-(m as int))
  {
    var s := "-" + tail;
    assert s[0] == '-' && s[1..] == tail;
  }

  lemma NonNegativeNumeral(tail: string)
    requires tail != [] && AllDigits(tail)
    ensures DecimalValue(tail) == Some(DigitsValue(tail))
  {
    assert IsDigit(tail[0]);
  }

  // ---------------------------------------------------------------------
  // Searching and replacing: `sub in s` and s.replace(pat, rep)

  predicate StartsWith(s: string, prefix: string)
  {
    |prefix| <= |s| && s[..|prefix|] == prefix
  }

  /** `sub in s`: sub occurs in s at some position. */
  predicate Contains(s: string, sub: string)
    decreases |s|
  {
    StartsWith(s, sub) || (s != [] && Contains(s[1..], sub))
  }

  /** s.replace(pat, rep) for a non-empty pattern: occurrences are replaced
      from left to right without overlapping. */
  function Replace(s: string, pat: string, rep: string): (r: string)
    requires |pat| > 0
    ensures !Contains(s, pat) ==> r == s
    decreases |s|
  {
    if |s| < |pat| then s
    else if s[..|pat|] == pat then rep + Replace(s[|pat|..], pat, rep)
    else [s[0]] + Replace(s[1..], pat, rep)
  }

  /** A text whose first character cannot start the pattern: Replace
      keeps that character and carries on after it. */
  lemma ReplaceSkip(c: char, b: string, pat: string, rep: string)
    requires |pat| > 0
    requires pat[0] != c || (|pat| > 1 && b != [] && pat[1] != b[0])
    ensures Replace([c] + b, pat, rep) == [c] + Replace(b, pat, rep)
  {
    var s := [c] + b;
    assert s[1..] == b;
    if |s| >= |pat| {
      assert s[..|pat|] != pat by {
        if pat[0] == c { assert s[..|pat|][1] == b[0]; } else { assert s[..|pat|][0] == c; }
      }
    }
  }

  /** Replacing a one-character pattern works character by character, so it
      distributes over concatenation. */
  lemma {:induction false} ReplaceCharAppend(a: string, b: string, c: char, rep: string)
    ensures Replace(a + b, [c], rep) == Replace(a, [c], rep) + Replace(b, [c], rep)
    decreases |a|
  {
    if a != [] {
      ReplaceCharAppend(a[1..], b, c, rep);
      assert (a + b)[1..] == a[1..] + b;
      assert (a + b)[..1] == a[..1];
      if a[..1] == [c] {
        assert Replace(a, [c], rep) == rep + Replace(a[1..], [c], rep);
        assert Replace(a + b, [c], rep) == rep + Replace(a[1..] + b, [c], rep);
      } else {
        assert Replace(a, [c], rep) == [a[0]] + Replace(a[1..], [c], rep);
        assert Replace(a + b, [c], rep) == [a[0]] + Replace(a[1..] + b, [c], rep);
      }
    } else {
      assert a + b == b;
    }
  }

  // ---------------------------------------------------------------------
  // str.strip()

  /** The characters for which Python's str.isspace() holds. */
  predicate IsSpace(c: char)
  {
    c in {' ', '\t', '\n', '\r', '\U{0B}', '\U{0C}', '\U{1C}', '\U{1D}', '\U{1E}', '\U{1F}',
          '\U{85}', '\U{A0}', '\U{1680}', '\U{2000}', '\U{2001}', '\U{2002}', '\U{2003}',
          '\U{2004}', '\U{2005}', '\U{2006}', '\U{2007}', '\U{2008}', '\U{2009}', '\U{200A}',
          '\U{2028}', '\U{2029}', '\U{202F}', '\U{205F}', '\U{3000}'}
  }

  function StripLeading(s: string): (r: string)
    ensures |r| <= |s| && r == s[|s| - |r|..]
    ensures forall i :: 0 <= i < |s| - |r| ==> IsSpace(s[i])
    ensures r == [] || !IsSpace(r[0])
  {
    if s != [] && IsSpace(s[0]) then StripLeading(s[1..]) else s
  }

  function StripTrailing(s: string): (r: string)
    ensures |r| <= |s| && r == s[..|r|]
    ensures forall i :: |r| <= i < |s| ==> IsSpace(s[i])
    ensures r == [] || !IsSpace(r[|r| - 1])
  {
    if s != [] && IsSpace(s[|s| - 1]) then StripTrailing(s[..|s| - 1]) else s
  }

  /** The number of whitespace characters s starts with. */
  function LeadingSpaces(s: string): (k: nat)
    ensures k <= |s|
  {
    |s| - |StripLeading(s)|
  }

  /** s.strip(): s without its leading and trailing whitespace. What is
      dropped on either side is whitespace, and what is kept neither starts
      nor ends with whitespace. */
  function Strip(s: string): (r: string)
    ensures LeadingSpaces(s) + |r| <= |s|
    ensures r == s[LeadingSpaces(s)..LeadingSpaces(s) + |r|]
    ensures forall j :: 0 <= j < LeadingSpaces(s) ==> IsSpace(s[j])
    ensures forall j :: LeadingSpaces(s) + |r| <= j < |s| ==> IsSpace(s[j])
    ensures r == [] || (!IsSpace(r[0]) && !IsSpace(r[|r| - 1]))
  {
    var left := StripLeading(s);
    var r := StripTrailing(left);
    assert left == s[LeadingSpaces(s)..];
    r
  }

  // ---------------------------------------------------------------------
  // str.lower() on ASCII letters

  function AsciiLowerChar(c: char): char
  {
    if 'A' <= c <= 'Z' then (c as int - 'A' as int + 'a' as int) as char else c
  }

  /** s.lower() on the ASCII letters; every other character is kept. */
  function AsciiLower(s: string): (r: string)
    ensures |r| == |s| && forall i :: 0 <= i < |s| ==> r[i] == AsciiLowerChar(s[i])
  {
    seq(|s|, i requires 0 <= i < |s| => AsciiLowerChar(s[i]))
  }

  // ---------------------------------------------------------------------
  // html.escape(s) (quote=True)

  function EscapeChar(c: char): string
  {
    if c == '&' then "&amp;"
    else if c == '<' then "&lt;"
    else if c == '>' then "&gt;"
    else if c == '"' then "&quot;"
    else if c == '\'' then "&#x27;"
    else [c]
  }

  /** html.escape(s): &, <, >, " and ' become character references. Python
      replaces the five characters in turn, & first; since no replacement
      text holds a character replaced after it, that is the same as replacing
      each character of s on its own, which is how it is written here. */
  function HtmlEscape(s: string): string
  {
    if s == [] then [] else EscapeChar(s[0]) + HtmlEscape(s[1..])
  }

  /** Decodes the five character references HtmlEscape produces: the
      reference reading of an escaped string. */
  function HtmlUnescape(s: string): string
    decreases |s|
  {
    if StartsWith(s, "&amp;") then "&" + HtmlUnescape(s[5..])
    else if StartsWith(s, "&lt;") then "<" + HtmlUnescape(s[4..])
    else if StartsWith(s, "&gt;") then ">" + HtmlUnescape(s[4..])
    else if StartsWith(s, "&quot;") then "\"" + HtmlUnescape(s[6..])
    else if StartsWith(s, "&#x27;") then "'" + HtmlUnescape(s[6..])
    else if s == [] then []
    else [s[0]] + HtmlUnescape(s[1..])
  }

  predicate IsHtmlSpecial(c: char) { c == '<' || c == '>' || c == '"' || c == '\'' }

  /** An escaped string holds none of <, >, " and ' raw. */
  lemma {:induction false} HtmlEscapeHasNoSpecials(s: string)
    ensures forall i :: 0 <= i < |HtmlEscape(s)| ==> !IsHtmlSpecial(HtmlEscape(s)[i])
  {
    if s != [] {
      HtmlEscapeHasNoSpecials(s[1..]);
      var e := EscapeChar(s[0]);
      assert forall i :: 0 <= i < |e| ==> !IsHtmlSpecial(e[i]);
    }
  }

  /** Escaping loses nothing: unescaping gives the original text back. */
  lemma {:induction false} HtmlEscapeRoundTrip(s: string)
    ensures HtmlUnescape(HtmlEscape(s)) == s
  {
    if s != [] {
      HtmlEscapeRoundTrip(s[1..]);
      UnescapeEscapedChar(s[0], HtmlEscape(s[1..]));
      assert [s[0]] + s[1..] == s;
    }
  }

  lemma UnescapeEscapedChar(c: char, rest: string)
    ensures HtmlUnescape(EscapeChar(c) + rest) == [c] + HtmlUnescape(rest)
  {
    if c == '&' { UnescapeAmp(rest); }
    else if c == '<' { UnescapeLt(rest); }
    else if c == '>' { UnescapeGt(rest); }
    else if c == '"' { UnescapeQuot(rest); }
    else if c == '\'' { UnescapeApos(rest); }
    else { UnescapeOther(c, rest); }
  }

  lemma UnescapeOther(c: char, rest: string)
    requires c != '&'
    ensures HtmlUnescape([c] + rest) == [c] + HtmlUnescape(rest)
  {
    var e := [c] + rest;
    assert e[0] == c && e[1..] == rest;
    HeadMismatch(e, "&amp;");
    HeadMismatch(e, "&lt;");
    HeadMismatch(e, "&gt;");
    HeadMismatch(e, "&quot;");
    HeadMismatch(e, "&#x27;");
  }

  lemma HeadMismatch(s: string, prefix: string)
    requires s != [] && prefix != [] && s[0] != prefix[0]
    ensures !StartsWith(s, prefix)
  {
    if |prefix| <= |s| {
      assert s[..|prefix|][0] == s[0];
    }
  }

  lemma UnescapeAmp(rest: string)
    ensures HtmlUnescape("&amp;" + rest) == "&" + HtmlUnescape(rest)
  {
    var e := "&amp;" + rest;
    assert e[..5] == "&amp;" && e[5..] == rest;
  }

  lemma UnescapeLt(rest: string)
    ensures HtmlUnescape("&lt;" + rest) == "<" + HtmlUnescape(rest)
  {
    var e := "&lt;" + rest;
    assert e[..4] == "&lt;" && e[4..] == rest;
    assert e[1] == 'l';
  }

  lemma UnescapeGt(rest: string)
    ensures HtmlUnescape("&gt;" + rest) == ">" + HtmlUnescape(rest)
  {
    var e := "&gt;" + rest;
    assert e[..4] == "&gt;" && e[4..] == rest;
    assert e[1] == 'g';
  }

  lemma UnescapeQuot(rest: string)
    ensures HtmlUnescape("&quot;" + rest) == "\"" + HtmlUnescape(rest)
  {
    var e := "&quot;" + rest;
    assert e[..6] == "&quot;" && e[6..] == rest;
    assert e[1] == 'q';
  }

  lemma UnescapeApos(rest: string)
    ensures HtmlUnescape("&#x27;" + rest) == "'" + HtmlUnescape(rest)
  {
    var e := "&#x27;" + rest;
    assert e[..6] == "&#x27;" && e[6..] == rest;
    assert e[1] == '#';
  }

  // ---------------------------------------------------------------------
  // First occurrence of a character

  /** s.find(c): the first index holding c, or -1. */
  function IndexOf(s: string, c: char): (r: int)
    ensures -1 <= r < |s|
    ensures r >= 0 ==> s[r] == c && forall j :: 0 <= j < r ==> s[j] != c
    ensures r == -1 ==> forall j :: 0 <= j < |s| ==> s[j] != c
  {
    if s == [] then -1
    else if s[0] == c then 0
    else
      var k := IndexOf(s[1..], c);
      if k == -1 then -1 else k + 1
  }
}
