/** Character and string helpers that mirror the Python built-ins the bot
    relies on: `str(int)`, `int(str)`, `", ".join`, `str.lower`,
    `str.strip` and the code-point ordering of `str` comparisons.
    `strip` removes what Python counts as white space; only the ASCII
    behaviour of `lower` and `int` is modelled. */
module Strings {
  import opened Wrappers

  // ---------------------------------------------------------------------
  // Joining
  // ---------------------------------------------------------------------

  /** `sep.join(parts)`. */
  function Join(parts: seq<string>, sep: string): string
  {
    if |parts| == 0 then ""
    else if |parts| == 1 then parts[0]
    else parts[0] + sep + Join(parts[1..], sep)
  }

  /** Joining a list of one more element adds the separator and that element. */
  lemma {:induction false} JoinSnoc(parts: seq<string>, last: string, sep: string)
    requires |parts| > 0
    ensures Join(parts + [last], sep) == Join(parts, sep) + sep + last
  {
    if |parts| == 1 {
      assert (parts + [last])[1..] == [last];
    } else {
      assert (parts + [last])[1..] == parts[1..] + [last];
      JoinSnoc(parts[1..], last, sep);
    }
  }

  /** Joining three parts puts the separator between each neighbouring pair. */
  lemma Join3(a: string, b: string, c: string, sep: string)
    ensures Join([a, b, c], sep) == a + sep + b + sep + c
  {
    assert [a, b, c][1..] == [b, c] && [b, c][1..] == [c];
    assert Join([b, c], sep) == b + sep + c;
    assert Join([a, b, c], sep) == a + sep + (b + sep + c);
  }

  /** A join is empty exactly when nothing is joined or a single empty part is. */
  lemma JoinEmpty(parts: seq<string>, sep: string)
    requires |sep| > 0
    ensures Join(parts, sep) == "" <==> |parts| == 0 || (|parts| == 1 && parts[0] == "")
  {
    if |parts| > 1 {
      assert |Join(parts, sep)| >= |sep|;
    }
  }

  // ---------------------------------------------------------------------
  // Decimal digits, str(int) and int(str)
  // ---------------------------------------------------------------------

  predicate IsDigit(c: char) { '0' <= c <= '9' }

  predicate AllDigits(s: string) { forall i :: 0 <= i < |s| ==> IsDigit(s[i]) }

  function DigitChar(d: nat): (c: char)
    requires d < 10
    ensures IsDigit(c)
  {
    ['0', '1', '2', '3', '4', '5', '6', '7', '8', '9'][d]
  }

  function DigitValue(c: char): (d: nat)
    requires IsDigit(c)
    ensures d < 10
  {
    (c as int - '0' as int) as nat
  }

  lemma DigitRoundTrip(d: nat)
    requires d < 10
    ensures DigitValue(DigitChar(d)) == d
  {
  }

  /** Value of a run of decimal digits, most significant first. */
  function DigitsValue(s: string): nat
    requires AllDigits(s)
  {
    if |s| == 0 then 0 else DigitsValue(s[..|s| - 1]) * 10 + DigitValue(s[|s| - 1])
  }

  /** Decimal rendering of a natural number without leading zeros. */
  function NatToString(n: nat): (s: string)
    ensures |s| > 0 && AllDigits(s)
    decreases n
  {
    if n < 10 then [DigitChar(n)] else NatToString(n / 10) + [DigitChar(n % 10)]
  }

  /** `str(n)` for a Python int. */
  function IntToString(n: int): (s: string)
    ensures |s| > 0
    ensures n < 0 <==> s[0] == '-'
  {
    if n < 0 then "-" + NatToString(-n) else NatToString(n)
  }

  /** `int(s)` for a string made of an optional sign and ASCII digits; any
      other string is the `ValueError` case, `None`. Python also accepts
      surrounding white space, `_` between digits and non-ASCII digits;
      those forms are not modelled. */
  function ParseInt(s: string): (r: Option<int>)
    ensures r.Some? ==> |s| > 0
  {
    if |s| > 0 && (s[0] == '-' || s[0] == '+') then
      (if |s| > 1 && AllDigits(s[1..]) then
         Some(if s[0] == '-' then -(DigitsValue(s[1..]) as int) else DigitsValue(s[1..]))
       else None)
    else if |s| > 0 && AllDigits(s) then Some(DigitsValue(s))
    else None
  }

  lemma {:induction false} NatToStringValue(n: nat)
    ensures DigitsValue(NatToString(n)) == n
    decreases n
  {
    var s := NatToString(n);
    if n < 10 {
      DigitRoundTrip(n);
    } else {
      NatToStringValue(n / 10);
      assert s[..|s| - 1] == NatToString(n / 10);
      DigitRoundTrip(n % 10);
    }
  }

  /** A minus sign before digits negates their value. */
  lemma SignedDigits(digits: string)
    requires |digits| > 0 && AllDigits(digits)
    ensures ParseInt("-" + digits) == Some(-(DigitsValue(digits) as int))
  {
    var s := "-" + digits;
    assert s[0] == '-' && s[1..] == digits;
  }

  /** Digits alone are read as their value. */
  lemma UnsignedDigits(digits: string)
    requires |digits| > 0 && AllDigits(digits)
    ensures ParseInt(digits) == Some(DigitsValue(digits))
  {
    assert IsDigit(digits[0]);
  }

  /** A negative number is rendered as a minus sign and its magnitude's
      digits, and parses back. */
  lemma NegRoundTrip(m: nat)
    requires m > 0
    ensures ParseInt(IntToString(-(m as int))) == Some(-(m as int))
  {
    var digits := NatToString(m);
    assert IntToString(-(m as int)) == "-" + digits;
    NatToStringValue(m);
    SignedDigits(digits);
  }

  /** `int(str(n)) == n`: the rendering of every integer parses back to it. */
  lemma IntRoundTrip(n: int)
    ensures ParseInt(IntToString(n)) == Some(n)
  {
    if n < 0 {
      NegRoundTrip(-n);
    } else {
      var digits := NatToString(n);
      assert IntToString(n) == digits;
      NatToStringValue(n);
      UnsignedDigits(digits);
    }
  }

  /** `n` rendered with leading zeros to at least `width` characters
      (`strftime`'s `%d`, `%m` and `%Y` fields). */
  function ZeroPad(n: nat, width: nat): (s: string)
    ensures |s| >= width && AllDigits(s)
    ensures DigitsValue(s) == n
    decreases width
  {
    var digits := NatToString(n);
    NatToStringValue(n);
    if |digits| >= width then digits
    else
      var padded := "0" + ZeroPad(n, width - 1);
      LeadingZero(ZeroPad(n, width - 1));
      padded
  }

  /** A leading zero does not change the value of a digit run. */
  lemma {:induction false} LeadingZero(s: string)
    requires AllDigits(s)
    ensures AllDigits("0" + s) && DigitsValue("0" + s) == DigitsValue(s)
    decreases |s|
  {
    if |s| > 0 {
      assert ("0" + s)[..|"0" + s| - 1] == "0" + s[..|s| - 1];
      LeadingZero(s[..|s| - 1]);
    }
  }

  lemma ZeroPadWidth(n: nat, width: nat)
    requires |NatToString(n)| <= width
    ensures |ZeroPad(n, width)| == width
    decreases width
  {
  }

  /** Numbers below 10, 100 and 10000 render in at most one, two and four
      digits. */
  lemma NatToStringLength(n: nat)
    ensures n < 10 ==> |NatToString(n)| == 1
    ensures n < 100 ==> |NatToString(n)| <= 2
    ensures n < 10000 ==> |NatToString(n)| <= 4
    decreases n
  {
    if n >= 10 {
      NatToStringLength(n / 10);
    }
  }

  // ---------------------------------------------------------------------
  // Case and white space
  // ---------------------------------------------------------------------

  /** `c.lower()` for ASCII letters; every other character is unchanged. */
  function LowerChar(c: char): char
  {
    if 'A' <= c <= 'Z' then (c as int + 32) as char else c
  }

  function Lower(s: string): (r: string)
    ensures |r| == |s|
    ensures forall i :: 0 <= i < |s| ==> r[i] == LowerChar(s[i])
  {
    seq(|s|, i requires 0 <= i < |s| => LowerChar(s[i]))
  }

  /** `c.isspace()`, the characters `str.strip()` removes: the ASCII
      controls tab to carriage return and the four separators 1C-1F, the
      space, NEL, the no-break space, and the Unicode space separators and
      line and paragraph separators. */
  predicate IsSpace(c: char)
  {
    || '\t' <= c <= '\r'
    || '\U{1C}' <= c <= '\U{1F}'
    || c == ' ' || c == '\U{85}' || c == '\U{A0}' || c == '\U{1680}'
    || '\U{2000}' <= c <= '\U{200A}'
    || c == '\U{2028}' || c == '\U{2029}' || c == '\U{202F}' || c == '\U{205F}' || c == '\U{3000}'
  }

  function TrimLeft(s: string): (r: string)
    ensures |r| <= |s| && r == s[|s| - |r|..]
    ensures |r| > 0 ==> !IsSpace(r[0])
  {
    if |s| > 0 && IsSpace(s[0]) then TrimLeft(s[1..]) else s
  }

  function TrimRight(s: string): (r: string)
    ensures |r| <= |s| && r == s[..|r|]
    ensures |r| > 0 ==> !IsSpace(r[|r| - 1])
  {
    if |s| > 0 && IsSpace(s[|s| - 1]) then TrimRight(s[..|s| - 1]) else s
  }

  /** `s.strip()`. */
  function Strip(s: string): string
  {
    TrimRight(TrimLeft(s))
  }

  /** A string with no white space at either end is its own strip. */
  lemma StripStripped(s: string)
    requires |s| > 0 ==> !IsSpace(s[0]) && !IsSpace(s[|s| - 1])
    ensures Strip(s) == s
  {
  }

  // ---------------------------------------------------------------------
  // Python's ordering of str values
  // ---------------------------------------------------------------------

  /** `a <= b` on Python strings: lexicographic by code point. */
  predicate Below(a: string, b: string)
  {
    if |a| == 0 then true
    else if |b| == 0 then false
    else if a[0] != b[0] then a[0] < b[0]
    else Below(a[1..], b[1..])
  }

  lemma BelowReflexive(a: string)
    ensures Below(a, a)
  {
  }

  lemma BelowAntisymmetric(a: string, b: string)
    requires Below(a, b) && Below(b, a)
    ensures a == b
  {
    if |a| > 0 && |b| > 0 {
      BelowAntisymmetric(a[1..], b[1..]);
      assert a == [a[0]] + a[1..] && b == [b[0]] + b[1..];
    }
  }

  lemma BelowTransitive(a: string, b: string, c: string)
    requires Below(a, b) && Below(b, c)
    ensures Below(a, c)
  {
    if |a| > 0 && |b| > 0 && |c| > 0 && a[0] == b[0] && b[0] == c[0] {
      BelowTransitive(a[1..], b[1..], c[1..]);
    }
  }

  lemma BelowTotal(a: string, b: string)
    ensures Below(a, b) || Below(b, a)
  {
    if |a| > 0 && |b| > 0 && a[0] == b[0] {
      BelowTotal(a[1..], b[1..]);
    }
  }

  // ---------------------------------------------------------------------
  // Prefixes and suffixes
  // ---------------------------------------------------------------------

  predicate StartsWith(s: string, prefix: string)
  {
    |prefix| <= |s| && s[..|prefix|] == prefix
  }

  predicate EndsWith(s: string, suffix: string)
  {
    |suffix| <= |s| && s[|s| - |suffix|..] == suffix
  }

  lemma StartsWithConcat(a: string, b: string)
    ensures StartsWith(a + b, a)
  {
    assert (a + b)[..|a|] == a;
  }

  /** Below the length of a known suffix, the suffixes of `s` are those of
      the known one. */
  lemma EndsWithWithin(s: string, t: string, u: string)
    requires EndsWith(s, t) && |u| <= |t|
    ensures EndsWith(s, u) <==> EndsWith(t, u)
  {
    assert s[|s| - |u|..] == t[|t| - |u|..];
  }

  /** A string framed by `a` and `c` starts with `a` and ends with `c`. */
  lemma Framed(a: string, b: string, c: string)
    ensures StartsWith(a + b + c, a) && EndsWith(a + b + c, c)
  {
    assert (a + b + c)[..|a|] == a;
    assert (a + b + c)[|a + b + c| - |c|..] == c;
  }
}
