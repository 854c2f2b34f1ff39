/** Character classes and string operations of JavaScript that the `/start` handler relies on:
    `String.prototype.trim` and `Number.prototype.toString` on integer user ids. */
module Text {

  /** The characters `trim` removes: ECMAScript WhiteSpace (tab, vertical tab, form feed,
      space, no-break space, byte order mark, and the Unicode space separators) and
      LineTerminator (line feed, carriage return, line and paragraph separators). */
  predicate IsSpace(c: char)
  {
    c == '\t' || c == '\n' || c == '\U{000B}' || c == '\U{000C}' || c == '\r' || c == ' '
    || c == '\U{00A0}' || c == '\U{1680}' || ('\U{2000}' <= c <= '\U{200A}')
    || c == '\U{2028}' || c == '\U{2029}' || c == '\U{202F}' || c == '\U{205F}'
    || c == '\U{3000}' || c == '\U{FEFF}'
  }

  /** The characters a regular-expression `.` does not match. */
  predicate IsLineTerminator(c: char)
  {
    c == '\n' || c == '\r' || c == '\U{2028}' || c == '\U{2029}'
  }

  ghost predicate AllSpace(s: string)
  {
    forall k :: 0 <= k < |s| ==> IsSpace(s[k])
  }

  /** The number of white-space characters at the start of `s`. */
  function LeadingSpaces(s: string): (n: nat)
    ensures n <= |s| && AllSpace(s[..n]) && (n == |s| || !IsSpace(s[n]))
  {
    if s != [] && IsSpace(s[0]) then
      var m := LeadingSpaces(s[1..]);
      assert s[..m + 1] == [s[0]] + s[1..][..m];
      m + 1
    else 0
  }

  /** The number of white-space characters at the end of `s`. */
  function TrailingSpaces(s: string): (n: nat)
    ensures n <= |s| && AllSpace(s[|s| - n..]) && (n == |s| || !IsSpace(s[|s| - n - 1]))
  {
    if s != [] && IsSpace(s[|s| - 1]) then
      var m := TrailingSpaces(s[..|s| - 1]);
      assert s[|s| - (m + 1)..] == s[..|s| - 1][|s| - 1 - m..] + [s[|s| - 1]];
      m + 1
    else 0
  }

  /** JavaScript's `s.trim()`: the slice of `s` that starts after its leading white space and
      leaves out only white space at the end; it neither starts nor ends with white space. */
  function Trim(s: string): (r: string)
    ensures |r| <= |s|
    ensures LeadingSpaces(s) + |r| <= |s| && r == s[LeadingSpaces(s)..LeadingSpaces(s) + |r|]
    ensures AllSpace(s[LeadingSpaces(s) + |r|..])
    ensures r == [] || (!IsSpace(r[0]) && !IsSpace(r[|r| - 1]))
  {
    var i := LeadingSpaces(s);
    var t := s[i..];
    var n := TrailingSpaces(t);
    var r := s[i..i + |t| - n];
    assert r == t[..|t| - n];
    assert s[i + |r|..] == t[|t| - n..];
    assert r != [] ==> r[0] == t[0] && r[|r| - 1] == t[|t| - n - 1];
    r
  }

  /** `trim` gives the empty string exactly for a string that is all white space. */
  lemma TrimEmpty(s: string)
    ensures Trim(s) == [] <==> AllSpace(s)
  {
    var i := LeadingSpaces(s);
    if i < |s| {
      assert s[i] == Trim(s)[0];
    } else {
      assert s[..i] == s;
    }
  }

  /** Trimming a string that neither starts nor ends with white space returns it unchanged,
      so trimming twice is the same as trimming once. */
  lemma TrimOfTrimmed(s: string)
    requires s == [] || (!IsSpace(s[0]) && !IsSpace(s[|s| - 1]))
    ensures Trim(s) == s
  {
    assert LeadingSpaces(s) == 0;
    assert TrailingSpaces(s) == 0;
  }

  lemma TrimIdempotent(s: string)
    ensures Trim(Trim(s)) == Trim(s)
  {
    TrimOfTrimmed(Trim(s));
  }

  /** Leading white space does not change the result of `trim`. */
  lemma TrimLeadingSpace(w: string, s: string)
    requires AllSpace(w)
    ensures Trim(w + s) == Trim(s)
  {
    LeadingSpacesOfPrefix(w, s);
    var i := LeadingSpaces(s);
    DropPrefix(w, s, i);
    TrimOfSameRest(w + s, s);
  }

  lemma DropPrefix(w: string, s: string, i: nat)
    requires i <= |s|
    ensures (w + s)[|w| + i..] == s[i..]
  {
  }

  /** Two strings whose text after the leading white space agrees trim to the same string. */
  lemma TrimOfSameRest(x: string, s: string)
    requires x[LeadingSpaces(x)..] == s[LeadingSpaces(s)..]
    ensures Trim(x) == Trim(s)
  {
    TrimOfRest(x);
    TrimOfRest(s);
  }

  /** `trim` as the text after the leading white space, less the trailing white space. */
  lemma TrimOfRest(s: string)
    ensures var t := s[LeadingSpaces(s)..]; Trim(s) == t[..|t| - TrailingSpaces(t)]
  {
  }

  lemma {:induction false} LeadingSpacesOfPrefix(w: string, s: string)
    requires AllSpace(w)
    ensures LeadingSpaces(w + s) == |w| + LeadingSpaces(s)
  {
    if w == [] {
      assert w + s == s;
    } else {
      assert (w + s)[0] == w[0] && (w + s)[1..] == w[1..] + s;
      LeadingSpacesOfPrefix(w[1..], s);
    }
  }

  // ---------------------------------------------------------------------------------------
  // Decimal numerals: `msg.from.id.toString()` and the regular-expression class `\d`.

  /** `\d` in a JavaScript regular expression without the `u` flag: an ASCII digit. */
  predicate IsDigit(c: char)
  {
    '0' <= c <= '9'
  }

  /** A string that `\d+` matches as a whole: one or more ASCII digits. */
  predicate IsNumeral(s: string)
  {
    |s| > 0 && forall k :: 0 <= k < |s| ==> IsDigit(s[k])
  }

  function DigitChar(d: nat): (c: char)
    requires d < 10
    ensures IsDigit(c) && c as int - '0' as int == d
  {
    ('0' as int + d) as char
  }

  function DigitValue(c: char): (d: nat)
    requires IsDigit(c)
    ensures d < 10 && DigitChar(d) == c
  {
    c as int - '0' as int
  }

  /** The decimal numeral of a natural number, without leading zeros. */
  function NatString(n: nat): (s: string)
    ensures IsNumeral(s)
    ensures |s| > 1 ==> s[0] != '0'
  {
    if n < 10 then [DigitChar(n)] else NatString(n / 10) + [DigitChar(n % 10)]
  }

  /** The number a numeral denotes (the inverse of `NatString`). */
  function NumeralValue(s: string): nat
    requires forall k :: 0 <= k < |s| ==> IsDigit(s[k])
  {
    if s == [] then 0 else NumeralValue(s[..|s| - 1]) * 10 + DigitValue(s[|s| - 1])
  }

  lemma {:induction false} NumeralRoundTrip(n: nat)
    ensures NumeralValue(NatString(n)) == n
  {
    var s := NatString(n);
    if n < 10 {
      assert s[..|s| - 1] == [];
    } else {
      assert s[..|s| - 1] == NatString(n / 10);
      NumeralRoundTrip(n / 10);
    }
  }

  /** JavaScript's `n.toString()` for an integer-valued number whose magnitude is below 2^53
      (Telegram user ids are): a minus sign for negative numbers, then the decimal digits. */
  function IdString(n: int): (s: string)
    ensures |s| > 0
    ensures n >= 0 <==> IsNumeral(s)
    ensures n < 0 ==> s[0] == '-'
  {
    if n < 0 then
      var s := "-" + NatString(-n);
      assert s[0] == '-' && !IsDigit(s[0]);
      s
    else NatString(n)
  }

  /** Distinct user ids give distinct document keys. */
  lemma IdStringInjective(a: int, b: int)
    requires IdString(a) == IdString(b)
    ensures a == b
  {
    if a < 0 && b < 0 {
      assert NatString(-a) == IdString(a)[1..] == IdString(b)[1..] == NatString(-b);
      NumeralRoundTrip(-a);
      NumeralRoundTrip(-b);
    } else if a >= 0 && b >= 0 {
      NumeralRoundTrip(a);
      NumeralRoundTrip(b);
    }
  }
}
