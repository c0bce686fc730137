/**
 * The string operations of JavaScript that the core relies on, written out:
 * the `\s` / `String.prototype.trim` whitespace set, `trim`, `toLowerCase`
 * (ASCII part), `includes`, `startsWith` and `parseInt(s, 10)`.
 */
module Text {
  import opened Wrappers

  /** ECMAScript WhiteSpace and LineTerminator code points: the set `\s` and `trim` use. */
  predicate IsWhitespace(c: char) {
    c == '\t' || c == '\n' || c == '\U{000B}' || c == '\U{000C}' || c == '\r' || c == ' '
    || c == '\U{00A0}' || c == '\U{1680}' || ('\U{2000}' <= c <= '\U{200A}')
    || c == '\U{2028}' || c == '\U{2029}' || c == '\U{202F}' || c == '\U{205F}'
    || c == '\U{3000}' || c == '\U{FEFF}'
  }

  predicate AllWhitespace(s: string) {
    forall i :: 0 <= i < |s| ==> IsWhitespace(s[i])
  }

  /** The length of the leading run of whitespace. */
  function LeadingWhitespace(s: string): (n: nat)
    ensures n <= |s| && AllWhitespace(s[..n])
    ensures n < |s| ==> !IsWhitespace(s[n])
  {
    if s != [] && IsWhitespace(s[0]) then
      var n := 1 + LeadingWhitespace(s[1..]);
      assert s[..n] == [s[0]] + s[1..][..n - 1];
      n
    else 0
  }

  /** Where the trailing run of whitespace begins. */
  function TrailingWhitespace(s: string): (n: nat)
    ensures n <= |s| && AllWhitespace(s[n..])
    ensures n > 0 ==> !IsWhitespace(s[n - 1])
  {
    if s != [] && IsWhitespace(s[|s| - 1]) then
      var n := TrailingWhitespace(s[..|s| - 1]);
      assert s[n..] == s[..|s| - 1][n..] + [s[|s| - 1]];
      n
    else |s|
  }

  /** `s.trimStart()`: drop the leading whitespace. */
  function TrimStart(s: string): string {
    s[LeadingWhitespace(s)..]
  }

  /** `s.trimEnd()`: drop the trailing whitespace. */
  function TrimEnd(s: string): string {
    s[..TrailingWhitespace(s)]
  }

  /** `s.trim()`. */
  function Trim(s: string): (r: string)
    ensures |r| <= |s|
  {
    TrimEnd(TrimStart(s))
  }

  /** What `trim` leaves neither starts nor ends with whitespace, and is empty exactly when `s` is all whitespace. */
  lemma TrimShape(s: string)
    ensures Trim(s) == [] || (!IsWhitespace(Trim(s)[0]) && !IsWhitespace(Trim(s)[|Trim(s)| - 1]))
    ensures Trim(s) == [] <==> AllWhitespace(s)
  {
    var l := LeadingWhitespace(s);
    var u := s[l..];
    if TrailingWhitespace(u) == 0 {
      forall i | 0 <= i < |s| ensures IsWhitespace(s[i]) {
        assert s[i] == s[..l][i];
      }
    }
  }

  lemma {:induction false} LeadingWhitespaceOfPadded(p: string, u: string)
    requires AllWhitespace(p)
    requires u == [] || !IsWhitespace(u[0])
    ensures LeadingWhitespace(p + u) == |p|
  {
    if p != [] {
      assert (p + u)[1..] == p[1..] + u;
      LeadingWhitespaceOfPadded(p[1..], u);
    }
  }

  lemma {:induction false} TrailingWhitespaceOfPadded(u: string, q: string)
    requires AllWhitespace(q)
    requires u == [] || !IsWhitespace(u[|u| - 1])
    ensures TrailingWhitespace(u + q) == |u|
  {
    if q != [] {
      assert (u + q)[..|u + q| - 1] == u + q[..|q| - 1];
      TrailingWhitespaceOfPadded(u, q[..|q| - 1]);
    } else {
      assert u + q == u;
    }
  }

  /** `trim` removes exactly the surrounding whitespace and keeps the rest unchanged. */
  lemma TrimOfPadded(p: string, t: string, q: string)
    requires AllWhitespace(p) && AllWhitespace(q)
    requires t == [] || (!IsWhitespace(t[0]) && !IsWhitespace(t[|t| - 1]))
    ensures Trim(p + t + q) == t
  {
    assert p + t + q == p + (t + q);
    if t == [] {
      assert p + t + q == (p + q) + [];
      LeadingWhitespaceOfPadded(p + q, []);
      assert TrimStart(p + t + q) == [];
    } else {
      assert (t + q)[0] == t[0];
      LeadingWhitespaceOfPadded(p, t + q);
      assert TrimStart(p + t + q) == t + q;
      TrailingWhitespaceOfPadded(t, q);
    }
  }

  /** The ASCII part of `toLowerCase`. */
  function LowerChar(c: char): char {
    if 'A' <= c <= 'Z' then (c as int + 32) as char else c
  }

  function ToLower(s: string): (r: string)
    ensures |r| == |s|
    ensures forall i :: 0 <= i < |s| ==> r[i] == LowerChar(s[i])
  {
    if s == [] then [] else [LowerChar(s[0])] + ToLower(s[1..])
  }

  /** Lowering works character by character, so it distributes over concatenation. */
  lemma ToLowerConcat(a: string, b: string)
    ensures ToLower(a + b) == ToLower(a) + ToLower(b)
  {
    var l, r := ToLower(a + b), ToLower(a) + ToLower(b);
    assert |l| == |r|;
    forall i | 0 <= i < |l| ensures l[i] == r[i] {
      if i >= |a| {
        assert (a + b)[i] == b[i - |a|];
      }
    }
  }

  /** `s.startsWith(p)`. */
  function StartsWith(s: string, p: string): (r: bool)
    ensures r <==> OccursAt(s, p, 0)
  {
    |p| <= |s| && s[..|p|] == p
  }

  /** `pat` occurs in `s` at index `i`. */
  predicate OccursAt(s: string, pat: string, i: int) {
    0 <= i && i + |pat| <= |s| && s[i..i + |pat|] == pat
  }

  /** `s.includes(pat)`. */
  function Contains(s: string, pat: string): (r: bool)
    ensures r <==> exists i :: 0 <= i <= |s| && OccursAt(s, pat, i)
  {
    if StartsWith(s, pat) then
      assert OccursAt(s, pat, 0);
      true
    else if s == [] then
      false
    else
      var r := Contains(s[1..], pat);
      if r then
        var i :| 0 <= i <= |s[1..]| && OccursAt(s[1..], pat, i);
        assert s[1..][i..i + |pat|] == s[i + 1..i + 1 + |pat|];
        assert OccursAt(s, pat, i + 1);
        true
      else
        assert forall i :: 1 <= i <= |s| && OccursAt(s, pat, i) ==> OccursAt(s[1..], pat, i - 1) by {
          forall i | 1 <= i <= |s| && OccursAt(s, pat, i) ensures OccursAt(s[1..], pat, i - 1) {
            assert s[1..][i - 1..i - 1 + |pat|] == s[i..i + |pat|];
          }
        }
        false
  }

  predicate IsDigit(c: char) {
    '0' <= c <= '9'
  }

  predicate AllDigits(s: string) {
    forall i :: 0 <= i < |s| ==> IsDigit(s[i])
  }

  /** Length of the longest prefix of `s` made of decimal digits. */
  function LeadingDigits(s: string): (n: nat)
    ensures n <= |s| && AllDigits(s[..n])
    ensures n < |s| ==> !IsDigit(s[n])
  {
    if s != [] && IsDigit(s[0]) then
      var n := LeadingDigits(s[1..]);
      assert forall i :: 1 <= i < 1 + n ==> s[i] == s[1..][..n][i - 1];
      1 + n
    else 0
  }

  lemma {:induction false} LeadingDigitsOfDigits(d: string, rest: string)
    requires AllDigits(d)
    requires rest == [] || !IsDigit(rest[0])
    ensures LeadingDigits(d + rest) == |d|
  {
    if d != [] {
      assert (d + rest)[1..] == d[1..] + rest;
      LeadingDigitsOfDigits(d[1..], rest);
    } else {
      assert d + rest == rest;
    }
  }

  function DigitValue(c: char): nat
    requires IsDigit(c)
  {
    c as int - '0' as int
  }

  /** The number a string of decimal digits denotes. */
  function DigitsValue(d: string): nat
    requires AllDigits(d)
  {
    if d == [] then 0 else DigitsValue(d[..|d| - 1]) * 10 + DigitValue(d[|d| - 1])
  }

  /**
   * `parseInt(s, 10)`: skip leading whitespace, read an optional sign, then the
   * longest run of decimal digits; `None` stands for `NaN` (no digit at all).
   */
  function ParseInt10(s: string): (r: Option<int>)
    ensures r.None? <==> LeadingDigits(Unsigned(TrimStart(s))) == 0
  {
    var t := TrimStart(s);
    var negative := t != [] && t[0] == '-';
    var u := Unsigned(t);
    var n := LeadingDigits(u);
    if n == 0 then None
    else
      var m: int := DigitsValue(u[..n]);
      Some(if negative then -m else m)
  }

  /** `t` without one leading `+` or `-`. */
  function Unsigned(t: string): string {
    if t != [] && (t[0] == '+' || t[0] == '-') then t[1..] else t
  }

  function DigitChar(n: nat): (c: char)
    requires n < 10
    ensures IsDigit(c) && DigitValue(c) == n
  {
    ('0' as int + n) as char
  }

  /** Decimal notation of a natural number, as the YouTube Data API writes category ids. */
  function NatToString(n: nat): (d: string)
    ensures d != [] && AllDigits(d) && DigitsValue(d) == n
    decreases n
  {
    if n < 10 then [DigitChar(n)]
    else
      var d := NatToString(n / 10) + [DigitChar(n % 10)];
      assert d[..|d| - 1] == NatToString(n / 10);
      d
  }

  /** `parseInt` reads back every decimal string. */
  lemma ParseIntOfNatToString(n: nat)
    ensures ParseInt10(NatToString(n)) == Some(n)
  {
    var d := NatToString(n);
    assert !IsWhitespace(d[0]);
    assert LeadingWhitespace(d) == 0;
    assert TrimStart(d) == d;
    assert Unsigned(d) == d;
    LeadingDigitsOfDigits(d, []);
    assert d + [] == d;
    assert d[..|d|] == d;
  }
}
