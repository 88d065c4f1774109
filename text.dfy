/**
 * The JavaScript string primitives the debate rooms rely on:
 * `String.prototype.trim`, `Number.prototype.toString` on integers and
 * `String.prototype.padStart(2, "0")`, with the decimal reader that undoes
 * `toString`.
 */
module Text {

  /** The characters `trim` removes: ECMAScript WhiteSpace (tab, vertical tab,
      form feed, space, no-break space, byte order mark and every Unicode
      space separator) and LineTerminator (LF, CR, LS, PS). */
  const JsWhitespace: set<char> := {
    '\U{0009}', '\U{000A}', '\U{000B}', '\U{000C}', '\U{000D}', '\U{0020}',
    '\U{00A0}', '\U{1680}', '\U{2000}', '\U{2001}', '\U{2002}', '\U{2003}',
    '\U{2004}', '\U{2005}', '\U{2006}', '\U{2007}', '\U{2008}', '\U{2009}',
    '\U{200A}', '\U{2028}', '\U{2029}', '\U{202F}', '\U{205F}', '\U{3000}',
    '\U{FEFF}'
  }

  predicate IsJsWhitespace(c: char) {
    c in JsWhitespace
  }

  predicate AllWhitespace(s: string) {
    forall i :: 0 <= i < |s| ==> IsJsWhitespace(s[i])
  }

  /** How many whitespace characters `s` starts with. */
  function LeadingWhitespace(s: string): (n: nat)
    ensures n <= |s|
    ensures forall i :: 0 <= i < n ==> IsJsWhitespace(s[i])
    ensures n < |s| ==> !IsJsWhitespace(s[n])
  {
    if s == [] || !IsJsWhitespace(s[0]) then 0 else 1 + LeadingWhitespace(s[1..])
  }

  /** How many whitespace characters `s` ends with. */
  function TrailingWhitespace(s: string): (n: nat)
    ensures n <= |s|
    ensures forall i :: |s| - n <= i < |s| ==> IsJsWhitespace(s[i])
    ensures n < |s| ==> !IsJsWhitespace(s[|s| - 1 - n])
  {
    if s == [] || !IsJsWhitespace(s[|s| - 1]) then 0 else 1 + TrailingWhitespace(s[..|s| - 1])
  }

  /** `trim`: `s` without its leading and trailing whitespace; an
      all-whitespace string trims to the empty string. */
  function Trim(s: string): (r: string)
    ensures |r| <= |s|
  {
    var lead := LeadingWhitespace(s);
    if lead == |s| then []
    else
      TrimBounds(s);
      s[lead..|s| - TrailingWhitespace(s)]
  }

  /** When some character is not whitespace, the leading and the trailing
      whitespace do not meet. */
  lemma TrimBounds(s: string)
    requires LeadingWhitespace(s) < |s|
    ensures LeadingWhitespace(s) < |s| - TrailingWhitespace(s)
  {
  }

  /** `trim` cuts only whitespace: the result sits in `s` after the leading
      whitespace, and everything before and after it is whitespace. */
  lemma TrimCutsOnlyWhitespace(s: string)
    ensures var t, a := Trim(s), LeadingWhitespace(s);
      a + |t| <= |s| && s[a..a + |t|] == t &&
      AllWhitespace(s[..a]) && AllWhitespace(s[a + |t|..])
  {
    var t, a, n := Trim(s), LeadingWhitespace(s), TrailingWhitespace(s);
    if a < |s| {
      TrimBounds(s);
      assert t == s[a..|s| - n];
      assert s[a + |t|..] == s[|s| - n..];
    }
    assert forall i :: 0 <= i < a ==> s[..a][i] == s[i];
  }

  /** A non-blank `trim` neither starts nor ends with whitespace. */
  lemma TrimEnds(s: string)
    requires Trim(s) != []
    ensures !IsJsWhitespace(Trim(s)[0]) && !IsJsWhitespace(Trim(s)[|Trim(s)| - 1])
  {
    var a, n := LeadingWhitespace(s), TrailingWhitespace(s);
    var r := s[a..|s| - n];
    assert Trim(s) == r;
    assert r[0] == s[a];
    assert r[|r| - 1] == s[|s| - 1 - n];
  }

  /** The blank test of both rooms, `!s.trim()`, holds exactly when `s` is
      all whitespace. */
  lemma TrimBlank(s: string)
    ensures Trim(s) == [] <==> AllWhitespace(s)
  {
    var a := LeadingWhitespace(s);
    if a < |s| {
      assert Trim(s)[0] == s[a];
    }
  }

  /** The rooms' blank test `!s.trim()`: true exactly for an all-whitespace
      string. */
  function IsBlank(s: string): (b: bool)
    ensures b <==> AllWhitespace(s)
  {
    TrimBlank(s);
    Trim(s) == []
  }

  predicate IsDigit(c: char) {
    '0' <= c <= '9'
  }

  predicate AllDigits(s: string) {
    forall i :: 0 <= i < |s| ==> IsDigit(s[i])
  }

  function DigitChar(d: nat): (c: char)
    requires d < 10
    ensures IsDigit(c) && c as int - '0' as int == d
  {
    ('0' as int + d) as char
  }

  function DigitValue(c: char): (d: nat)
    requires IsDigit(c)
    ensures d < 10 && DigitChar(d) == c
  {
    c as int - '0' as int
  }

  /** `n.toString()` for a non-negative integer: its decimal digits, most
      significant first, with no leading zero unless `n` is 0. */
  function NatToString(n: nat): (r: string)
    ensures |r| >= 1 && AllDigits(r)
    ensures r[0] == '0' ==> n == 0
    ensures n < 10 <==> |r| == 1
  {
    if n < 10 then [DigitChar(n)] else NatToString(n / 10) + [DigitChar(n % 10)]
  }

  /** `n.toString()` for any integer: a minus sign before the digits of a
      negative number. */
  function IntToString(n: int): (r: string)
    ensures |r| >= 1
    ensures n >= 0 ==> r == NatToString(n)
    ensures n < 0 ==> r[0] == '-' && r[1..] == NatToString(-n)
  {
    if n < 0 then "-" + NatToString(-n) else NatToString(n)
  }

  /** The value of a string of decimal digits (0 for the empty string). */
  function ParseNat(s: string): nat
    requires AllDigits(s)
  {
    if s == [] then 0 else 10 * ParseNat(s[..|s| - 1]) + DigitValue(s[|s| - 1])
  }

  /** Reading back what `toString` wrote gives the number again. */
  lemma {:induction false} ParseNatToString(n: nat)
    ensures ParseNat(NatToString(n)) == n
  {
    var r := NatToString(n);
    if n >= 10 {
      ParseNatToString(n / 10);
      assert r[..|r| - 1] == NatToString(n / 10);
    }
  }

  /** `s.padStart(2, "0")`: zeros in front until `s` has two characters;
      a string already that long is returned unchanged. */
  function PadStart2(s: string): (r: string)
    ensures |r| == if |s| >= 2 then |s| else 2
    ensures r[|r| - |s|..] == s
    ensures forall i :: 0 <= i < |r| - |s| ==> r[i] == '0'
  {
    if |s| >= 2 then s else if |s| == 1 then "0" + s else "00"
  }
}
