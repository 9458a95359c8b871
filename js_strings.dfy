/**
 * The three JavaScript string operations the flight feed relies on:
 * `String.prototype.trim`, `String.prototype.toUpperCase` (ASCII letters
 * only) and the decimal rendering of a non-negative integer in a template
 * literal or a `+` concatenation.
 */
module JsStrings {

  // ---------------------------------------------------------------------
  // trim
  // ---------------------------------------------------------------------

  /** WhiteSpace and LineTerminator code points of ECMA-262: what `trim` removes. */
  predicate IsJsWhitespace(c: char) {
    || c == '\t' || c == '\n' || c == '\U{000B}' || c == '\U{000C}' || c == '\r'
    || c == ' ' || c == '\U{00A0}' || c == '\U{1680}'
    || ('\U{2000}' <= c <= '\U{200A}')
    || c == '\U{2028}' || c == '\U{2029}' || c == '\U{202F}' || c == '\U{205F}'
    || c == '\U{3000}' || c == '\U{FEFF}'
  }

  predicate AllWhitespace(s: string) {
    forall k :: 0 <= k < |s| ==> IsJsWhitespace(s[k])
  }

  /** Drops the leading whitespace: the result is the suffix of `s` after its longest all-whitespace prefix. */
  function TrimStart(s: string): (r: string)
    ensures |r| <= |s| && r == s[|s| - |r|..]
    ensures AllWhitespace(s[..|s| - |r|])
    ensures r != [] ==> !IsJsWhitespace(r[0])
  {
    if |s| > 0 && IsJsWhitespace(s[0]) then TrimStart(s[1..]) else s
  }

  /** Drops the trailing whitespace: the result is the prefix of `s` before its longest all-whitespace suffix. */
  function TrimEnd(s: string): (r: string)
    ensures |r| <= |s| && r == s[..|r|]
    ensures AllWhitespace(s[|r|..])
    ensures r != [] ==> !IsJsWhitespace(r[|r| - 1])
  {
    if |s| > 0 && IsJsWhitespace(s[|s| - 1]) then TrimEnd(s[..|s| - 1]) else s
  }

  /** `s.trim()`: no longer than `s`, and with no whitespace left at either end. */
  function Trim(s: string): (r: string)
    ensures |r| <= |s|
    ensures r != [] ==> !IsJsWhitespace(r[0]) && !IsJsWhitespace(r[|r| - 1])
  {
    TrimEnd(TrimStart(s))
  }

  /** `t` is `s` with whitespace peeled from both ends and none left at either end of `t`. */
  ghost predicate IsTrimmingOf(s: string, t: string) {
    exists i, j :: 0 <= i <= j <= |s| && t == s[i..j]
      && AllWhitespace(s[..i]) && AllWhitespace(s[j..])
      && (t != [] ==> !IsJsWhitespace(t[0]) && !IsJsWhitespace(t[|t| - 1]))
  }

  /** `Trim` meets the description of `trim`: an infix of its input, stripped at both ends. */
  lemma TrimIsTrimming(s: string)
    ensures IsTrimmingOf(s, Trim(s))
  {
    var a := TrimStart(s);
    var i := |s| - |a|;
    var t := TrimEnd(a);
    var j := i + |t|;
    assert t == s[i..j];
    assert s[j..] == a[|t|..];
    if t != [] {
      assert t[0] == a[0];
    }
  }

  /** The trimming of a string is unique, so `IsTrimmingOf` pins `Trim(s)` down. */
  lemma TrimmingIsUnique(s: string, t: string)
    requires IsTrimmingOf(s, t)
    ensures t == Trim(s)
  {
    var i, j :| 0 <= i <= j <= |s| && t == s[i..j]
      && AllWhitespace(s[..i]) && AllWhitespace(s[j..])
      && (t != [] ==> !IsJsWhitespace(t[0]) && !IsJsWhitespace(t[|t| - 1]));
    if t == [] {
      AllWhitespaceSplit(s, i);
      TrimOfWhitespace(s);
    } else {
      assert t[0] == s[i] && t[|t| - 1] == s[j - 1];
      TrimAt(s, i, j);
    }
  }

  /** With the non-whitespace part of `s` running from `i` to `j`, `Trim` cuts out exactly that part. */
  lemma TrimAt(s: string, i: nat, j: nat)
    requires i < j <= |s| && AllWhitespace(s[..i]) && AllWhitespace(s[j..])
    requires !IsJsWhitespace(s[i]) && !IsJsWhitespace(s[j - 1])
    ensures Trim(s) == s[i..j]
  {
    var u := s[i..];
    TrimStartAt(s, i);
    assert u[j - i..] == s[j..] && u[j - i - 1] == s[j - 1];
    TrimEndAt(u, j - i);
    calc {
      Trim(s);
      TrimEnd(u);
      u[..j - i];
      s[i..j];
    }
  }

  /** Once the first non-whitespace character is at `i`, `TrimStart` cuts exactly there. */
  lemma {:induction false} TrimStartAt(s: string, i: nat)
    requires i < |s| && AllWhitespace(s[..i]) && !IsJsWhitespace(s[i])
    ensures TrimStart(s) == s[i..]
  {
    if i > 0 {
      assert s[..i][0] == s[0];
      assert s[1..][..i - 1] == s[1..i];
      TrimStartAt(s[1..], i - 1);
    }
  }

  /** Once the last non-whitespace character is at `m - 1`, `TrimEnd` cuts exactly after it. */
  lemma {:induction false} TrimEndAt(s: string, m: nat)
    requires 0 < m <= |s| && AllWhitespace(s[m..]) && !IsJsWhitespace(s[m - 1])
    ensures TrimEnd(s) == s[..m]
  {
    if m < |s| {
      assert s[m..][|s| - 1 - m] == s[|s| - 1];
      var p := s[..|s| - 1];
      assert p[m..] == s[m..|s| - 1];
      TrimEndAt(p, m);
      assert p[..m] == s[..m];
    }
  }

  lemma AllWhitespaceSplit(s: string, i: int)
    requires 0 <= i <= |s|
    requires AllWhitespace(s[..i]) && AllWhitespace(s[i..])
    ensures AllWhitespace(s)
  {
    forall k | 0 <= k < |s| ensures IsJsWhitespace(s[k]) {
      if k < i { assert s[..i][k] == s[k]; } else { assert s[i..][k - i] == s[k]; }
    }
  }

  /** A string with no whitespace at either end is its own trimming. */
  lemma TrimOfStripped(s: string)
    requires s != [] ==> !IsJsWhitespace(s[0]) && !IsJsWhitespace(s[|s| - 1])
    ensures Trim(s) == s
  {
    assert TrimStart(s) == s;
  }

  lemma TrimOfWhitespace(s: string)
    requires AllWhitespace(s)
    ensures Trim(s) == []
  {
  }

  /** `trim` yields the empty string exactly when its input is all whitespace. */
  lemma TrimEmptyIff(s: string)
    ensures Trim(s) == [] <==> AllWhitespace(s)
  {
    var a := TrimStart(s);
    if Trim(s) == [] {
      assert AllWhitespace(a[0..]);
      assert s[..|s| - |a|] == s;
    } else if AllWhitespace(s) {
      TrimOfWhitespace(s);
    }
  }

  lemma TrimIdempotent(s: string)
    ensures Trim(Trim(s)) == Trim(s)
  {
    var t := Trim(s);
    TrimIsTrimming(s);
    assert t == t[0..|t|] && t[..0] == [] && t[|t|..] == [];
    assert IsTrimmingOf(t, t);
    TrimmingIsUnique(t, t);
  }

  // ---------------------------------------------------------------------
  // toUpperCase
  // ---------------------------------------------------------------------

  predicate IsLowerAscii(c: char) { 'a' <= c <= 'z' }

  function UpperChar(c: char): char {
    if IsLowerAscii(c) then (c as int - 32) as char else c
  }

  /** `toUpperCase` restricted to the ASCII letters. */
  function ToUpper(s: string): (r: string)
    ensures |r| == |s|
  {
    if s == [] then [] else [UpperChar(s[0])] + ToUpper(s[1..])
  }

  /** Upper-casing maps character by character: `UpperChar` at every index. */
  lemma {:induction false} ToUpperAt(s: string)
    ensures forall k :: 0 <= k < |s| ==> ToUpper(s)[k] == UpperChar(s[k])
  {
    if s != [] {
      ToUpperAt(s[1..]);
      forall k | 0 <= k < |s| ensures ToUpper(s)[k] == UpperChar(s[k]) {
        if k > 0 { assert s[1..][k - 1] == s[k]; }
      }
    }
  }

  /** No lower-case ASCII letter survives `ToUpper`. */
  lemma ToUpperHasNoLower(s: string)
    ensures forall k :: 0 <= k < |ToUpper(s)| ==> !IsLowerAscii(ToUpper(s)[k])
  {
    ToUpperAt(s);
  }

  /** A string without lower-case ASCII letters is left alone. */
  lemma {:induction false} ToUpperFixes(s: string)
    requires forall k :: 0 <= k < |s| ==> !IsLowerAscii(s[k])
    ensures ToUpper(s) == s
  {
    if s != [] {
      ToUpperFixes(s[1..]);
    }
  }

  lemma ToUpperIdempotent(s: string)
    ensures ToUpper(ToUpper(s)) == ToUpper(s)
  {
    ToUpperHasNoLower(s);
    ToUpperFixes(ToUpper(s));
  }

  /** Upper-casing commutes with taking a prefix. */
  lemma ToUpperPrefix(s: string, n: nat)
    requires n <= |s|
    ensures ToUpper(s[..n]) == ToUpper(s)[..n]
  {
    ToUpperAt(s);
    ToUpperAt(s[..n]);
  }

  // ---------------------------------------------------------------------
  // Decimal rendering of non-negative integers
  // ---------------------------------------------------------------------

  predicate IsDigit(c: char) { '0' <= c <= '9' }

  predicate AllDigits(s: string) {
    forall k :: 0 <= k < |s| ==> IsDigit(s[k])
  }

  function DigitChar(d: int): (c: char)
    requires 0 <= d < 10
    ensures IsDigit(c) && c as int - '0' as int == d
  {
    ('0' as int + d) as char
  }

  /** What `String(n)` gives for an integer-valued number `n >= 0` below 1e21. */
  function NatToString(n: nat): (r: string)
    ensures r != [] && AllDigits(r)
    ensures |r| == 1 || r[0] != '0'
  {
    if n < 10 then [DigitChar(n)] else NatToString(n / 10) + [DigitChar(n % 10)]
  }

  /** The value of a string of decimal digits, most significant first. */
  function ParseDigits(s: string): nat
    requires AllDigits(s)
  {
    if s == [] then 0 else ParseDigits(s[..|s| - 1]) * 10 + (s[|s| - 1] as int - '0' as int)
  }

  /** Reading back the decimal rendering gives the number that was rendered. */
  lemma {:induction false} ParseNatToString(n: nat)
    ensures ParseDigits(NatToString(n)) == n
  {
    if n >= 10 {
      ParseNatToString(n / 10);
      var s := NatToString(n);
      assert s[..|s| - 1] == NatToString(n / 10);
    }
  }

  lemma NatToStringInjective(a: nat, b: nat)
    requires NatToString(a) == NatToString(b)
    ensures a == b
  {
    ParseNatToString(a);
    ParseNatToString(b);
  }

  /** Numbers from 100 to 999 render as exactly three digits. */
  lemma ThreeDigits(n: nat)
    requires 100 <= n <= 999
    ensures |NatToString(n)| == 3
  {
    assert NatToString(n) == NatToString(n / 100) + [DigitChar(n / 10 % 10)] + [DigitChar(n % 10)];
  }
}
