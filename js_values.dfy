/**
 * The JavaScript values that can sit in a field of a raw state record or of
 * a flight record, with the two coercions the flight feed applies to them:
 * truthiness (`x || d`, `x && y`) and the global `isNaN`.
 *
 * Numbers are exact reals. NaN cannot come out of `JSON.parse`, and the
 * simulated flights compute only finite values. `-0` and the infinities can
 * be parsed (`-0`, `1e400`), but truthiness and `isNaN` treat `-0` as `0` and
 * an infinity as a nonzero finite number, so a real stands for each of them.
 */
module JsValues {
  import opened JsStrings

  datatype Value =
    | Undefined
    | Null
    | Bool(b: bool)
    | Number(n: real)
    | Str(s: string)
    | Composite  // an array or an object, never inspected by the feed

  /** ToBoolean: `undefined`, `null`, `false`, `0` and `""` are falsy; the rest is truthy. */
  predicate Truthy(v: Value) {
    match v
    case Undefined => false
    case Null => false
    case Bool(b) => b
    case Number(n) => n != 0.0
    case Str(s) => s != []
    case Composite => true
  }

  /** `v || fallback`: `v` itself when truthy, the fallback otherwise. */
  function Or(v: Value, fallback: Value): Value {
    if Truthy(v) then v else fallback
  }

  /** The global `isNaN(v)`: whether ToNumber(v) is NaN. */
  predicate IsNaN(v: Value) {
    match v
    case Undefined => true
    case Null => false
    case Bool(_) => false
    case Number(_) => false
    case Str(s) => !IsStringNumericLiteral(s)
    case Composite => true
  }

  // ---------------------------------------------------------------------
  // StringNumericLiteral of ECMA-262: the strings ToNumber does not map to NaN
  // ---------------------------------------------------------------------

  predicate IsStringNumericLiteral(s: string) {
    var t := Trim(s);
    t == [] || IsNonDecimalIntegerLiteral(t) || IsStrDecimalLiteral(t)
  }

  predicate IsHexDigit(c: char) { IsDigit(c) || 'a' <= c <= 'f' || 'A' <= c <= 'F' }
  predicate IsOctalDigit(c: char) { '0' <= c <= '7' }
  predicate IsBinaryDigit(c: char) { c == '0' || c == '1' }

  /** `0x1F`, `0o17`, `0b101` (no sign, at least one digit). */
  predicate IsNonDecimalIntegerLiteral(t: string) {
    && |t| >= 3 && t[0] == '0'
    && (|| ((t[1] == 'x' || t[1] == 'X') && forall k :: 2 <= k < |t| ==> IsHexDigit(t[k]))
        || ((t[1] == 'o' || t[1] == 'O') && forall k :: 2 <= k < |t| ==> IsOctalDigit(t[k]))
        || ((t[1] == 'b' || t[1] == 'B') && forall k :: 2 <= k < |t| ==> IsBinaryDigit(t[k])))
  }

  /** An optional sign followed by an unsigned decimal literal. */
  predicate IsStrDecimalLiteral(t: string) {
    if |t| > 0 && (t[0] == '+' || t[0] == '-') then IsStrUnsignedDecimalLiteral(t[1..])
    else IsStrUnsignedDecimalLiteral(t)
  }

  /** `Infinity`, or a mantissa followed by an optional exponent. */
  predicate IsStrUnsignedDecimalLiteral(u: string) {
    u == "Infinity" || exists e | 0 <= e <= |u| :: IsMantissa(u[..e]) && IsExponentPart(u[e..])
  }

  /** `12`, `12.`, `.5` or `12.5` (at least one digit, at most one point). */
  predicate IsMantissa(m: string) {
    || (m != [] && AllDigits(m))
    || (|m| >= 2 && exists k | 0 <= k < |m| :: m[k] == '.' && AllDigits(m[..k]) && AllDigits(m[k + 1..]))
  }

  /** Empty, or `e`/`E`, an optional sign and at least one digit. */
  predicate IsExponentPart(x: string) {
    || x == []
    || (&& |x| >= 2 && (x[0] == 'e' || x[0] == 'E')
        && var d := if x[1] == '+' || x[1] == '-' then x[2..] else x[1..];
           d != [] && AllDigits(d))
  }

  // ---------------------------------------------------------------------
  // Which strings isNaN accepts
  // ---------------------------------------------------------------------

  /** The decimal rendering of a non-negative integer reads back as a number. */
  lemma DecimalRenderingIsNumber(n: nat)
    ensures !IsNaN(Str(NatToString(n)))
  {
    var u := NatToString(n);
    TrimOfStripped(u);
    DigitsAreDecimalLiteral(u);
  }

  /** A non-empty run of digits is a mantissa with an empty exponent part. */
  lemma DigitsAreDecimalLiteral(u: string)
    requires u != [] && AllDigits(u)
    ensures IsStrDecimalLiteral(u)
  {
    assert u[..|u|] == u && u[|u|..] == [];
    assert IsMantissa(u[..|u|]) && IsExponentPart(u[|u|..]);
  }

  /** A string of whitespace only, the empty string included, converts to `0`, not to NaN. */
  lemma BlankStringIsNumber(s: string)
    requires AllWhitespace(s)
    ensures !IsNaN(Str(s))
  {
    TrimOfWhitespace(s);
  }

  /**
   * Once trimmed, a string that starts with anything other than a digit, a
   * sign, a point or the `I` of `Infinity` (such as `N/A`) converts to NaN.
   */
  lemma NonNumericLeadIsNaN(s: string)
    requires Trim(s) != [] && !IsDigit(Trim(s)[0]) && Trim(s)[0] !in "+-.I"
    ensures IsNaN(Str(s))
  {
    var t := Trim(s);
    assert t != "Infinity";
    forall e | 0 <= e <= |t| ensures !IsMantissa(t[..e]) {
      var m := t[..e];
      if m != [] {
        assert m[0] == t[0];
        forall k | 0 <= k < |m| && m[k] == '.' ensures !AllDigits(m[..k]) {
          if k > 0 { assert m[..k][0] == m[0]; }
        }
      }
    }
  }
}
