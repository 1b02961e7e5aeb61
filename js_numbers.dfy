/** A price as a request body carries it, and the two readings the price
    rules of backend/routes/VendorRoutes.js give it: validator.js's
    `isNumeric()`, which tests the value's string form against
    `/^[+-]?([0-9]*[.])?[0-9]+$/`, and `custom((value) => value >= 0)`,
    which compares the raw value and so converts a string with
    ECMAScript's StringToNumber (section 7.1.4.1.1 of ECMA-262). */
module JsNumbers {
  import opened Common
  import opened Strings

  /** A JSON number (an IEEE double, modelled as a real) or a JSON string. */
  datatype Amount = JsonNumber(v: real) | JsonString(text: string)

  // ---------------------------------------------------------------------
  // isNumeric()
  // ---------------------------------------------------------------------

  predicate IsDigitOrDot(c: char)
  {
    IsDigit(c) || c == '.'
  }

  /** `([0-9]*[.])?[0-9]+`: digits with at most one point, ending in a
      digit. */
  predicate IsUnsignedNumeral(u: string)
  {
    && |u| >= 1 && IsDigit(u[|u| - 1])
    && (forall k :: 0 <= k < |u| ==> IsDigitOrDot(u[k]))
    && multiset(u)['.'] <= 1
  }

  predicate IsSign(c: char)
  {
    c == '+' || c == '-'
  }

  /** `isNumeric()` on a string. */
  predicate IsNumericText(s: string)
  {
    if |s| >= 1 && IsSign(s[0]) then IsUnsignedNumeral(s[1..]) else IsUnsignedNumeral(s)
  }

  /** `String(v)` is written without an exponent exactly when
      10^-6 <= |v| < 10^21 or v is 0 (Number::toString, section 6.1.6.1.20
      of ECMA-262); only then can `isNumeric()` accept it. */
  predicate PrintsPlain(v: real)
  {
    var m := if v < 0.0 then -v else v;
    m == 0.0 || (1.0 / 1000000.0 <= m && m < 1000000000000000000000.0)
  }

  /** `isNumeric()` on the body value: a number through its string form. */
  predicate IsNumeric(a: Amount)
  {
    match a
    case JsonNumber(v) => PrintsPlain(v)
    case JsonString(s) => IsNumericText(s)
  }

  // ---------------------------------------------------------------------
  // The numeric value of an accepted price
  // ---------------------------------------------------------------------

  /** The digits of a numeral, the point left out. */
  function Unpointed(u: string): (d: string)
    requires forall k :: 0 <= k < |u| ==> IsDigitOrDot(u[k])
    ensures forall k :: 0 <= k < |d| ==> IsDigit(d[k])
  {
    if u == [] then []
    else if u[|u| - 1] == '.' then Unpointed(u[..|u| - 1])
    else
      assert IsDigitOrDot(u[|u| - 1]);
      Unpointed(u[..|u| - 1]) + [u[|u| - 1]]
  }

  /** How many digits follow the point. */
  function Scale(u: string): nat
  {
    if u == [] || '.' !in u then 0
    else if u[|u| - 1] == '.' then 0
    else 1 + Scale(u[..|u| - 1])
  }

  function NumeralValue(u: string): (r: real)
    requires forall k :: 0 <= k < |u| ==> IsDigitOrDot(u[k])
    ensures r >= 0.0
  {
    DecimalValue(Unpointed(u)) as real / Pow10(Scale(u)) as real
  }

  /** The number a numeric text denotes, as `Number(price)` and the
      schema's cast to Number read it. */
  function TextValue(s: string): real
    requires IsNumericText(s)
  {
    if IsSign(s[0]) then
      if s[0] == '-' then -NumeralValue(s[1..]) else NumeralValue(s[1..])
    else NumeralValue(s)
  }

  /** The price stored from an accepted amount. */
  function PriceValue(a: Amount): real
    requires IsNumeric(a)
  {
    match a
    case JsonNumber(v) => v
    case JsonString(s) => TextValue(s)
  }

  // ---------------------------------------------------------------------
  // value >= 0
  // ---------------------------------------------------------------------

  predicate IsExponentMark(c: char)
  {
    c == 'e' || c == 'E'
  }

  /** Where the exponent of a decimal literal starts, `|t|` when there is
      none. */
  function ExponentAt(t: string): (i: nat)
    ensures i <= |t|
    ensures forall k :: 0 <= k < i ==> !IsExponentMark(t[k])
    ensures i < |t| ==> IsExponentMark(t[i])
  {
    if t == [] || IsExponentMark(t[0]) then 0 else 1 + ExponentAt(t[1..])
  }

  predicate AllDigits(s: string)
  {
    |s| >= 1 && forall k :: 0 <= k < |s| ==> IsDigit(s[k])
  }

  /** `DecimalDigits . DecimalDigits?`, `. DecimalDigits` or
      `DecimalDigits`: at least one digit and at most one point. */
  predicate IsJsMantissa(m: string)
  {
    && (forall k :: 0 <= k < |m| ==> IsDigitOrDot(m[k]))
    && multiset(m)['.'] <= 1
    && |m| > multiset(m)['.']
  }

  /** `ExponentPart` after its mark: an optional sign and digits. */
  predicate IsJsExponent(x: string)
  {
    if |x| >= 1 && IsSign(x[0]) then AllDigits(x[1..]) else AllDigits(x)
  }

  /** StrUnsignedDecimalLiteral. */
  predicate IsJsUnsignedDecimal(u: string)
  {
    || u == "Infinity"
    || var i := ExponentAt(u);
       IsJsMantissa(u[..i]) && (i == |u| || IsJsExponent(u[i + 1..]))
  }

  /** A decimal literal whose digits before the exponent are all zero:
      its value is zero, whatever the exponent. */
  predicate IsJsZero(u: string)
  {
    var i := ExponentAt(u);
    forall k :: 0 <= k < i ==> u[k] == '0' || u[k] == '.'
  }

  predicate IsHexDigit(c: char)
  {
    IsDigit(c) || 'a' <= c <= 'f' || 'A' <= c <= 'F'
  }

  /** NonDecimalIntegerLiteral: `0x`, `0o` or `0b` and its digits, with no
      sign; its value is never negative. */
  predicate IsJsNonDecimal(t: string)
  {
    && |t| >= 3 && t[0] == '0'
    && (|| ((t[1] == 'x' || t[1] == 'X') && forall k :: 2 <= k < |t| ==> IsHexDigit(t[k]))
        || ((t[1] == 'o' || t[1] == 'O') && forall k :: 2 <= k < |t| ==> '0' <= t[k] <= '7')
        || ((t[1] == 'b' || t[1] == 'B') && forall k :: 2 <= k < |t| ==> t[k] == '0' || t[k] == '1'))
  }

  /** `s >= 0` for a string `s`: StringToNumber trims white space, reads
      the empty string as 0 and anything it cannot parse as NaN, and NaN
      compares false. -0 is not below 0. The sign is read from the exact
      value of the text, before any rounding to a double. */
  predicate StringAtLeastZero(s: string)
  {
    var t := Trim(s);
    || t == ""
    || IsJsNonDecimal(t)
    || IsJsUnsignedDecimal(t)
    || (t[0] == '+' && IsJsUnsignedDecimal(t[1..]))
    || (t[0] == '-' && IsJsUnsignedDecimal(t[1..]) && IsJsZero(t[1..]))
  }

  /** `custom((value) => value >= 0)` on the body value. */
  predicate AtLeastZero(a: Amount)
  {
    match a
    case JsonNumber(v) => v >= 0.0
    case JsonString(s) => StringAtLeastZero(s)
  }

  // ---------------------------------------------------------------------
  // Properties
  // ---------------------------------------------------------------------

  /** The point-free digits read as zero exactly when every digit is 0. */
  lemma {:induction false} UnpointedZero(u: string)
    requires forall k :: 0 <= k < |u| ==> IsDigitOrDot(u[k])
    ensures DecimalValue(Unpointed(u)) == 0 <==> forall k :: 0 <= k < |u| ==> u[k] == '0' || u[k] == '.'
  {
    if u != [] {
      var p := u[..|u| - 1];
      UnpointedZero(p);
      assert forall k :: 0 <= k < |p| ==> p[k] == u[k];
      if u[|u| - 1] != '.' {
        var d := Unpointed(p) + [u[|u| - 1]];
        assert d[..|d| - 1] == Unpointed(p);
      }
    }
  }

  /** A text `isNumeric()` accepts has no white space to trim and is a
      StrUnsignedDecimalLiteral once its sign is off. */
  lemma NumeralIsJsDecimal(u: string)
    requires IsUnsignedNumeral(u)
    ensures IsJsUnsignedDecimal(u) && ExponentAt(u) == |u|
    ensures IsJsZero(u) <==> forall k :: 0 <= k < |u| ==> u[k] == '0' || u[k] == '.'
  {
    assert forall k :: 0 <= k < |u| ==> !IsExponentMark(u[k]);
    assert u[..|u|] == u;
  }

  lemma NumericTextIsTrimmed(s: string)
    requires IsNumericText(s)
    ensures Trim(s) == s
  {
    if IsSign(s[0]) {
      assert forall k :: 1 <= k < |s| ==> s[k] == s[1..][k - 1];
    }
    TrimAt(s, 0, |s|);
  }

  /** On the text `isNumeric()` accepts, `value >= 0` agrees with the sign
      of the number stored: "-0" and "-0.00" pass, any other negative
      numeral fails. */
  lemma NumericTextSignAgrees(s: string)
    requires IsNumericText(s)
    ensures StringAtLeastZero(s) <==> TextValue(s) >= 0.0
  {
    NumericTextIsTrimmed(s);
    if IsSign(s[0]) {
      var u := s[1..];
      NumeralIsJsDecimal(u);
      UnpointedZero(u);
      assert !IsJsNonDecimal(s);
      assert !IsJsUnsignedDecimal(s) by {
        assert ExponentAt(s) == |s| by {
          assert forall k :: 1 <= k < |s| ==> s[k] == u[k - 1];
        }
        assert s[..|s|] == s;
      }
      if s[0] == '-' {
        var m := DecimalValue(Unpointed(u));
        assert TextValue(s) == -(m as real / Pow10(Scale(u)) as real);
        assert TextValue(s) >= 0.0 <==> m == 0;
      }
    } else {
      NumeralIsJsDecimal(s);
    }
  }

  /** An amount both price rules accept is stored as a number that is not
      negative. */
  lemma AcceptedPriceNonNegative(a: Amount)
    requires IsNumeric(a) && AtLeastZero(a)
    ensures PriceValue(a) >= 0.0
  {
    if a.JsonString? {
      NumericTextSignAgrees(a.text);
    }
  }

  /** The empty string and white space pass `value >= 0`, since
      StringToNumber reads them as 0, but `isNumeric()` refuses them. */
  lemma BlankCoercedButNotNumeric()
    ensures StringAtLeastZero("") && !IsNumericText("")
    ensures StringAtLeastZero(" ") && !IsNumericText(" ")
  {
    TrimAt(" ", 1, 1);
  }

  /** A hexadecimal literal passes `value >= 0` but not `isNumeric()`. */
  lemma HexCoercedButNotNumeric()
    ensures StringAtLeastZero("0x10") && !IsNumericText("0x10")
  {
    TrimAt("0x10", 0, 4);
    assert IsJsNonDecimal("0x10");
    assert !IsDigitOrDot("0x10"[1]);
  }

  /** "Infinity" passes `value >= 0` but not `isNumeric()`. */
  lemma InfinityCoercedButNotNumeric()
    ensures StringAtLeastZero("Infinity") && !IsNumericText("Infinity")
  {
    TrimAt("Infinity", 0, 8);
    assert !IsDigitOrDot("Infinity"[0]);
  }

  /** Numbers whose string form has an exponent: `isNumeric()` refuses
      them though `value >= 0` holds. */
  lemma ExponentFormNotNumeric()
    ensures !IsNumeric(JsonNumber(1000000000000000000000.0)) && AtLeastZero(JsonNumber(1000000000000000000000.0))
    ensures !IsNumeric(JsonNumber(0.0000001)) && AtLeastZero(JsonNumber(0.0000001))
  {
  }
}
