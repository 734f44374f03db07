/**
 * JavaScript's `parseInt(s, 10)` (section 19.2.5 of ECMA-262): skip leading white space,
 * take an optional sign, then the longest run of decimal digits; no digits at all gives NaN.
 * `Decimal` is the partner: the decimal text of a natural number, as `String(n)` writes it.
 */
module ParseInt {

  /** The number `parseInt` returns, restricted to what it can produce: NaN or an integer. */
  datatype Parsed = NaN | Int(value: int)

  /** ECMA-262 StrWhiteSpaceChar: the WhiteSpace and LineTerminator code points. */
  predicate IsWhiteSpace(c: char)
  {
    || c == '\t' || c == '\n' || c == '\U{B}' || c == '\U{C}' || c == '\r'
    || c == ' ' || c == '\U{A0}' || c == '\U{1680}' || ('\U{2000}' <= c <= '\U{200A}')
    || c == '\U{2028}' || c == '\U{2029}' || c == '\U{202F}' || c == '\U{205F}'
    || c == '\U{3000}' || c == '\U{FEFF}'
  }

  predicate IsDigit(c: char)
  {
    '0' <= c <= '9'
  }

  predicate AllDigits(z: string)
  {
    forall i :: 0 <= i < |z| ==> IsDigit(z[i])
  }

  predicate AllWhiteSpace(ws: string)
  {
    forall i :: 0 <= i < |ws| ==> IsWhiteSpace(ws[i])
  }

  function DigitOf(c: char): nat
    requires IsDigit(c)
  {
    (c as int) - ('0' as int)
  }

  function DigitChar(d: nat): char
    requires d < 10
  {
    (('0' as int) + d) as char
  }

  /** The input with its leading white space removed. */
  function TrimStart(s: string): (r: string)
    ensures |r| <= |s| && r == s[|s| - |r|..]
    ensures r == [] || !IsWhiteSpace(r[0])
    ensures AllWhiteSpace(s[..|s| - |r|])
  {
    if s != [] && IsWhiteSpace(s[0]) then TrimStart(s[1..]) else s
  }

  /** The longest prefix of the input made of decimal digits. */
  function DigitPrefix(s: string): (z: string)
    ensures |z| <= |s| && z == s[..|z|]
    ensures AllDigits(z)
    ensures |z| < |s| ==> !IsDigit(s[|z|])
  {
    if s != [] && IsDigit(s[0]) then [s[0]] + DigitPrefix(s[1..]) else []
  }

  /** The value of a string of decimal digits, most significant first. */
  function DigitsValue(z: string): nat
    requires AllDigits(z)
  {
    if z == [] then 0 else 10 * DigitsValue(z[..|z| - 1]) + DigitOf(z[|z| - 1])
  }

  /** `parseInt(s, 10)` on unbounded integers. The result is NaN exactly when the first
      character after the white space is neither a digit nor a sign followed by a digit, and
      it is negative only after a minus sign. */
  function ParseIntDecimal(s: string): (r: Parsed)
    ensures var t := TrimStart(s);
      r.NaN? <==> !((|t| >= 1 && IsDigit(t[0])) || (|t| >= 2 && (t[0] == '-' || t[0] == '+') && IsDigit(t[1])))
    ensures r.Int? && r.value < 0 ==> TrimStart(s)[0] == '-'
  {
    ParseSigned(TrimStart(s))
  }

  /** The steps of `parseInt` after the white space: an optional sign, then the digits. */
  function ParseSigned(t: string): (r: Parsed)
    ensures r.NaN? <==> !((|t| >= 1 && IsDigit(t[0])) || (|t| >= 2 && (t[0] == '-' || t[0] == '+') && IsDigit(t[1])))
    ensures r.Int? && r.value < 0 ==> t[0] == '-'
  {
    var negative := t != [] && t[0] == '-';
    var unsigned := if t != [] && (t[0] == '-' || t[0] == '+') then t[1..] else t;
    var z := DigitPrefix(unsigned);
    assert z == [] <==> unsigned == [] || !IsDigit(unsigned[0]);
    if z == [] then NaN
    else
      var magnitude: int := DigitsValue(z);
      Int(if negative then -magnitude else magnitude)
  }

  /** The decimal text of `n`, without leading zeros. */
  function Decimal(n: nat): (s: string)
    ensures |s| >= 1 && AllDigits(s)
    ensures s[0] == '0' ==> n == 0
  {
    if n < 10 then [DigitChar(n)] else Decimal(n / 10) + [DigitChar(n % 10)]
  }

  lemma {:induction false} DigitsValueOfDecimal(n: nat)
    ensures DigitsValue(Decimal(n)) == n
  {
    if n >= 10 {
      var s := Decimal(n);
      assert s[..|s| - 1] == Decimal(n / 10);
      DigitsValueOfDecimal(n / 10);
    }
  }

  lemma {:induction false} DigitPrefixOfDigits(z: string, rest: string)
    requires AllDigits(z)
    requires rest == [] || !IsDigit(rest[0])
    ensures DigitPrefix(z + rest) == z
  {
    if z == [] {
      assert z + rest == rest;
    } else {
      assert (z + rest)[1..] == z[1..] + rest;
      DigitPrefixOfDigits(z[1..], rest);
    }
  }

  lemma {:induction false} TrimStartOfWhiteSpace(ws: string, t: string)
    requires AllWhiteSpace(ws)
    requires t == [] || !IsWhiteSpace(t[0])
    ensures TrimStart(ws + t) == t
  {
    if ws == [] {
      assert ws + t == t;
    } else {
      assert (ws + t)[1..] == ws[1..] + t;
      TrimStartOfWhiteSpace(ws[1..], t);
    }
  }

  /** Once the white space is trimmed, `parseInt` reads the sign and the digits that follow. */
  lemma ParseUnsignedDigits(z: string, rest: string)
    requires z != [] && AllDigits(z)
    requires rest == [] || !IsDigit(rest[0])
    ensures ParseSigned(z + rest) == Int(DigitsValue(z))
  {
    DigitPrefixOfDigits(z, rest);
    assert (z + rest)[0] == z[0];
  }

  lemma ParseMinusDigits(z: string, rest: string)
    requires z != [] && AllDigits(z)
    requires rest == [] || !IsDigit(rest[0])
    ensures ParseSigned("-" + z + rest) == Int(0 - DigitsValue(z))
  {
    DigitPrefixOfDigits(z, rest);
    assert ("-" + z + rest)[1..] == z + rest;
  }

  /** Round trip: parsing the decimal text of `n`, after any leading white space and before
      any text that does not start with a digit, gives back `n`. */
  lemma ParseDecimal(n: nat, ws: string, rest: string)
    requires AllWhiteSpace(ws)
    requires rest == [] || !IsDigit(rest[0])
    ensures ParseIntDecimal(ws + Decimal(n) + rest) == Int(n)
  {
    var d := Decimal(n);
    assert ws + d + rest == ws + (d + rest);
    TrimStartOfWhiteSpace(ws, d + rest);
    ParseUnsignedDigits(d, rest);
    DigitsValueOfDecimal(n);
  }

  /** The same with a minus sign: the result is `-n`. */
  lemma ParseNegativeDecimal(n: nat, ws: string, rest: string)
    requires AllWhiteSpace(ws)
    requires rest == [] || !IsDigit(rest[0])
    ensures ParseIntDecimal(ws + "-" + Decimal(n) + rest) == Int(0 - n)
  {
    var d := Decimal(n);
    assert ws + "-" + d + rest == ws + ("-" + d + rest);
    TrimStartOfWhiteSpace(ws, "-" + d + rest);
    ParseMinusDigits(d, rest);
    DigitsValueOfDecimal(n);
  }

  /** A text without any decimal digit is not a number. */
  lemma NoDigitIsNaN(s: string)
    requires forall i :: 0 <= i < |s| ==> !IsDigit(s[i])
    ensures ParseIntDecimal(s) == NaN
  {
  }
}
