/**
 * The building blocks the request schemas use: Zod's `min`/`max` string checks, which count UTF-16 code units
 * as JavaScript's `length` does, and JavaScript's `parseInt(value, 10)`, which Zod's `transform` applies to
 * query parameters.
 */
module Zod {

  /** JavaScript's `String.prototype.length`: one code unit per character, two for one outside the Basic Multilingual Plane. */
  function Utf16Length(s: string): (n: nat)
    ensures |s| <= n <= 2 * |s|
  {
    if s == [] then 0 else (if s[0] as int > 0xFFFF then 2 else 1) + Utf16Length(s[1..])
  }

  /** For text in the Basic Multilingual Plane, JavaScript's length is the number of characters. */
  lemma {:induction false} Utf16LengthOfBmp(s: string)
    requires forall i :: 0 <= i < |s| ==> s[i] as int <= 0xFFFF
    ensures Utf16Length(s) == |s|
  {
    if s != [] {
      Utf16LengthOfBmp(s[1..]);
    }
  }

  /** `z.string().min(n)`. */
  predicate MinLength(s: string, n: nat) {
    Utf16Length(s) >= n
  }

  /** `z.string().max(n)`. */
  predicate MaxLength(s: string, n: nat) {
    Utf16Length(s) <= n
  }

  /** Text with no character outside the Basic Multilingual Plane. */
  predicate IsBmp(s: string) {
    forall i :: 0 <= i < |s| ==> s[i] as int <= 0xFFFF
  }

  /** For such text, `min(lo)` and `max(hi)` together bound the number of characters. */
  lemma LengthBoundsOfBmp(s: string, lo: nat, hi: nat)
    requires IsBmp(s)
    ensures MinLength(s, lo) && MaxLength(s, hi) <==> lo <= |s| <= hi
  {
    Utf16LengthOfBmp(s);
  }

  /** A JavaScript number as `parseInt` can return it: `NaN` or an integer. */
  datatype JsNumber = NaN | Num(value: int)

  /** The characters `parseInt` skips at the start: ECMAScript's WhiteSpace and LineTerminator. */
  predicate IsJsWhiteSpace(c: char) {
    c == '\t' || c == '\n' || c == '\U{000B}' || c == '\U{000C}' || c == '\r' || c == ' ' ||
    c == '\U{00A0}' || c == '\U{1680}' || ('\U{2000}' <= c <= '\U{200A}') || c == '\U{2028}' ||
    c == '\U{2029}' || c == '\U{202F}' || c == '\U{205F}' || c == '\U{3000}' || c == '\U{FEFF}'
  }

  predicate IsDigit(c: char) {
    '0' <= c <= '9'
  }

  function TrimStart(s: string): (r: string)
    ensures |r| <= |s| && r == s[|s| - |r|..]
    ensures r != [] ==> !IsJsWhiteSpace(r[0])
    ensures forall i :: 0 <= i < |s| - |r| ==> IsJsWhiteSpace(s[i])
  {
    if s != [] && IsJsWhiteSpace(s[0]) then TrimStart(s[1..]) else s
  }

  /** The longest run of decimal digits at the start of `s`. */
  function DigitPrefix(s: string): (d: string)
    ensures |d| <= |s| && d == s[..|d|]
    ensures forall i :: 0 <= i < |d| ==> IsDigit(d[i])
    ensures |d| < |s| ==> !IsDigit(s[|d|])
  {
    if s != [] && IsDigit(s[0]) then [s[0]] + DigitPrefix(s[1..]) else []
  }

  function DigitValue(c: char): nat
    requires IsDigit(c)
  {
    c as int - '0' as int
  }

  function DigitChar(d: nat): (c: char)
    requires d < 10
    ensures IsDigit(c) && DigitValue(c) == d
  {
    ('0' as int + d) as char
  }

  /** The value of a string of decimal digits, most significant first. */
  function DecimalValue(digits: string): nat
    requires forall i :: 0 <= i < |digits| ==> IsDigit(digits[i])
  {
    if digits == [] then 0 else DecimalValue(digits[..|digits| - 1]) * 10 + DigitValue(digits[|digits| - 1])
  }

  /**
   * `parseInt(s, 10)`: skip leading white space, take one optional sign, then the longest run of digits;
   * `NaN` when that run is empty. Whatever follows the digits is ignored.
   */
  function ParseInt(s: string): (n: JsNumber)
    ensures n.Num? ==> exists i :: 0 <= i < |s| && IsDigit(s[i])
    ensures n.Num? && n.value < 0 ==> '-' in s
  {
    var t := TrimStart(s);
    var negative := t != [] && t[0] == '-';
    var signed := t != [] && (t[0] == '-' || t[0] == '+');
    var unsigned := if signed then t[1..] else t;
    var digits := DigitPrefix(unsigned);
    if digits == [] then NaN
    else
      var start := |s| - |t| + (if signed then 1 else 0);
      assert digits[0] == unsigned[0] == s[start];
      assert negative ==> t[0] == s[|s| - |t|];
      var magnitude: int := DecimalValue(digits);
      Num(if negative then -magnitude else magnitude)
  }

  /** The decimal rendering of a natural number, without leading zeros. */
  function Decimal(n: nat): (s: string)
    ensures s != []
    ensures forall i :: 0 <= i < |s| ==> IsDigit(s[i])
  {
    if n < 10 then [DigitChar(n)] else Decimal(n / 10) + [DigitChar(n % 10)]
  }

  lemma {:induction false} DecimalValueOfDecimal(n: nat)
    ensures DecimalValue(Decimal(n)) == n
  {
    if n >= 10 {
      var s := Decimal(n);
      assert s[..|s| - 1] == Decimal(n / 10);
      DecimalValueOfDecimal(n / 10);
    }
  }

  /** `parseInt` reads back the decimal rendering of any natural number, and stops at the first non-digit after it. */
  lemma ParseIntDecimal(n: nat, rest: string)
    requires rest == [] || !IsDigit(rest[0])
    ensures ParseInt(Decimal(n) + rest) == Num(n)
  {
    var s := Decimal(n) + rest;
    assert !IsJsWhiteSpace(s[0]) && s[0] != '-' && s[0] != '+' by {
      assert s[0] == Decimal(n)[0];
    }
    assert TrimStart(s) == s;
    DigitPrefixOfDigits(Decimal(n), rest);
    DecimalValueOfDecimal(n);
  }

  /** A leading minus sign negates what follows it. */
  lemma ParseIntNegative(n: nat)
    ensures ParseInt("-" + Decimal(n)) == Num(-(n as int))
  {
    var s := "-" + Decimal(n);
    assert s[0] == '-' && !IsJsWhiteSpace(s[0]);
    assert TrimStart(s) == s;
    assert s[1..] == Decimal(n) + [];
    DigitPrefixOfDigits(Decimal(n), []);
    DecimalValueOfDecimal(n);
  }

  lemma {:induction false} DigitPrefixOfDigits(d: string, rest: string)
    requires forall i :: 0 <= i < |d| ==> IsDigit(d[i])
    requires rest == [] || !IsDigit(rest[0])
    ensures DigitPrefix(d + rest) == d
  {
    if d != [] {
      assert (d + rest)[1..] == d[1..] + rest;
      DigitPrefixOfDigits(d[1..], rest);
    } else {
      assert d + rest == rest;
    }
  }

  /** Text with no digit after the white space and the sign parses to `NaN`. */
  lemma ParseIntNoDigits(s: string)
    requires forall i :: 0 <= i < |s| ==> !IsDigit(s[i])
    ensures ParseInt(s) == NaN
  {
  }
}
