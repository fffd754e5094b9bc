/**
 * The few pieces of JavaScript value semantics that the components rely on:
 * nullable strings and their truthiness, `Number.prototype.toString` for
 * non-negative integers, `parseInt`, the `ToInt32` conversion behind the
 * bitwise operators, and the UTF-16 code units that `charCodeAt` returns.
 */
module Js {

  /** `T | null` (and `T | undefined`). */
  datatype Option<T> = None | Some(value: T)

  /** JavaScript truthiness of a `string | null`: null and "" are falsy. */
  predicate Truthy(s: Option<string>) {
    s.Some? && s.value != ""
  }

  // ---------------------------------------------------------------------------
  // Digits

  /** The radix argument of `parseInt`: left out (prefix "0x" allowed) or 10. */
  datatype Radix = Auto | Decimal

  predicate IsDecimalDigit(c: char) {
    '0' <= c <= '9'
  }

  predicate IsHexDigit(c: char) {
    IsDecimalDigit(c) || 'a' <= c <= 'f' || 'A' <= c <= 'F'
  }

  /** Whether `c` is a digit of base 10 (`hex` false) or base 16 (`hex` true). */
  predicate IsDigit(c: char, hex: bool) {
    if hex then IsHexDigit(c) else IsDecimalDigit(c)
  }

  predicate AllDigits(s: string, hex: bool) {
    forall i :: 0 <= i < |s| ==> IsDigit(s[i], hex)
  }

  function DigitValue(c: char): (d: nat)
    requires IsHexDigit(c)
    ensures d < 16
    ensures IsDecimalDigit(c) ==> d < 10
  {
    if IsDecimalDigit(c) then c as int - '0' as int
    else if 'a' <= c <= 'f' then c as int - 'a' as int + 10
    else c as int - 'A' as int + 10
  }

  function Base(hex: bool): nat {
    if hex then 16 else 10
  }

  /** The number that a string of digits denotes, most significant first. */
  function DigitsValue(s: string, hex: bool): nat
    requires AllDigits(s, hex)
  {
    if s == [] then 0
    else DigitsValue(s[..|s| - 1], hex) * Base(hex) + DigitValue(s[|s| - 1])
  }

  function DigitChar(d: nat): (c: char)
    requires d < 10
    ensures IsDecimalDigit(c) && DigitValue(c) == d
  {
    ('0' as int + d) as char
  }

  /**
   * `n.toString()` for a non-negative integer: its decimal digits, with no
   * leading zero unless `n` is 0.
   */
  function DecimalString(n: nat): (s: string)
    ensures |s| > 0 && AllDigits(s, false)
    ensures s[0] == '0' ==> n == 0
    ensures n < 10 <==> |s| == 1
  {
    if n < 10 then [DigitChar(n)] else DecimalString(n / 10) + [DigitChar(n % 10)]
  }

  /** Reading back the decimal digits of `n` gives `n`. */
  lemma {:induction false} DecimalStringValue(n: nat)
    ensures DigitsValue(DecimalString(n), false) == n
  {
    if n >= 10 {
      var s := DecimalString(n);
      assert s[..|s| - 1] == DecimalString(n / 10);
      DecimalStringValue(n / 10);
    }
  }

  /** Different numbers have different decimal strings. */
  lemma DecimalStringInjective(m: nat, n: nat)
    requires DecimalString(m) == DecimalString(n)
    ensures m == n
  {
    DecimalStringValue(m);
    DecimalStringValue(n);
  }

  /** The longest prefix of `s` made of digits. */
  function DigitPrefix(s: string, hex: bool): (d: string)
    ensures d <= s && AllDigits(d, hex)
    ensures |d| < |s| ==> !IsDigit(s[|d|], hex)
  {
    if s == [] || !IsDigit(s[0], hex) then [] else [s[0]] + DigitPrefix(s[1..], hex)
  }

  // ---------------------------------------------------------------------------
  // parseInt

  /** The WhiteSpace and LineTerminator code points that `parseInt` skips. */
  predicate IsJsWhitespace(c: char) {
    var n := c as int;
    (0x09 <= n <= 0x0D) || n == 0x20 || n == 0xA0 || n == 0x1680 || (0x2000 <= n <= 0x200A)
    || n == 0x2028 || n == 0x2029 || n == 0x202F || n == 0x205F || n == 0x3000 || n == 0xFEFF
  }

  function TrimStart(s: string): (t: string)
    ensures |t| <= |s| && t == s[|s| - |t|..]
    ensures t != [] ==> !IsJsWhitespace(t[0])
    ensures (forall i :: 0 <= i < |s| - |t| ==> IsJsWhitespace(s[i]))
  {
    if s != [] && IsJsWhitespace(s[0]) then TrimStart(s[1..]) else s
  }

  /**
   * `parseInt(s)` (radix Auto) or `parseInt(s, 10)` (radix Decimal): skip
   * leading white space, take an optional sign, with radix Auto a "0x" or
   * "0X" prefix switches to base 16, then read the longest run of digits.
   * None stands for NaN (no digit at all). The result is exact; the double
   * rounding of numbers beyond 2^53 is not modelled.
   */
  function ParseInt(s: string, radix: Radix): (r: Option<int>)
  {
    var t := TrimStart(s);
    var negative := t != [] && t[0] == '-';
    var unsigned := if t != [] && (t[0] == '-' || t[0] == '+') then t[1..] else t;
    var hex := radix == Auto && |unsigned| >= 2 && unsigned[0] == '0'
               && (unsigned[1] == 'x' || unsigned[1] == 'X');
    var body := if hex then unsigned[2..] else unsigned;
    var digits := DigitPrefix(body, hex);
    if digits == [] then None
    else Some(if negative then 0 - DigitsValue(digits, hex) else DigitsValue(digits, hex))
  }

  /** A non-empty decimal digit string parses, base 10, to the number it denotes. */
  lemma ParseIntDigits(d: string, radix: Radix)
    requires d != [] && AllDigits(d, false)
    ensures ParseInt(d, radix) == Some(DigitsValue(d, false))
  {
    assert IsDecimalDigit(d[0]);
    assert !IsJsWhitespace(d[0]);
    assert TrimStart(d) == d;
    assert d[0] != '-' && d[0] != '+';
    assert |d| >= 2 ==> IsDecimalDigit(d[1]);
    DigitPrefixWhole(d, false);
  }

  lemma {:induction false} DigitPrefixWhole(d: string, hex: bool)
    requires AllDigits(d, hex)
    ensures DigitPrefix(d, hex) == d
  {
    if d != [] {
      DigitPrefixWhole(d[1..], hex);
    }
  }

  /** `parseInt` reads back what `toString` writes, with either radix. */
  lemma ParseIntDecimalString(n: nat, radix: Radix)
    ensures ParseInt(DecimalString(n), radix) == Some(n)
  {
    ParseIntDigits(DecimalString(n), radix);
    DecimalStringValue(n);
  }

  // ---------------------------------------------------------------------------
  // 32-bit integers

  const TwoTo31: int := 0x8000_0000
  const TwoTo32: int := 0x1_0000_0000

  /**
   * ECMAScript ToInt32 on an integer: the unique value in [-2^31, 2^31) that
   * is congruent to `x` modulo 2^32.
   */
  function ToInt32(x: int): (r: int)
    ensures -TwoTo31 <= r < TwoTo31
    ensures (x - r) % TwoTo32 == 0
  {
    (x + TwoTo31) % TwoTo32 - TwoTo31
  }

  // ---------------------------------------------------------------------------
  // UTF-16

  /** The UTF-16 code units of `s`, which are what `charCodeAt` returns. */
  function CodeUnits(s: string): (u: seq<int>)
    ensures |u| >= |s|
    ensures forall k :: 0 <= k < |u| ==> 0 <= u[k] < 0x1_0000
  {
    if s == [] then []
    else
      var c := s[0] as int;
      var first := if c < 0x1_0000 then [c]
                   else [0xD800 + (c - 0x1_0000) / 0x400, 0xDC00 + (c - 0x1_0000) % 0x400];
      first + CodeUnits(s[1..])
  }

  /** Inside the Basic Multilingual Plane there is one code unit per character. */
  lemma {:induction false} CodeUnitsBmp(s: string)
    requires forall i :: 0 <= i < |s| ==> s[i] as int < 0x1_0000
    ensures |CodeUnits(s)| == |s|
    ensures forall i :: 0 <= i < |s| ==> CodeUnits(s)[i] == s[i] as int
  {
    if s != [] {
      CodeUnitsBmp(s[1..]);
    }
  }
}
