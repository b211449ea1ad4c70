/**
 * The two number/string conversions of JavaScript that the OTP flow relies on:
 * `parseInt(s, 10)`, with which the server compares codes, and `String(n)` for
 * a natural number, with which the client renders its countdown.
 */
module JsNumbers {
  import opened Wrappers

  predicate IsDigit(c: char) {
    '0' <= c <= '9'
  }

  predicate IsDigits(s: string) {
    forall i :: 0 <= i < |s| ==> IsDigit(s[i])
  }

  function DigitValue(c: char): (d: nat)
    requires IsDigit(c)
    ensures d < 10
  {
    c as int - '0' as int
  }

  function DigitChar(d: nat): (c: char)
    requires d < 10
    ensures IsDigit(c) && DigitValue(c) == d
  {
    ('0' as int + d) as char
  }

  /** The value of a string of decimal digits, most significant digit first. */
  function DecimalValue(s: string): nat
    requires IsDigits(s)
  {
    if s == [] then 0 else 10 * DecimalValue(s[..|s| - 1]) + DigitValue(s[|s| - 1])
  }

  /** `String(n)` for a natural number: decimal digits without leading zeros. */
  function DecimalString(n: nat): (s: string)
    ensures IsDigits(s) && 1 <= |s|
    ensures DecimalValue(s) == n
    ensures s[0] == '0' <==> n == 0
  {
    if n < 10 then [DigitChar(n)]
    else
      var high := DecimalString(n / 10);
      assert (high + [DigitChar(n % 10)])[..|high|] == high;
      high + [DigitChar(n % 10)]
  }

  /**
   * The characters `parseInt` skips before the number: the WhiteSpace and
   * LineTerminator code points of ECMA-262 (section 12.2 and 12.3), the
   * category Zs spaces included.
   */
  predicate IsJsWhiteSpace(c: char)
    ensures IsJsWhiteSpace(c) ==> !IsDigit(c) && c != '-' && c != '+'
  {
    var n := c as int;
    n == 0x09 || n == 0x0A || n == 0x0B || n == 0x0C || n == 0x0D || n == 0x20 ||
    n == 0xA0 || n == 0x1680 || (0x2000 <= n <= 0x200A) || n == 0x2028 || n == 0x2029 ||
    n == 0x202F || n == 0x205F || n == 0x3000 || n == 0xFEFF
  }

  /** The input without its leading white space. */
  function TrimStart(s: string): (r: string)
    ensures |r| <= |s|
    ensures r == [] || !IsJsWhiteSpace(r[0])
  {
    if s != [] && IsJsWhiteSpace(s[0]) then TrimStart(s[1..]) else s
  }

  /** The longest prefix of `s` made of decimal digits. */
  function LeadingDigits(s: string): (r: string)
    ensures IsDigits(r) && |r| <= |s|
    ensures r == [] <==> s == [] || !IsDigit(s[0])
  {
    if s != [] && IsDigit(s[0]) then [s[0]] + LeadingDigits(s[1..]) else []
  }

  /** LeadingDigits is the longest prefix made of digits. */
  lemma {:induction false} LeadingDigitsIsLongestDigitPrefix(s: string)
    ensures LeadingDigits(s) <= s
    ensures |LeadingDigits(s)| < |s| ==> !IsDigit(s[|LeadingDigits(s)|])
  {
    if s != [] && IsDigit(s[0]) {
      LeadingDigitsIsLongestDigitPrefix(s[1..]);
    }
  }

  /** TrimStart drops a prefix of white space and stops at the first other character. */
  lemma {:induction false} TrimStartDropsWhiteSpace(s: string)
    ensures |TrimStart(s)| <= |s| && TrimStart(s) == s[|s| - |TrimStart(s)|..]
    ensures forall i :: 0 <= i < |s| - |TrimStart(s)| ==> IsJsWhiteSpace(s[i])
    ensures TrimStart(s) == [] || !IsJsWhiteSpace(TrimStart(s)[0])
  {
    if s != [] && IsJsWhiteSpace(s[0]) {
      TrimStartDropsWhiteSpace(s[1..]);
      forall i | 1 <= i < |s| - |TrimStart(s)| ensures IsJsWhiteSpace(s[i]) {
        assert s[i] == s[1..][i - 1];
      }
    }
  }

  /**
   * `parseInt(s, 10)`: skip leading white space, take an optional sign, then
   * the longest run of digits; no digits at all gives NaN, here `None`.
   * (NaN is unequal to everything, itself included, so `None` never matches.)
   */
  function ParseInt(s: string): (r: Option<int>)
    ensures var t := TrimStart(s);
      r.None? <==> t == [] || (!IsDigit(t[0]) && !((t[0] == '-' || t[0] == '+') && |t| > 1 && IsDigit(t[1])))
    ensures r.Some? && r.value < 0 ==> TrimStart(s)[0] == '-'
  {
    var t := TrimStart(s);
    var negative := t != [] && t[0] == '-';
    var unsigned := if t != [] && (t[0] == '-' || t[0] == '+') then t[1..] else t;
    var digits := LeadingDigits(unsigned);
    var magnitude: int := DecimalValue(digits);
    if digits == [] then None else Some(if negative then -magnitude else magnitude)
  }

  lemma {:induction false} LeadingDigitsOfDigits(s: string)
    requires IsDigits(s)
    ensures LeadingDigits(s) == s
  {
    if s != [] {
      LeadingDigitsOfDigits(s[1..]);
    }
  }

  /** A non-empty digit string parses to its decimal value. */
  lemma ParseIntOfDigits(s: string)
    requires IsDigits(s) && s != []
    ensures ParseInt(s) == Some(DecimalValue(s))
  {
    assert !IsJsWhiteSpace(s[0]) && s[0] != '-' && s[0] != '+';
    assert TrimStart(s) == s;
    LeadingDigitsOfDigits(s);
  }

  /** Leading zeros do not change the decimal value. */
  lemma {:induction false} DecimalValueLeadingZero(s: string)
    requires IsDigits(s)
    ensures IsDigits("0" + s) && DecimalValue("0" + s) == DecimalValue(s)
  {
    if s != [] {
      var init := s[..|s| - 1];
      assert ("0" + s)[..|s|] == "0" + init;
      DecimalValueLeadingZero(init);
    }
  }

  predicate IsZeros(z: string) {
    forall i :: 0 <= i < |z| ==> z[i] == '0'
  }

  /** Any run of leading zeros leaves the decimal value unchanged. */
  lemma {:induction false} DecimalValueLeadingZeros(zeros: string, s: string)
    requires IsZeros(zeros) && IsDigits(s)
    ensures IsDigits(zeros + s) && DecimalValue(zeros + s) == DecimalValue(s)
  {
    if zeros != [] {
      DecimalValueLeadingZeros(zeros[1..], s);
      assert zeros + s == "0" + (zeros[1..] + s);
      DecimalValueLeadingZero(zeros[1..] + s);
    } else {
      assert zeros + s == s;
    }
  }

  /** Two digit strings of the same length with the same value are the same string. */
  lemma {:induction false} DecimalValueInjective(s: string, t: string)
    requires IsDigits(s) && IsDigits(t) && |s| == |t|
    requires DecimalValue(s) == DecimalValue(t)
    ensures s == t
  {
    if s != [] {
      var n := |s| - 1;
      var a, b := DecimalValue(s[..n]), DecimalValue(t[..n]);
      var c, d := DigitValue(s[n]), DigitValue(t[n]);
      assert 10 * a + c == 10 * b + d;
      assert c == d && a == b by {
        assert (10 * a + c) % 10 == c && (10 * a + c) / 10 == a;
        assert (10 * b + d) % 10 == d && (10 * b + d) / 10 == b;
      }
      DecimalValueInjective(s[..n], t[..n]);
      assert s == s[..n] + [s[n]] && t == t[..n] + [t[n]];
    }
  }

  /** String(n) and parseInt are inverse on the natural numbers. */
  lemma ParseIntDecimalString(n: nat)
    ensures ParseInt(DecimalString(n)) == Some(n)
  {
    ParseIntOfDigits(DecimalString(n));
  }

  /** What follows the digits does not matter: `parseInt("12abc") == 12`. */
  lemma {:induction false} ParseIntIgnoresTrailer(digits: string, trailer: string)
    requires IsDigits(digits) && digits != []
    requires trailer == [] || !IsDigit(trailer[0])
    ensures ParseInt(digits + trailer) == Some(DecimalValue(digits))
  {
    var s := digits + trailer;
    assert s[0] == digits[0];
    assert !IsJsWhiteSpace(s[0]) && s[0] != '-' && s[0] != '+';
    assert TrimStart(s) == s;
    LeadingDigitsAppend(digits, trailer);
  }

  lemma {:induction false} LeadingDigitsAppend(digits: string, trailer: string)
    requires IsDigits(digits)
    requires trailer == [] || !IsDigit(trailer[0])
    ensures LeadingDigits(digits + trailer) == digits
  {
    if digits != [] {
      assert (digits + trailer)[1..] == digits[1..] + trailer;
      LeadingDigitsAppend(digits[1..], trailer);
    }
  }
}
