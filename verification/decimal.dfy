/** Decimal text for integers and JavaScript's `parseInt`.

    The gallery writes a card's index into markup with a template literal
    (`${index}`, the decimal text of a non-negative integer) and reads it back
    with `parseInt(attribute)` called without a radix. This module models
    both directions over unbounded integers; `None` plays the role of `NaN`. */
module Decimal {
  import opened Wrappers

  predicate IsDecimalDigit(c: char) { '0' <= c <= '9' }

  predicate IsAlphanumeric(c: char) {
    '0' <= c <= '9' || 'a' <= c <= 'z' || 'A' <= c <= 'Z'
  }

  /** Value of a digit in the radix-36 alphabet `0-9`, `a-z`/`A-Z`. */
  function DigitValue(c: char): (v: nat)
    requires IsAlphanumeric(c)
    ensures v < 36
    ensures v < 10 <==> IsDecimalDigit(c)
  {
    if '0' <= c <= '9' then c as int - '0' as int
    else if 'a' <= c <= 'z' then c as int - 'a' as int + 10
    else c as int - 'A' as int + 10
  }

  predicate IsRadixDigit(c: char, radix: nat) {
    IsAlphanumeric(c) && DigitValue(c) < radix
  }

  predicate AllDigits(s: string, radix: nat) {
    forall i :: 0 <= i < |s| ==> IsRadixDigit(s[i], radix)
  }

  /** The decimal digit character for `d`. */
  function DigitChar(d: nat): (c: char)
    requires d < 10
    ensures IsDecimalDigit(c) && DigitValue(c) == d
  {
    (('0' as int) + d) as char
  }

  /** `${n}` for a non-negative integer: its shortest decimal text. */
  function NatToDecimal(n: nat): (r: string)
    ensures |r| >= 1
    ensures AllDigits(r, 10)
    ensures |r| > 1 ==> r[0] != '0'
  {
    if n < 10 then [DigitChar(n)]
    else NatToDecimal(n / 10) + [DigitChar(n % 10)]
  }

  /** `${z}` for any integer: a minus sign precedes the magnitude. */
  function IntToDecimal(z: int): (r: string)
    ensures |r| >= 1
    ensures z >= 0 ==> AllDigits(r, 10)
    ensures z < 0 ==> r[0] == '-' && AllDigits(r[1..], 10)
    ensures r[0] == '-' <==> z < 0
  {
    if z < 0 then "-" + NatToDecimal(-z) else NatToDecimal(z)
  }

  /** The value of a digit string in the given radix, most significant first. */
  function DigitsValue(z: string, radix: nat): nat
    requires AllDigits(z, radix)
  {
    if |z| == 0 then 0
    else DigitsValue(z[..|z| - 1], radix) * radix + DigitValue(z[|z| - 1])
  }

  /** Length of the longest prefix of `s` made of radix digits. */
  function DigitPrefix(s: string, radix: nat): (n: nat)
    ensures n <= |s|
    ensures AllDigits(s[..n], radix)
    ensures n < |s| ==> !IsRadixDigit(s[n], radix)
  {
    if |s| == 0 || !IsRadixDigit(s[0], radix) then 0
    else 1 + DigitPrefix(s[1..], radix)
  }

  /** ECMAScript WhiteSpace and LineTerminator code points: TAB, VT, FF, SP,
      NBSP, ZWNBSP, the Zs space separators, LF, CR, LS and PS. */
  predicate IsJsWhiteSpace(c: char) {
    || c == '\t' || c == '\U{000B}' || c == '\U{000C}' || c == ' '
    || c == '\U{00A0}' || c == '\U{FEFF}' || c == '\U{1680}'
    || ('\U{2000}' <= c <= '\U{200A}')
    || c == '\U{202F}' || c == '\U{205F}' || c == '\U{3000}'
    || c == '\n' || c == '\r' || c == '\U{2028}' || c == '\U{2029}'
  }

  /** Drops the leading white space of `s` (TrimString with `start`). */
  function TrimStart(s: string): (t: string)
    ensures |t| <= |s| && t == s[|s| - |t|..]
    ensures forall i :: 0 <= i < |s| - |t| ==> IsJsWhiteSpace(s[i])
    ensures |t| > 0 ==> !IsJsWhiteSpace(t[0])
  {
    if |s| > 0 && IsJsWhiteSpace(s[0]) then TrimStart(s[1..]) else s
  }

  /** A `0x` or `0X` prefix, which switches `parseInt` to radix 16. */
  predicate HasHexPrefix(u: string) {
    |u| >= 2 && u[0] == '0' && (u[1] == 'x' || u[1] == 'X')
  }

  /** The value of the longest run of radix digits at the start of `digits`,
      or `None` when it does not begin with a digit. */
  function ReadDigits(digits: string, radix: nat): (r: Option<nat>)
    ensures r.Some? <==> |digits| > 0 && IsRadixDigit(digits[0], radix)
  {
    var end := DigitPrefix(digits, radix);
    if end == 0 then None else Some(DigitsValue(digits[..end], radix))
  }

  /** The unsigned part of `parseInt`: radix 16 after a `0x`/`0X` prefix,
      radix 10 otherwise, then the value of the longest run of digits, or
      `None` when there is no digit at all. */
  function ParseMagnitude(u: string): (r: Option<nat>)
    ensures r.Some? ==> |u| > 0 && IsDecimalDigit(u[0])
  {
    if HasHexPrefix(u) then ReadDigits(u[2..], 16) else ReadDigits(u, 10)
  }

  /** A string that begins with a decimal digit or a sign. */
  predicate StartsNumber(s: string) {
    |s| > 0 && (IsDecimalDigit(s[0]) || s[0] == '+' || s[0] == '-')
  }

  /** The signed number at the start of text that has no leading white
      space: an optional sign, then the magnitude. */
  function ParseSigned(s: string): (r: Option<int>)
    ensures r.Some? ==> StartsNumber(s)
    ensures r.Some? && r.value < 0 ==> s[0] == '-'
  {
    var negative := |s| > 0 && s[0] == '-';
    var unsigned := if |s| > 0 && (s[0] == '-' || s[0] == '+') then s[1..] else s;
    match ParseMagnitude(unsigned)
    case None => None
    case Some(m) =>
      var value: int := if negative then -(m as int) else m;
      Some(value)
  }

  /** `parseInt(input)` with the radix left undefined (section 19.2.5 of
      ECMA-262): skip leading white space, read an optional sign, then read
      the magnitude; no digits at all gives `NaN`, here `None`. */
  function ParseInt(input: string): (r: Option<int>)
    ensures r.Some? ==> StartsNumber(TrimStart(input))
    ensures r.Some? && r.value < 0 ==> TrimStart(input)[0] == '-'
  {
    ParseSigned(TrimStart(input))
  }

  /** Reading the decimal text of `n` as digits gives back `n`. */
  lemma {:induction false} DigitsValueOfDecimal(n: nat)
    ensures DigitsValue(NatToDecimal(n), 10) == n
  {
    var s := NatToDecimal(n);
    if n < 10 {
      assert s[..0] == [];
    } else {
      var prefix := NatToDecimal(n / 10);
      assert s[..|s| - 1] == prefix;
      assert s[|s| - 1] == DigitChar(n % 10);
      DigitsValueOfDecimal(n / 10);
    }
  }

  /** A run of digits followed by a non-digit is exactly the digit prefix. */
  lemma {:induction false} DigitPrefixOfDigitsThen(s: string, tail: string, radix: nat)
    requires AllDigits(s, radix)
    requires |tail| == 0 || !IsRadixDigit(tail[0], radix)
    ensures DigitPrefix(s + tail, radix) == |s|
  {
    if |s| == 0 {
      assert s + tail == tail;
    } else {
      var u := s + tail;
      assert u[0] == s[0];
      assert u[1..] == s[1..] + tail;
      assert AllDigits(s[1..], radix) by {
        forall i | 0 <= i < |s[1..]|
          ensures IsRadixDigit(s[1..][i], radix)
        {
          assert s[1..][i] == s[i + 1];
        }
      }
      DigitPrefixOfDigitsThen(s[1..], tail, radix);
    }
  }

  /** A decimal digit run followed by a character that cannot continue a
      number is read as that run's value. */
  lemma MagnitudeOfDigitsThen(digits: string, tail: string)
    requires |digits| >= 1 && AllDigits(digits, 10)
    requires |tail| == 0 || !IsAlphanumeric(tail[0])
    ensures ParseMagnitude(digits + tail) == Some(DigitsValue(digits, 10))
  {
    var u := digits + tail;
    assert !HasHexPrefix(u) by {
      if |u| >= 2 {
        assert u[1] == (if |digits| >= 2 then digits[1] else tail[0]);
      }
    }
    assert ReadDigits(u, 10) == Some(DigitsValue(digits, 10)) by {
      DigitPrefixOfDigitsThen(digits, tail, 10);
      assert u[..|digits|] == digits;
    }
  }

  /** Text that does not begin with white space is left as it is. */
  lemma TrimStartKeeps(s: string)
    requires |s| > 0 && !IsJsWhiteSpace(s[0])
    ensures TrimStart(s) == s
  {
  }

  /** Text that begins with a letter is `NaN` to `parseInt`. */
  lemma ParseIntLetter(s: string)
    requires |s| > 0 && 'A' <= s[0] <= 'Z'
    ensures ParseInt(s) == None
  {
    assert !IsJsWhiteSpace(s[0]);
    TrimStartKeeps(s);
  }

  /** Text that begins with a digit is read as an unsigned magnitude. */
  lemma ParseIntUnsigned(u: string, m: nat)
    requires |u| > 0 && IsDecimalDigit(u[0])
    requires ParseMagnitude(u) == Some(m)
    ensures ParseInt(u) == Some(m)
  {
    assert !IsJsWhiteSpace(u[0]);
    TrimStartKeeps(u);
    assert ParseSigned(u) == Some(m);
  }

  /** A minus sign before a digit negates the magnitude that follows. */
  lemma ParseIntNegative(u: string, m: nat)
    requires |u| > 0 && IsDecimalDigit(u[0])
    requires ParseMagnitude(u) == Some(m)
    ensures ParseInt("-" + u) == Some(-(m as int))
  {
    var s := "-" + u;
    assert s[1..] == u;
    assert !IsJsWhiteSpace(s[0]);
    TrimStartKeeps(s);
  }

  /** `parseInt` reads back the decimal text of `n` and stops at the first
      character that cannot continue a number. */
  lemma ParseIntNatThen(n: nat, tail: string)
    requires |tail| == 0 || !IsAlphanumeric(tail[0])
    ensures ParseInt(NatToDecimal(n) + tail) == Some(n)
  {
    var digits := NatToDecimal(n);
    MagnitudeOfDigitsThen(digits, tail);
    DigitsValueOfDecimal(n);
    ParseIntUnsigned(digits + tail, n);
  }

  lemma AppendAssociative(a: string, b: string, c: string)
    ensures (a + b) + c == a + (b + c)
  {
  }

  /** A minus sign before the decimal text of `n` is read as `-n`. */
  lemma ParseIntNatNegated(n: nat, tail: string)
    requires |tail| == 0 || !IsAlphanumeric(tail[0])
    ensures ParseInt(("-" + NatToDecimal(n)) + tail) == Some(-(n as int))
  {
    var digits := NatToDecimal(n);
    MagnitudeOfDigitsThen(digits, tail);
    DigitsValueOfDecimal(n);
    ParseIntNegative(digits + tail, n);
    AppendAssociative("-", digits, tail);
  }

  /** `parseInt` reads back the `${z}` text of a negative integer. */
  lemma ParseIntNegativeThen(z: int, tail: string)
    requires z < 0
    requires |tail| == 0 || !IsAlphanumeric(tail[0])
    ensures ParseInt(IntToDecimal(z) + tail) == Some(z)
  {
    ParseIntNatNegated(-z, tail);
  }

  /** `parseInt` reads back the `${z}` text of any integer, negative ones
      included, and stops at the first character that cannot continue it. */
  lemma ParseIntIntThen(z: int, tail: string)
    requires |tail| == 0 || !IsAlphanumeric(tail[0])
    ensures ParseInt(IntToDecimal(z) + tail) == Some(z)
  {
    if z >= 0 {
      ParseIntNatThen(z, tail);
    } else {
      ParseIntNegativeThen(z, tail);
    }
  }

  /** `parseInt` inverts `${n}` for every non-negative integer. */
  lemma ParseIntNatRoundTrip(n: nat)
    ensures ParseInt(NatToDecimal(n)) == Some(n)
  {
    ParseIntNatThen(n, "");
    assert NatToDecimal(n) + "" == NatToDecimal(n);
  }

  /** `parseInt` inverts `${z}` for every integer, negative ones included. */
  lemma ParseIntIntRoundTrip(z: int)
    ensures ParseInt(IntToDecimal(z)) == Some(z)
  {
    ParseIntIntThen(z, "");
    assert IntToDecimal(z) + "" == IntToDecimal(z);
  }

  /** Distinct non-negative integers have distinct decimal texts. */
  lemma NatToDecimalInjective(a: nat, b: nat)
    ensures NatToDecimal(a) == NatToDecimal(b) ==> a == b
  {
    ParseIntNatRoundTrip(a);
    ParseIntNatRoundTrip(b);
  }
}
