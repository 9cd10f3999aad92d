/**
 The decimal conversions both tools rely on: `atoi` (leading white space, an
 optional sign, then the longest run of digits; anything after is ignored) and
 `printf("%d")`. Integers are unbounded here: the overflow behaviour of `atoi`
 is undefined in C and is not modelled.
 */
module Decimal {
  import opened Text

  function DigitValue(c: char): nat
    requires IsDigit(c)
  {
    c as int - '0' as int
  }

  function DigitChar(d: nat): (c: char)
    requires d < 10
    ensures IsDigit(c) && DigitValue(c) == d
  {
    ('0' as int + d) as char
  }

  predicate AllDigits(s: string) {
    forall k :: 0 <= k < |s| ==> IsDigit(s[k])
  }

  /** The value of a run of decimal digits, most significant first. */
  function DigitsValue(s: string): nat
    requires AllDigits(s)
  {
    if |s| == 0 then 0 else DigitsValue(s[..|s| - 1]) * 10 + DigitValue(s[|s| - 1])
  }

  /** The longest prefix of `s` made of digits. */
  function DigitPrefix(s: string): (p: string)
    ensures AllDigits(p) && StartsWith(s, p)
    ensures |p| < |s| ==> !IsDigit(s[|p|])
  {
    if |s| == 0 || !IsDigit(s[0]) then [] else [s[0]] + DigitPrefix(s[1..])
  }

  /** `s` with its leading white space removed. */
  function SkipSpaces(s: string): (t: string)
    ensures |t| <= |s| && t == s[|s| - |t|..]
    ensures |t| > 0 ==> !IsSpace(t[0])
  {
    if |s| > 0 && IsSpace(s[0]) then SkipSpaces(s[1..]) else s
  }

  /** `atoi(s)`. */
  function Atoi(s: string): int {
    var t := SkipSpaces(s);
    if |t| > 0 && t[0] == '-' then 0 - DigitsValue(DigitPrefix(t[1..]))
    else if |t| > 0 && t[0] == '+' then DigitsValue(DigitPrefix(t[1..]))
    else DigitsValue(DigitPrefix(t))
  }

  /** The digits of `n` with no leading zero (a single "0" for zero). */
  function NatDigits(n: nat): (s: string)
    ensures |s| > 0 && AllDigits(s)
    decreases n
  {
    if n < 10 then [DigitChar(n)] else NatDigits(n / 10) + [DigitChar(n % 10)]
  }

  /** `printf("%d", n)`. */
  function FormatDecimal(n: int): string {
    if n < 0 then "-" + NatDigits(-n) else NatDigits(n)
  }

  lemma {:induction false} NatDigitsValue(n: nat)
    ensures DigitsValue(NatDigits(n)) == n
    decreases n
  {
    var s := NatDigits(n);
    if n >= 10 {
      NatDigitsValue(n / 10);
      assert s[..|s| - 1] == NatDigits(n / 10);
    }
  }

  lemma {:induction false} DigitPrefixOfDigits(s: string)
    requires AllDigits(s)
    ensures DigitPrefix(s) == s
  {
    if |s| > 0 {
      DigitPrefixOfDigits(s[1..]);
    }
  }

  /**
   Reading back what `printf("%d")` printed gives the number again: a default
   passed to the XML lookup as `CPLSPrintf("%d", n)` and read with `atoi`
   comes back as `n`.
   */
  lemma AtoiFormatDecimal(n: int)
    ensures Atoi(FormatDecimal(n)) == n
  {
    var m: nat := if n < 0 then -n else n;
    var d := NatDigits(m);
    NatDigitsValue(m);
    DigitPrefixOfDigits(d);
    var f := FormatDecimal(n);
    assert !IsSpace(f[0]);
    assert SkipSpaces(f) == f;
    if n < 0 {
      assert f[1..] == d;
    } else {
      assert f == d && f[0] != '-' && f[0] != '+';
    }
  }

  /**
   `atoi(CPLGetXMLValue(n, key, CPLSPrintf("%d", default)))`, the way both
   tools read an integer setting: the setting's value when present, otherwise
   the default.
   */
  function IntValueOr(n: XmlNode, key: string, default: int): (r: int)
    ensures Value(n, key).None? ==> r == default
    ensures Value(n, key).Some? ==> r == Atoi(Value(n, key).value)
  {
    AtoiFormatDecimal(default);
    Atoi(ValueOr(n, key, FormatDecimal(default)))
  }
}
