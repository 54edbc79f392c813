/** Decimal numerals as Python writes and reads them: `str(n)` for integers, `int(s)` for
    strings, and the tuple rendering `(a, b)` used in the reports. */
module Numerals {
  import opened Outcomes
  import opened Text

  predicate IsDigit(c: char) {
    '0' <= c <= '9'
  }

  function DigitChar(d: nat): (c: char)
    requires d < 10
    ensures IsDigit(c) && c as int - '0' as int == d
  {
    ('0' as int + d) as char
  }

  /** The decimal digits of `n`, without leading zeros. */
  function NatToString(n: nat): (r: string)
    ensures |r| >= 1 && (r[0] == '0' ==> n == 0)
    ensures forall i :: 0 <= i < |r| ==> IsDigit(r[i])
  {
    if n < 10 then [DigitChar(n)] else NatToString(n / 10) + [DigitChar(n % 10)]
  }

  /** Python's `str(n)` for an integer: a minus sign exactly for a negative number, then
      decimal digits without leading zeros. */
  function IntToString(n: int): (r: string)
    ensures |r| >= 1 && (r[0] == '-' <==> n < 0)
    ensures forall i :: (if n < 0 then 1 else 0) <= i < |r| ==> IsDigit(r[i])
    ensures n < 0 ==> |r| >= 2 && r[1] != '0'
    ensures n >= 0 && r[0] == '0' ==> r == "0"
  {
    if n < 0 then "-" + NatToString(-n) else NatToString(n)
  }

  /** The value of a string of decimal digits. */
  function DigitsValue(s: string): nat
    requires forall i :: 0 <= i < |s| ==> IsDigit(s[i])
  {
    if s == [] then 0
    else
      assert IsDigit(s[|s| - 1]);
      DigitsValue(s[..|s| - 1]) * 10 + (s[|s| - 1] as int - '0' as int)
  }

  lemma {:induction false} DigitsValueOfNatToString(n: nat)
    ensures DigitsValue(NatToString(n)) == n
  {
    if n >= 10 {
      var s := NatToString(n);
      assert s[..|s| - 1] == NatToString(n / 10);
      DigitsValueOfNatToString(n / 10);
    }
  }

  /** Digits with single underscores between them, as Python's `int()` accepts. */
  predicate DigitsWithUnderscores(t: string) {
    && |t| > 0
    && IsDigit(t[0])
    && IsDigit(t[|t| - 1])
    && DigitsOrUnderscores(t)
    && forall i :: 0 <= i < |t| - 1 && t[i] == '_' ==> IsDigit(t[i + 1])
  }

  predicate DigitsOrUnderscores(t: string) {
    forall i :: 0 <= i < |t| ==> IsDigit(t[i]) || t[i] == '_'
  }

  function RemoveUnderscores(t: string): (r: string)
    requires DigitsOrUnderscores(t)
    ensures forall i :: 0 <= i < |r| ==> IsDigit(r[i])
    ensures (forall i :: 0 <= i < |t| ==> IsDigit(t[i])) ==> r == t
  {
    if t == [] then [] else (if t[0] == '_' then [] else [t[0]]) + RemoveUnderscores(t[1..])
  }

  /** The most decimal digits `int()` and `str()` convert: CPython's default
      `sys.get_int_max_str_digits()`, in force since Python 3.11 (and 3.10.7, 3.9.14). */
  const MaxStrDigits := 4300

  function UnsignedValue(t: string): nat
    requires DigitsWithUnderscores(t)
  {
    DigitsValue(RemoveUnderscores(t))
  }

  /** Digits with single underscores between them, at most `MaxStrDigits` of them not
      counting the underscores. */
  predicate WellFormedDigits(t: string) {
    DigitsWithUnderscores(t) && |RemoveUnderscores(t)| <= MaxStrDigits
  }

  /** The digits part of `int(s)`: digits with single underscores between them, at most
      `MaxStrDigits` of them not counting the underscores. */
  function ReadDigits(t: string): (r: Result<nat>)
    ensures r.Raise? ==> r.error == ValueError
    ensures r.Ok? <==> WellFormedDigits(t)
  {
    if WellFormedDigits(t) then Ok(UnsignedValue(t))
    else Raise(ValueError)
  }

  /** Python's `int(s)` for a decimal string: surrounding whitespace, an optional sign, and
      the digits `ReadDigits` accepts; anything else is a `ValueError`. */
  function ParseInt(s: string): (r: Result<int>)
    ensures r.Raise? ==> r.error == ValueError
  {
    var t := Strip(s);
    if |t| > 0 && (t[0] == '-' || t[0] == '+') then
      match ReadDigits(t[1..])
      case Raise(e) => Raise(e)
      case Ok(v) => Ok(if t[0] == '-' then -(v as int) else v)
    else ReadDigits(t)
  }

  /** The number of decimal digits of `n`, sign not counted. */
  function DigitCount(n: int): nat {
    |NatToString(if n < 0 then -n else n)|
  }

  /** `int(str(n)) == n` for every `n` that `str()` converts. */
  lemma ParseIntOfIntToString(n: int)
    requires DigitCount(n) <= MaxStrDigits
    ensures ParseInt(IntToString(n)) == Ok(n)
  {
    var m: nat := if n < 0 then -n else n;
    var d := NatToString(m);
    NumeralValue(m);
    assert |RemoveUnderscores(d)| <= MaxStrDigits;
    if n < 0 {
      assert IntToString(n) == "-" + d;
      ParseNegative(d);
    } else {
      assert IntToString(n) == d;
      ParseUnsigned(d);
    }
  }

  /** More digits than the limit, with or without a sign, make `int()` raise `ValueError`. */
  lemma ParseIntRejectsLong(d: string)
    requires DigitsWithUnderscores(d) && |RemoveUnderscores(d)| > MaxStrDigits
    ensures ParseInt(d) == Raise(ValueError)
    ensures ParseInt("-" + d) == Raise(ValueError)
    ensures ParseInt("+" + d) == Raise(ValueError)
  {
    assert ParseInt(d) == Raise(ValueError) by {
      UnsignedRejectsLong(d);
    }
    assert ParseInt("-" + d) == Raise(ValueError) by {
      SignedRejectsLong('-', d);
      assert "-" + d == ['-'] + d;
    }
    assert ParseInt("+" + d) == Raise(ValueError) by {
      SignedRejectsLong('+', d);
      assert "+" + d == ['+'] + d;
    }
  }

  lemma UnsignedRejectsLong(d: string)
    requires DigitsWithUnderscores(d) && |RemoveUnderscores(d)| > MaxStrDigits
    ensures ParseInt(d) == Raise(ValueError)
  {
    UnsignedDigits(d);
    assert ReadDigits(d) == Raise(ValueError);
  }

  lemma SignedRejectsLong(sign: char, d: string)
    requires sign == '-' || sign == '+'
    requires DigitsWithUnderscores(d) && |RemoveUnderscores(d)| > MaxStrDigits
    ensures ParseInt([sign] + d) == Raise(ValueError)
  {
    SignThenDigits(sign, d);
    assert ReadDigits(d) == Raise(ValueError);
  }

  function Pow10(k: nat): (r: nat)
    ensures r >= 1
  {
    if k == 0 then 1 else 10 * Pow10(k - 1)
  }

  /** `n` has at most `k` digits exactly when `|n| < 10^k`; with `k` = `MaxStrDigits` this is
      the range `str()` converts. */
  lemma {:induction false} DigitCountBelow(n: int, k: nat)
    requires k >= 1
    ensures DigitCount(n) <= k <==> (if n < 0 then -n else n) < Pow10(k)
  {
    var m: nat := if n < 0 then -n else n;
    NatDigitsBelow(m, k);
  }

  lemma {:induction false} NatDigitsBelow(m: nat, k: nat)
    requires k >= 1
    ensures |NatToString(m)| <= k <==> m < Pow10(k)
    decreases m
  {
    if m >= 10 {
      assert |NatToString(m)| == |NatToString(m / 10)| + 1;
      if k == 1 {
        assert Pow10(1) == 10;
      } else {
        NatDigitsBelow(m / 10, k - 1);
        assert m / 10 < Pow10(k - 1) <==> m < 10 * Pow10(k - 1);
      }
    } else {
      assert Pow10(k) == 10 * Pow10(k - 1);
    }
  }

  /** A minus sign followed by well-formed digits reads as the negated value. */
  lemma ParseNegative(d: string)
    requires DigitsWithUnderscores(d)
    requires |RemoveUnderscores(d)| <= MaxStrDigits
    ensures ParseInt("-" + d) == Ok(-(UnsignedValue(d) as int))
  {
    SignedAccepts('-', d);
    assert "-" + d == ['-'] + d;
  }

  lemma SignedAccepts(sign: char, d: string)
    requires sign == '-' || sign == '+'
    requires DigitsWithUnderscores(d) && |RemoveUnderscores(d)| <= MaxStrDigits
    ensures ParseInt([sign] + d) == Ok(if sign == '-' then -(UnsignedValue(d) as int) else UnsignedValue(d))
  {
    SignThenDigits(sign, d);
    assert ReadDigits(d) == Ok(UnsignedValue(d));
  }

  /** Digits survive `strip()` and do not start with a sign. */
  lemma UnsignedDigits(d: string)
    requires DigitsWithUnderscores(d)
    ensures Strip(d) == d && d[0] != '-' && d[0] != '+'
  {
    StripUnchanged(d);
    assert IsDigit(d[0]);
  }

  /** A sign in front of digits survives `strip()`, and the digits follow it. */
  lemma SignThenDigits(sign: char, d: string)
    requires sign == '-' || sign == '+'
    requires DigitsWithUnderscores(d)
    ensures Strip([sign] + d) == [sign] + d
    ensures ([sign] + d)[0] == sign && ([sign] + d)[1..] == d
  {
    var s := [sign] + d;
    assert s[0] == sign && s[|s| - 1] == d[|d| - 1];
    StripUnchanged(s);
    assert s[1..] == d;
  }

  /** Well-formed digits without a sign read as their value. */
  lemma ParseUnsigned(d: string)
    requires DigitsWithUnderscores(d)
    requires |RemoveUnderscores(d)| <= MaxStrDigits
    ensures ParseInt(d) == Ok(UnsignedValue(d))
  {
    UnsignedDigits(d);
    assert ReadDigits(d) == Ok(UnsignedValue(d));
  }

  /** The digits of `str(m)` are well formed and denote `m`. */
  lemma NumeralValue(m: nat)
    ensures DigitsWithUnderscores(NatToString(m))
    ensures UnsignedValue(NatToString(m)) == m
    ensures RemoveUnderscores(NatToString(m)) == NatToString(m)
  {
    var d := NatToString(m);
    DigitsValueOfNatToString(m);
    assert RemoveUnderscores(d) == d;
  }

  /** Python's `str((a, b))` for a pair of integers. */
  function PairToString(a: int, b: int): string {
    "(" + IntToString(a) + ", " + IntToString(b) + ")"
  }
}
