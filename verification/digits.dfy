/** `Number.prototype.toString()` on non-negative integers: plain decimal
    digits, no sign, no padding, no leading zero. */
module Digits {
  import opened Text

  /** The code unit of '0'. */
  const Zero: CodeUnit := 48

  predicate IsDigit(u: CodeUnit) {
    Zero <= u <= Zero + 9
  }

  predicate AllDigits(s: Str) {
    forall i :: 0 <= i < |s| ==> IsDigit(s[i])
  }

  /** A decimal numeral as `toString` writes one: at least one digit, and a
      leading '0' only in the numeral "0" itself. */
  predicate Canonical(s: Str) {
    && |s| >= 1
    && AllDigits(s)
    && (s[0] == Zero ==> |s| == 1)
  }

  /** The value of a string of decimal digits, most significant first. */
  function Value(s: Str): nat
    requires AllDigits(s)
  {
    if s == [] then 0 else Value(s[..|s| - 1]) * 10 + (s[|s| - 1] - Zero)
  }

  /** The decimal numeral of `n`. It is canonical, reads back as `n`, and has
      a single digit exactly when `n` is below ten. */
  function ToDecimal(n: nat): (r: Str)
    ensures Canonical(r)
    ensures Value(r) == n
    ensures |r| == 1 <==> n < 10
    decreases n
  {
    if n < 10 then
      [Zero + n]
    else
      var p := ToDecimal(n / 10);
      var r := p + [Zero + n % 10];
      assert r[..|r| - 1] == p;
      assert r[0] == p[0];
      r
  }

  /** A canonical numeral that does not start with '0' denotes a positive number. */
  lemma {:induction false} LeadingDigitPositive(s: Str)
    requires Canonical(s) && s[0] != Zero
    ensures Value(s) >= 1
    decreases |s|
  {
    if |s| > 1 {
      var p := s[..|s| - 1];
      assert p[0] == s[0];
      LeadingDigitPositive(p);
    }
  }

  /** Printing what was parsed gives back the canonical numeral: `ToDecimal`
      is a bijection between the naturals and the canonical numerals. */
  lemma {:induction false} ValueThenDecimal(s: Str)
    requires Canonical(s)
    ensures ToDecimal(Value(s)) == s
    decreases |s|
  {
    if |s| > 1 {
      var p := s[..|s| - 1];
      assert p[0] == s[0];
      LeadingDigitPositive(p);
      ValueThenDecimal(p);
      var n := Value(s);
      assert n / 10 == Value(p) && n % 10 == s[|s| - 1] - Zero;
      assert s == p + [s[|s| - 1]];
    }
  }
}
