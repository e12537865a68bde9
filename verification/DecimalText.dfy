/** Decimal digits, the numbers they write, and powers of ten. */
module DecimalText {

  predicate Digit(c: char) { '0' <= c <= '9' }

  predicate AllDigits(s: string) { forall i :: 0 <= i < |s| ==> Digit(s[i]) }

  function DigitsValue(s: string): nat
    requires AllDigits(s)
  {
    if s == "" then 0 else 10 * DigitsValue(s[..|s| - 1]) + (s[|s| - 1] as int - '0' as int)
  }

  // The shortest digits of a number.
  function Decimal(n: nat): (s: string)
    ensures s != "" && AllDigits(s) && DigitsValue(s) == n
    ensures |s| > 1 ==> s[0] != '0'
  {
    var last := [('0' as int + n % 10) as char];
    if n < 10 then last
    else
      var s := Decimal(n / 10) + last;
      assert s[..|s| - 1] == Decimal(n / 10);
      s
  }

  function Pow10(n: nat): (p: nat)
    ensures p > 0
  {
    if n == 0 then 1 else 10 * Pow10(n - 1)
  }

  function Zeros(n: nat): string { seq(n, i => '0') }

  lemma AllDigitsConcat(a: string, b: string)
    requires AllDigits(a) && AllDigits(b)
    ensures AllDigits(a + b)
  {
  }

  // Trailing zeros multiply, leading zeros change nothing.
  lemma {:induction false} TrailingZeros(s: string, n: nat)
    requires AllDigits(s)
    ensures AllDigits(s + Zeros(n)) && DigitsValue(s + Zeros(n)) == DigitsValue(s) * Pow10(n)
  {
    if n == 0 {
      assert s + Zeros(0) == s;
    } else {
      var t := s + Zeros(n);
      assert t[..|t| - 1] == s + Zeros(n - 1);
      TrailingZeros(s, n - 1);
      assert DigitsValue(t) == 10 * (DigitsValue(s) * Pow10(n - 1));
    }
  }

  lemma {:induction false} LeadingZeros(n: nat, s: string)
    requires AllDigits(s)
    ensures AllDigits(Zeros(n) + s) && DigitsValue(Zeros(n) + s) == DigitsValue(s)
    decreases |s|, n
  {
    if s == "" {
      assert Zeros(n) + s == "" + Zeros(n);
      TrailingZeros("", n);
    } else {
      var t := Zeros(n) + s;
      assert t[..|t| - 1] == Zeros(n) + s[..|s| - 1];
      LeadingZeros(n, s[..|s| - 1]);
    }
  }
}
