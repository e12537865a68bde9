/** Decimal rounding of exact rationals in four modes, and the text it prints. */
module Rounding {
  import opened DecimalText

  datatype Mode = HalfEven | HalfAwayFromZero | TowardZero | AwayFromZero | UnknownMode(text: string)

  datatype Rational = Rational(num: int, den: int)

  datatype Text = Printed(text: string) | BadPrecision | BadMode

  const MAX_SCALE := 18

  function Abs(x: int): nat { if x < 0 then -x else x }

  /* ---------- the computation ---------- */

  predicate ShouldRoundUp(quotient: nat, remainder: nat, den: nat, mode: Mode) {
    if remainder == 0 then false
    else match mode
      case TowardZero => false
      case AwayFromZero => true
      case HalfAwayFromZero => 2 * remainder >= den
      case HalfEven => 2 * remainder > den || (2 * remainder == den && quotient % 2 == 1)
      case UnknownMode(_) => false
  }

  // The rounding of n / den to an integer.
  function Rounded(n: int, den: int, mode: Mode): int
    requires den > 0
  {
    var q := Abs(n) / den;
    var m := if ShouldRoundUp(q, Abs(n) % den, den, mode) then q + 1 else q;
    if n < 0 then -m else m
  }

  function TrimRight(text: string, c: char): string {
    if text != "" && text[|text| - 1] == c then TrimRight(text[..|text| - 1], c) else text
  }

  function TrimDecimalZeros(text: string): string {
    var t := if '.' in text then TrimRight(TrimRight(text, '0'), '.') else text;
    if t == "-0" || t == "" then "0" else t
  }

  // At least one digit before the last `scale` of them.
  function Padded(digits: string, scale: nat): (padded: string)
    ensures |padded| > scale
  {
    if |digits| < scale + 1 then Zeros(scale + 1 - |digits|) + digits else digits
  }

  function FormatScaledInteger(value: int, scale: nat): string {
    var digits := Decimal(Abs(value));
    if scale == 0 then (if value < 0 && digits != "0" then "-" + digits else digits)
    else
      var padded := Padded(digits, scale);
      var point := |padded| - scale;
      var text := TrimDecimalZeros(padded[..point] + "." + padded[point..]);
      if value < 0 && text != "0" then "-" + text else text
  }

  method RoundRationalDecimal(value: Rational, scale: int, mode: Mode) returns (t: Text)
    requires value.den > 0
    ensures t == if scale < 0 || scale > MAX_SCALE then BadPrecision
                 else if mode.UnknownMode? then BadMode
                 else Printed(FormatScaledInteger(Rounded(value.num * Pow10(scale), value.den, mode), scale))
  {
    hide FormatScaledInteger, ShouldRoundUp, Pow10;
    if scale < 0 || scale > MAX_SCALE { return BadPrecision; }
    if mode.UnknownMode? { return BadMode; }
    var absolute, negative := value.num, value.num < 0;
    if negative { absolute := -absolute; }
    var numerator := absolute * Pow10(scale);
    ScaledSign(value.num, Pow10(scale));
    assert numerator == Abs(value.num * Pow10(scale));
    var quotient, remainder := numerator / value.den, numerator % value.den;
    if ShouldRoundUp(quotient, remainder, value.den, mode) { quotient := quotient + 1; }
    var signed: int := quotient;
    if negative && quotient != 0 { signed := -signed; }
    return Printed(FormatScaledInteger(signed, scale));
  }

  lemma ScaledSign(n: int, f: nat)
    requires f > 0
    ensures Abs(n * f) == Abs(n) * f && (n * f < 0 <==> n < 0) && Abs(n) * f >= 0
  {
    if n < 0 { assert (-n) * f > 0; }
  }

  /* ---------- what rounding means ---------- */

  function Error(r: int, n: int, den: int): nat { Abs(r * den - n) }

  // With the error, the denominator and both magnitudes known, whether r is a rounding.
  predicate Meets(mode: Mode, r: int, error: int, den: int, rounded: int, exact: int, sameSide: bool) {
    match mode
    case HalfEven => 2 * error <= den && (2 * error == den ==> r % 2 == 0)
    case HalfAwayFromZero => 2 * error <= den && (2 * error == den ==> rounded > exact)
    case TowardZero => error < den && rounded <= exact && sameSide
    case AwayFromZero => error < den && rounded >= exact && sameSide
    case UnknownMode(_) => true
  }

  // r is the nearest integer to n / den with the named tie rule, or the neighbour on the named side.
  predicate IsRounding(r: int, n: int, den: int, mode: Mode) {
    Meets(mode, r, Error(r, n, den), den, Abs(r * den), Abs(n), SameSide(r, n))
  }

  predicate SameSide(r: int, n: int) { (r > 0 ==> n > 0) && (r < 0 ==> n < 0) }

  lemma AbsTimes(r: int, den: int)
    requires den > 0
    ensures Abs(r * den) == Abs(r) * den && (r > 0 <==> r * den > 0) && (r < 0 <==> r * den < 0)
  {
    if r < 0 { assert (-r) * den > 0; }
  }

  // The magnitude and the error of q or q + 1, given the sign of n.
  lemma MagnitudeAt(n: int, den: int, q: nat, rem: nat, up: bool, r: int)
    requires den > 0 && Abs(n) == q * den + rem && rem < den && (up ==> rem > 0)
    requires r == if n < 0 then -(if up then q + 1 else q) else if up then q + 1 else q
    ensures Abs(r * den) == Abs(n) - rem + (if up then den else 0)
    ensures Error(r, n, den) == if up then den - rem else rem
  {
    var m: int := if up then q + 1 else q;
    assert m * den == q * den + (if up then den else 0) by {
      if up { assert (q + 1) * den == q * den + den; }
    }
    assert r * den == if n < 0 then -(m * den) else m * den by {
      if n < 0 { assert (-m) * den == -(m * den); }
    }
    assert m * den >= 0 by { ProductNonNegative(if up then q + 1 else q, den); }
  }

  lemma ProductNonNegative(m: nat, den: int)
    requires den > 0
    ensures m * den >= 0
  {
  }

  lemma Magnitude(n: int, den: int, mode: Mode)
    requires den > 0 && !mode.UnknownMode?
    ensures var q, rem := Abs(n) / den, Abs(n) % den;
            var r, up := Rounded(n, den, mode), ShouldRoundUp(q, rem, den, mode);
            && 0 <= rem < den && q >= 0 && (up ==> rem > 0)
            && Abs(r) == (if up then q + 1 else q)
            && Abs(r * den) == Abs(n) - rem + (if up then den else 0)
            && Error(r, n, den) == (if up then den - rem else rem)
            && SameSide(r, n)
  {
    Division(Abs(n), den);
    var q: nat, rem: nat := Abs(n) / den, Abs(n) % den;
    var up := ShouldRoundUp(q, rem, den, mode);
    MagnitudeAt(n, den, q, rem, up, Rounded(n, den, mode));
    hide Error;
  }

  lemma Division(a: int, den: int)
    requires den > 0
    ensures 0 <= a % den < den && a == (a / den) * den + a % den
    ensures a >= 0 ==> a / den >= 0
    ensures a == 0 ==> a / den == 0 && a % den == 0
  {
  }

  lemma QuotientNonNegative(a: nat, den: int)
    requires den > 0
    ensures a / den >= 0
  {
  }

  lemma RoundedIsRounding(n: int, den: int, mode: Mode)
    requires den > 0 && !mode.UnknownMode?
    ensures IsRounding(Rounded(n, den, mode), n, den, mode)
  {
    Magnitude(n, den, mode);
  }

  lemma Ordered(r: int, s: int, den: int)
    requires den > 0 && r < s
    ensures r * den + den <= s * den
  {
    assert (s - r - 1) * den >= 0;
    assert (s - r - 1) * den == s * den - r * den - den;
  }

  lemma Adjacent(r: int, s: int, den: int)
    requires den > 0 && r < s && s * den - r * den < 2 * den
    ensures s == r + 1
  {
    if s > r + 1 {
      Ordered(r, r + 1, den);
      Ordered(r + 1, s, den);
    }
  }

  // No two integers round the same value: a larger one is no rounding.
  lemma NoLargerRounding(r: int, s: int, n: int, den: int, mode: Mode)
    requires den > 0 && !mode.UnknownMode? && r < s && IsRounding(r, n, den, mode)
    ensures !IsRounding(s, n, den, mode)
  {
    Ordered(r, s, den);
    AbsTimes(r, den);
    AbsTimes(s, den);
    if s * den - r * den < 2 * den { Adjacent(r, s, den); }
  }

  // The rounding is the only integer that meets its mode's description.
  lemma RoundingUnique(r: int, n: int, den: int, mode: Mode)
    requires den > 0 && !mode.UnknownMode?
    ensures IsRounding(r, n, den, mode) <==> r == Rounded(n, den, mode)
  {
    RoundedIsRounding(n, den, mode);
    var s := Rounded(n, den, mode);
    if IsRounding(r, n, den, mode) {
      if r < s { NoLargerRounding(r, s, n, den, mode); }
      if s < r { NoLargerRounding(s, r, n, den, mode); }
    }
  }

  // Odd symmetry.
  lemma RoundedOdd(n: int, den: int, mode: Mode)
    requires den > 0
    ensures Rounded(-n, den, mode) == -Rounded(n, den, mode)
  {
    if n == 0 { assert 0 / den == 0 && 0 % den == 0; }
  }

  // Representable values are kept.
  lemma RoundedExact(k: int, den: int, mode: Mode)
    requires den > 0 && !mode.UnknownMode?
    ensures Rounded(k * den, den, mode) == k
  {
    AbsTimes(k, den);
    RoundingUnique(k, k * den, den, mode);
  }

  lemma QuotientMonotone(a: nat, b: nat, den: int)
    requires den > 0 && a <= b
    ensures a / den <= b / den && (a / den == b / den ==> a % den <= b % den)
  {
    var p, q := a / den, b / den;
    assert a == p * den + a % den && b == q * den + b % den;
    if q < p { Ordered(q, p, den); }
  }

  lemma NonNegativeMonotone(a: nat, b: nat, den: int, mode: Mode)
    requires den > 0 && a <= b
    ensures Rounded(a, den, mode) <= Rounded(b, den, mode)
  {
    QuotientMonotone(a, b, den);
  }

  lemma SameDenominatorMonotone(a: int, b: int, den: int, mode: Mode)
    requires den > 0 && a <= b
    ensures Rounded(a, den, mode) <= Rounded(b, den, mode)
  {
    hide Rounded;
    if a >= 0 {
      NonNegativeMonotone(a, b, den, mode);
    } else if b < 0 {
      NonNegativeMonotone(-b, -a, den, mode);
      RoundedOdd(-a, den, mode);
      RoundedOdd(-b, den, mode);
    } else {
      RoundedSign(a, den, mode);
      RoundedSign(b, den, mode);
    }
  }

  lemma RoundedSign(n: int, den: int, mode: Mode)
    requires den > 0
    ensures (n >= 0 ==> Rounded(n, den, mode) >= 0) && (n < 0 ==> Rounded(n, den, mode) <= 0)
  {
    QuotientNonNegative(Abs(n), den);
  }

  lemma ErrorScales(r: int, n: int, den: int, k: int)
    requires den > 0 && k > 0
    ensures Error(r, n * k, den * k) == Error(r, n, den) * k
    ensures Abs(r * (den * k)) == Abs(r * den) * k && Abs(n * k) == Abs(n) * k
  {
    assert r * (den * k) == (r * den) * k;
    assert (r * den) * k - n * k == (r * den - n) * k;
    AbsTimes(r * den - n, k);
    AbsTimes(r * den, k);
    AbsTimes(n, k);
  }

  lemma Compare(a: int, b: int, k: int)
    requires k > 0
    ensures (a * k <= b * k <==> a <= b) && (a * k == b * k <==> a == b) && (a * k < b * k <==> a < b)
  {
    if a < b { Ordered(a, b, k); }
    if b < a { Ordered(b, a, k); }
  }

  lemma MeetsScales(mode: Mode, r: int, error: int, den: int, rounded: int, exact: int, side: bool, k: int)
    requires k > 0 && Meets(mode, r, error, den, rounded, exact, side)
    ensures Meets(mode, r, error * k, den * k, rounded * k, exact * k, side)
  {
    Compare(error, den, k);
    Compare(2 * error, den, k);
    Compare(rounded, exact, k);
    Compare(exact, rounded, k);
    assert (2 * error) * k == 2 * (error * k);
  }

  lemma IsRoundingScales(r: int, n: int, den: int, k: int, mode: Mode)
    requires den > 0 && k > 0 && IsRounding(r, n, den, mode)
    ensures IsRounding(r, n * k, den * k, mode)
  {
    hide Meets, Error;
    ErrorScales(r, n, den, k);
    MeetsScales(mode, r, Error(r, n, den), den, Abs(r * den), Abs(n), SameSide(r, n), k);
    assert SameSide(r, n) == SameSide(r, n * k) by { AbsTimes(n, k); }
  }

  // Rounding depends on the value, not on how the fraction is written.
  lemma RoundedReduces(n: int, den: int, k: int, mode: Mode)
    requires den > 0 && k > 0 && !mode.UnknownMode?
    ensures den * k > 0 && Rounded(n * k, den * k, mode) == Rounded(n, den, mode)
  {
    hide Rounded, IsRounding;
    var r := Rounded(n, den, mode);
    RoundedIsRounding(n, den, mode);
    IsRoundingScales(r, n, den, k, mode);
    assert den * k > 0 by { Ordered(0, den, k); }
    RoundingUnique(r, n * k, den * k, mode);
  }

  // Monotone over all rationals.
  lemma RoundedMonotone(a: int, b: int, c: int, d: int, mode: Mode)
    requires b > 0 && d > 0 && !mode.UnknownMode? && a * d <= c * b
    ensures Rounded(a, b, mode) <= Rounded(c, d, mode)
  {
    RoundedReduces(a, b, d, mode);
    RoundedReduces(c, d, b, mode);
    assert b * d == d * b;
    SameDenominatorMonotone(a * d, c * b, b * d, mode);
  }

  /* ---------- what the text means ---------- */

  function FirstDot(s: string): nat
    ensures FirstDot(s) <= |s| && '.' !in s[..FirstDot(s)] && (FirstDot(s) < |s| ==> s[FirstDot(s)] == '.')
  {
    if s == "" || s[0] == '.' then 0
    else
      var k := FirstDot(s[1..]);
      assert s[..k + 1] == [s[0]] + s[1..][..k];
      k + 1
  }

  // A decimal numeral: digits, and optionally a point followed by digits.
  predicate Numeral(s: string) {
    var k := FirstDot(s);
    k > 0 && AllDigits(s[..k]) && (k < |s| ==> k + 1 < |s| && AllDigits(s[k + 1..]))
  }

  function Fraction(s: string): string {
    if FirstDot(s) < |s| then s[FirstDot(s) + 1..] else ""
  }

  // The numeral's digits read as one number; it stands for this number over a power of ten.
  function Mantissa(s: string): nat
    requires Numeral(s)
  {
    AllDigitsConcat(s[..FirstDot(s)], Fraction(s));
    DigitsValue(s[..FirstDot(s)] + Fraction(s))
  }

  lemma {:induction false} DotAt(a: string, b: string)
    requires '.' !in a && (b == "" || b[0] == '.')
    ensures FirstDot(a + b) == |a|
  {
    if a == "" {
      assert a + b == b;
    } else {
      assert (a + b)[1..] == a[1..] + b;
      DotAt(a[1..], b);
    }
  }

  // The numeral denotes value / 10^scale.
  ghost predicate Denotes(s: string, value: nat, scale: nat) {
    Numeral(s) && |Fraction(s)| <= scale && Mantissa(s) * Pow10(scale - |Fraction(s)|) == value
  }

  // Shortest form: no trailing zero after the point.
  predicate Shortest(s: string) { Fraction(s) != "" ==> Fraction(s)[|Fraction(s)| - 1] != '0' }

  lemma {:induction false} TrimmedTail(a: string, c: char)
    ensures TrimRight(a, c) <= a
    ensures a == TrimRight(a, c) + seq(|a| - |TrimRight(a, c)|, i => c)
    ensures TrimRight(a, c) == "" || TrimRight(a, c)[|TrimRight(a, c)| - 1] != c
  {
    if a != "" && a[|a| - 1] == c {
      var b := a[..|a| - 1];
      TrimmedTail(b, c);
      var n := |b| - |TrimRight(b, c)|;
      assert seq(n + 1, i => c) == seq(n, i => c) + [c];
      assert a == b + [c];
    }
  }

  lemma {:induction false} TrimStops(a: string, b: string, c: char)
    requires a != "" && a[|a| - 1] != c
    ensures TrimRight(a + b, c) == a + TrimRight(b, c)
  {
    if b == "" {
      assert a + b == a;
    } else if b[|b| - 1] == c {
      assert (a + b)[..|a + b| - 1] == a + b[..|b| - 1];
      TrimStops(a, b[..|b| - 1], c);
    }
  }

  lemma TrimDot(a: string)
    requires a != "" && AllDigits(a)
    ensures TrimRight(a + ".", '.') == a
  {
    assert (a + ".")[..|a|] == a;
    assert Digit(a[|a| - 1]);
  }

  lemma NumeralOf(a: string, b: string)
    requires a != "" && AllDigits(a) && AllDigits(b)
    ensures var s := if b == "" then a else a + "." + b;
            Numeral(s) && Fraction(s) == b && s[..FirstDot(s)] == a
  {
    var s := if b == "" then a else a + "." + b;
    assert '.' !in a;
    if b == "" {
      DotAt(a, "");
      assert a + "" == a;
    } else {
      DotAt(a, "." + b);
      assert s == a + ("." + b);
      assert s[|a| + 1..] == b && s[..|a|] == a;
    }
  }

  lemma PointedText(a: string, b: string)
    requires a != "" && AllDigits(a) && AllDigits(b)
    ensures var t := TrimRight(b, '0');
            TrimDecimalZeros(a + "." + b) == if t == "" then a else a + "." + t
  {
    var t, head := TrimRight(b, '0'), a + ".";
    TrimStops(head, b, '0');
    TrimmedTail(b, '0');
    assert a + "." + b == head + b;
    assert (head + b)[|a|] == '.';
    DotlessTail(a, t, b);
    Unsigned(a, if t == "" then a else a + "." + t);
  }

  lemma DotlessTail(a: string, t: string, b: string)
    requires a != "" && AllDigits(a) && AllDigits(b) && t <= b
    ensures TrimRight(a + "." + t, '.') == if t == "" then a else a + "." + t
  {
    var whole := a + "." + t;
    if t == "" {
      assert whole == a + ".";
      TrimDot(a);
    } else {
      assert whole[|whole| - 1] == t[|t| - 1] == b[|t| - 1];
      assert Digit(b[|t| - 1]);
    }
  }

  lemma Unsigned(a: string, s: string)
    requires a != "" && AllDigits(a) && a <= s
    ensures s != "-0" && s != ""
  {
    assert Digit(a[0]) && s[0] == a[0];
  }

  lemma UnsignedDenotes(a: string, b: string, value: nat)
    requires a != "" && AllDigits(a) && AllDigits(b) && AllDigits(a + b) && DigitsValue(a + b) == value
    ensures Denotes(TrimDecimalZeros(a + "." + b), value, |b|) && Shortest(TrimDecimalZeros(a + "." + b))
  {
    var t := TrimRight(b, '0');
    PointedText(a, b);
    TrimmedTail(b, '0');
    var n := |b| - |t|;
    assert Zeros(n) == seq(n, i => '0');
    assert AllDigits(t);
    AllDigitsConcat(a, t);
    TrailingZeros(a + t, n);
    assert a + b == (a + t) + Zeros(n);
    NumeralOf(a, t);
  }

  // The printed text is a shortest numeral, signed exactly when the value is negative, that denotes the rounded
  // integer over the power of ten. Zero is never signed.
  lemma TextDenotes(value: int, scale: nat)
    ensures var s := FormatScaledInteger(value, scale);
            if value < 0 then |s| > 1 && s[0] == '-' && Denotes(s[1..], -value, scale) && Shortest(s[1..])
            else Denotes(s, value, scale) && Shortest(s)
  {
    hide Denotes, Shortest, TrimDecimalZeros;
    MagnitudeDenotes(Abs(value), scale);
    var m := FormatScaledInteger(Abs(value), scale);
    if value < 0 {
      if m == "0" { ZeroDenotes(scale); }
      assert FormatScaledInteger(value, scale) == "-" + m;
      assert ("-" + m)[1..] == m;
      assert m != "" by { NumeralsHaveDigits(m, Abs(value), scale); }
    }
  }

  lemma NumeralsHaveDigits(s: string, value: nat, scale: nat)
    requires Denotes(s, value, scale)
    ensures s != ""
  {
  }

  lemma MagnitudeDenotes(value: nat, scale: nat)
    ensures var s := FormatScaledInteger(value, scale); Denotes(s, value, scale) && Shortest(s)
  {
    hide TrimDecimalZeros, Denotes, Shortest;
    var digits := Decimal(value);
    if scale == 0 {
      WholeDenotes(digits);
    } else {
      PaddedDenotes(digits, scale);
    }
  }

  lemma WholeDenotes(digits: string)
    requires digits != "" && AllDigits(digits)
    ensures Denotes(digits, DigitsValue(digits), 0) && Shortest(digits)
  {
    NumeralOf(digits, "");
    assert digits + "" == digits;
    assert Pow10(0) == 1;
  }

  lemma PaddedDenotes(digits: string, scale: nat)
    requires digits != "" && AllDigits(digits) && scale > 0
    ensures var padded := Padded(digits, scale);
            var text := TrimDecimalZeros(padded[..|padded| - scale] + "." + padded[|padded| - scale..]);
            Denotes(text, DigitsValue(digits), scale) && Shortest(text)
  {
    hide TrimDecimalZeros, Denotes, Shortest, Padded;
    PaddedValue(digits, scale);
    var padded := Padded(digits, scale);
    var a, b := padded[..|padded| - scale], padded[|padded| - scale..];
    assert padded == a + b;
    UnsignedDenotes(a, b, DigitsValue(digits));
  }

  // Padding to one digit before the point changes no value.
  lemma PaddedValue(digits: string, scale: nat)
    requires digits != "" && AllDigits(digits) && scale > 0
    ensures var padded := Padded(digits, scale); AllDigits(padded) && DigitsValue(padded) == DigitsValue(digits)
  {
    if |digits| < scale + 1 { LeadingZeros(scale + 1 - |digits|, digits); }
  }

  lemma ZeroDenotes(scale: nat)
    ensures forall value: nat :: Denotes("0", value, scale) ==> value == 0
  {
    NumeralOf("0", "");
    assert Fraction("0") == "";
    assert "0" + "" == "0";
    assert "0"[..0] == "";
  }

  // At one precision, different rounded integers never print alike.
  lemma TextInjective(v: int, w: int, scale: nat)
    requires FormatScaledInteger(v, scale) == FormatScaledInteger(w, scale)
    ensures v == w
  {
    hide FormatScaledInteger, Shortest;
    TextDenotes(v, scale);
    TextDenotes(w, scale);
    var s := FormatScaledInteger(v, scale);
    if v < 0 && w >= 0 { MinusIsNoDigit(s); }
    if w < 0 && v >= 0 { MinusIsNoDigit(s); }
  }

  lemma MinusIsNoDigit(s: string)
    requires s != "" && s[0] == '-'
    ensures !Numeral(s)
  {
    if FirstDot(s) > 0 { assert s[..FirstDot(s)][0] == '-'; }
  }
}
