/** The text of an exact number, and the digits a number may have. */
module NumberText {
  import opened Common
  import opened DecimalText
  import opened Rounding

  const MAX_DIGITS: nat := 0x10_0000

  /* ---------- reading a numeral ---------- */

  // A JSON number without sign and exponent.
  predicate JsonNumeral(s: string) {
    Numeral(s) && (s[..FirstDot(s)] == "0" || s[0] != '0')
  }

  function FirstNonZero(s: string): (k: nat)
    ensures k <= |s| && (k < |s| ==> s[k] != '0') && forall i :: 0 <= i < k ==> s[i] == '0'
  {
    if s == "" || s[0] != '0' then 0 else 1 + FirstNonZero(s[1..])
  }

  function TrimZeros(digits: string, position: int): string {
    if digits != "" && digits[|digits| - 1] == '0' && |digits| > position
    then TrimZeros(digits[..|digits| - 1], position) else digits
  }

  // The digits with the point at a position.
  function Placed(digits: string, position: int): string {
    if position <= 0 then "0." + Zeros(-position) + digits
    else if position >= |digits| then digits + Zeros(position - |digits|)
    else digits[..position] + "." + digits[position..]
  }

  // The digits before and after the point as canonical text, refused when there are too many.
  function ReadParts(whole: string, fraction: string): Option<string> {
    var digits := whole + fraction;
    var first := FirstNonZero(digits);
    var position := |whole| - first;
    if first == |digits| then Some("0")
    else if position > MAX_DIGITS || position + MAX_DIGITS < 0 then None
    else
      var kept := TrimZeros(digits[first..], position);
      if |kept| > MAX_DIGITS then None else Some(Placed(kept, position))
  }

  // Reads a numeral without exponent into canonical text.
  function CanonicalDecimal(text: string): Option<string> {
    var negative := text != "" && text[0] == '-';
    var body := if negative then text[1..] else text;
    if !JsonNumeral(body) then None
    else match ReadParts(body[..FirstDot(body)], Fraction(body))
      case None => None
      case Some(canonical) => Some(if negative && canonical != "0" then "-" + canonical else canonical)
  }

  /* ---------- writing an exact number ---------- */

  // The value can be written with this many decimals.
  predicate WritableWith(r: Rational, decimals: nat)
    requires r.den > 0
  {
    (r.num * Pow10(decimals)) % r.den == 0
  }

  // The fewest decimals that write the value.
  ghost predicate LeastScale(r: Rational, scale: nat)
    requires r.den > 0
  {
    WritableWith(r, scale) && forall d: nat :: d < scale ==> !WritableWith(r, d)
  }

  ghost predicate Terminates(r: Rational)
    requires r.den > 0
  {
    exists scale: nat :: scale < MAX_DIGITS && LeastScale(r, scale)
  }

  function WrittenWith(r: Rational, scale: nat): string
    requires r.den > 0
  {
    FormatScaledInteger(r.num * Pow10(scale) / r.den, scale)
  }

  ghost function CanonicalText(r: Rational): Option<string>
    requires r.den > 0
  {
    if Terminates(r) then
      var scale: nat :| scale < MAX_DIGITS && LeastScale(r, scale);
      Some(WrittenWith(r, scale))
    else None
  }

  lemma WrittenLeast(r: Rational, scale: nat)
    requires r.den > 0 && scale < MAX_DIGITS && LeastScale(r, scale)
    ensures CanonicalText(r) == Some(WrittenWith(r, scale))
  {
    hide WritableWith, WrittenWith;
  }

  method CanonicalRationalDecimal(r: Rational) returns (text: Option<string>)
    requires r.den > 0
    ensures text == CanonicalText(r)
  {
    hide WritableWith, WrittenWith;
    var scale: nat := 0;
    while scale < MAX_DIGITS
      invariant scale <= MAX_DIGITS && forall d: nat :: d < scale ==> !WritableWith(r, d)
    {
      if WritableWith(r, scale) {
        WrittenLeast(r, scale);
        return Some(WrittenWith(r, scale));
      }
      scale := scale + 1;
    }
    return None;
  }

  // The number written out and read back.
  ghost function NumberOf(r: Rational): Option<string>
    requires r.den > 0
  {
    match CanonicalText(r)
    case None => None
    case Some(text) => CanonicalDecimal(text)
  }

  // A quantity counts billionths.
  const GRAIN: nat := 9

  // What a quantity can hold: a whole number of billionths whose magnitude is at most 2^63 - 1.
  predicate IsQuantity(r: Rational)
    requires r.den > 0
  {
    WithinInt64(r) && WritableWith(r, GRAIN)
  }

  predicate WithinInt64(r: Rational) { Abs(r.num) <= MAX_INT64 * r.den }

  /* ---------- which numbers are held ---------- */

  // r == n / 10^d
  predicate Writes(r: Rational, n: int, d: nat) { n * r.den == r.num * Pow10(d) }

  function Digits(n: int): nat { |Decimal(Abs(n))| }

  // An integer of at most 2^20 digits, with the point before fewer than 2^20 of them.
  ghost predicate Holds(r: Rational) {
    exists n: int, d: nat :: d < MAX_DIGITS && Digits(n) <= MAX_DIGITS && Writes(r, n, d)
  }

  lemma {:induction false} Pow10Add(a: nat, b: nat)
    ensures Pow10(a + b) == Pow10(a) * Pow10(b)
  {
    if a > 0 {
      Pow10Add(a - 1, b);
      assert Pow10(a + b) == 10 * (Pow10(a - 1) * Pow10(b));
    }
  }

  lemma {:induction false} Pow10Ordered(a: nat, b: nat)
    requires a < b
    ensures Pow10(a) < Pow10(b) && 10 * Pow10(a) <= Pow10(b)
  {
    if a < b - 1 { Pow10Ordered(a, b - 1); }
  }

  lemma Pow10Reflects(a: nat, b: nat)
    requires Pow10(a) < Pow10(b)
    ensures a < b
  {
    if b < a { Pow10Ordered(b, a); }
  }

  // A number without leading zeros has as many digits as its size says.
  lemma {:induction false} DigitsBound(s: string)
    requires s != "" && AllDigits(s) && s[0] != '0'
    ensures Pow10(|s| - 1) <= DigitsValue(s) < Pow10(|s|)
  {
    var n := |s| - 1;
    if n == 0 {
      assert s[..0] == "";
      assert DigitsValue(s) == s[0] as int - '0' as int;
      assert Pow10(0) == 1 && Pow10(1) == 10;
    } else {
      DigitsBound(s[..n]);
    }
  }

  lemma SameDigits(s: string, t: string)
    requires s != "" && AllDigits(s) && s[0] != '0' && t != "" && AllDigits(t) && t[0] != '0'
    requires DigitsValue(s) <= DigitsValue(t)
    ensures |s| <= |t|
  {
    hide Pow10;
    DigitsBound(s);
    DigitsBound(t);
    Pow10Reflects(|s| - 1, |t|);
  }

  lemma PositiveDecimal(n: nat)
    requires n > 0
    ensures Decimal(n)[0] != '0'
  {
    var s := Decimal(n);
    if |s| == 1 { assert s[..0] == "" && DigitsValue(s) == s[0] as int - '0' as int; }
  }

  // The digits of a number without leading zeros are counted by its value.
  lemma DigitsCount(s: string)
    requires s != "" && AllDigits(s) && s[0] != '0'
    ensures DigitsValue(s) > 0 && |s| == Digits(DigitsValue(s))
  {
    DigitsBound(s);
    var n := DigitsValue(s);
    PositiveDecimal(n);
    SameDigits(s, Decimal(n));
    SameDigits(Decimal(n), s);
  }

  lemma DigitsOrdered(m: nat, n: nat)
    requires m <= n
    ensures Digits(m) <= Digits(n)
  {
    if m > 0 {
      PositiveDecimal(m);
      PositiveDecimal(n);
      SameDigits(Decimal(m), Decimal(n));
    }
  }

  /* ---------- reading back what was written ---------- */

  function Pointed(whole: string, fraction: string): string {
    if fraction == "" then whole else whole + "." + fraction
  }

  // The two parts of a shortest numeral.
  predicate Parts(whole: string, fraction: string) {
    && whole != "" && AllDigits(whole) && AllDigits(fraction) && AllDigits(whole + fraction)
    && (whole == "0" || whole[0] != '0') && (fraction != "" ==> fraction[|fraction| - 1] != '0')
  }

  // A numeral that is not below one is its own canonical text, unless it has too many digits.
  lemma LargeReads(whole: string, fraction: string)
    requires Parts(whole, fraction) && whole[0] != '0'
    ensures ReadParts(whole, fraction) ==
            if Digits(DigitsValue(whole + fraction)) <= MAX_DIGITS then Some(Pointed(whole, fraction)) else None
  {
    var digits := whole + fraction;
    assert digits[0] == whole[0];
    DigitsCount(digits);
    hide Pow10, DigitsValue, Zeros;
    assert FirstNonZero(digits) == 0;
    assert digits[0..] == digits;
    assert TrimZeros(digits, |whole|) == digits by {
      if fraction != "" { assert digits[|digits| - 1] == fraction[|fraction| - 1]; }
    }
    hide TrimZeros, FirstNonZero;
    PlacedInside(whole, fraction);
  }

  lemma PlacedInside(whole: string, fraction: string)
    requires whole != ""
    ensures Placed(whole + fraction, |whole|) == Pointed(whole, fraction)
  {
    var digits := whole + fraction;
    if fraction == "" {
      assert digits == whole && whole + Zeros(0) == whole;
    } else {
      assert digits[..|whole|] == whole && digits[|whole|..] == fraction;
    }
  }

  // So is one below one, which never has too many digits.
  lemma SmallReads(fraction: string)
    requires Parts("0", fraction) && 0 < |fraction| <= MAX_DIGITS
    ensures ReadParts("0", fraction) == Some(Pointed("0", fraction))
  {
    hide Pow10, DigitsValue;
    var digits := "0" + fraction;
    var first := FirstNonZero(digits);
    assert digits[|fraction|] == fraction[|fraction| - 1];
    var kept := digits[first..];
    assert kept[|kept| - 1] == digits[|digits| - 1];
    assert fraction == Zeros(first - 1) + kept by {
      assert forall i :: 0 <= i < first - 1 ==> fraction[i] == digits[i + 1];
    }
    assert "0." + Zeros(first - 1) + kept == "0" + "." + fraction;
  }

  lemma SmallValue(fraction: string)
    requires AllDigits("0" + fraction) && |fraction| <= MAX_DIGITS
    ensures Digits(DigitsValue("0" + fraction)) <= MAX_DIGITS
  {
    var digits := "0" + fraction;
    var kept := digits[FirstNonZero(digits)..];
    WithoutZeros(digits);
    hide FirstNonZero, AllDigits;
    LeadingZeros(|digits| - |kept|, kept);
    if kept != "" { DigitsCount(kept); }
  }

  lemma WithoutZeros(s: string)
    requires AllDigits(s)
    ensures var kept := s[FirstNonZero(s)..];
            && s == Zeros(|s| - |kept|) + kept && AllDigits(kept) && (kept != "" ==> kept[0] != '0')
  {
  }

  lemma CanonicalReads(whole: string, fraction: string, negative: bool)
    requires Parts(whole, fraction) && |fraction| <= MAX_DIGITS && (negative ==> Pointed(whole, fraction) != "0")
    ensures var text := (if negative then "-" else "") + Pointed(whole, fraction);
            CanonicalDecimal(text) == if Digits(DigitsValue(whole + fraction)) <= MAX_DIGITS then Some(text) else None
  {
    ReadsParts(whole, fraction);
    PartsMake(whole, fraction);
    hide *;
    SignedReads(Pointed(whole, fraction), negative);
  }

  lemma PartsMake(whole: string, fraction: string)
    requires Parts(whole, fraction)
    ensures var body := Pointed(whole, fraction);
            JsonNumeral(body) && body != "" && body[0] != '-' && body[..FirstDot(body)] == whole
                && Fraction(body) == fraction
  {
    NumeralOf(whole, fraction);
    assert Digit(whole[0]) && Pointed(whole, fraction)[0] == whole[0];
    hide Numeral, Fraction, FirstDot, AllDigits;
  }

  lemma SignedReads(body: string, negative: bool)
    requires body != "" && body[0] != '-' && JsonNumeral(body) && (negative ==> body != "0")
    requires ReadParts(body[..FirstDot(body)], Fraction(body)) in {None, Some(body)}
    ensures var text := (if negative then "-" else "") + body;
            CanonicalDecimal(text) == match ReadParts(body[..FirstDot(body)], Fraction(body))
                                      case None => None
                                      case Some(_) => Some(text)
  {
    hide JsonNumeral, ReadParts, Fraction, FirstDot;
    var text := (if negative then "-" else "") + body;
    assert (if negative then text[1..] else text) == body;
  }

  lemma ReadsParts(whole: string, fraction: string)
    requires Parts(whole, fraction) && |fraction| <= MAX_DIGITS
    ensures ReadParts(whole, fraction) ==
            if Digits(DigitsValue(whole + fraction)) <= MAX_DIGITS then Some(Pointed(whole, fraction)) else None
  {
    assert ReadParts("0", "") == Some("0");
    hide Digits, ReadParts, DigitsValue;
    if whole[0] != '0' {
      LargeReads(whole, fraction);
    } else if fraction != "" {
      SmallReads(fraction);
      SmallValue(fraction);
    } else {
      SmallValue("");
    }
  }

  /* ---------- printed numbers read back ---------- */

  // The printed text of a scaled integer, taken apart.
  lemma PrintedParts(value: int, scale: nat) returns (whole: string, fraction: string)
    ensures Parts(whole, fraction) && |fraction| <= scale
    ensures FormatScaledInteger(value, scale) == (if value < 0 then "-" else "") + Pointed(whole, fraction)
    ensures Abs(value) == DigitsValue(whole + fraction) * Pow10(scale - |fraction|)
    ensures value < 0 ==> Pointed(whole, fraction) != "0"
  {
    whole, fraction := MagnitudeParts(Abs(value), scale);
    hide Parts, Pointed, DigitsValue, Pow10, FormatScaledInteger;
    if Pointed(whole, fraction) == "0" { ZeroParts(whole, fraction); }
    Signed(value, scale);
  }

  lemma Signed(value: int, scale: nat)
    ensures var m := FormatScaledInteger(Abs(value), scale);
            FormatScaledInteger(value, scale) == (if value < 0 && m != "0" then "-" else "") + m
  {
    hide Pow10, TrimDecimalZeros, Padded;
  }

  lemma ZeroParts(whole: string, fraction: string)
    requires Parts(whole, fraction) && Pointed(whole, fraction) == "0"
    ensures DigitsValue(whole + fraction) == 0
  {
    assert |Pointed(whole, fraction)| == 1;
    assert whole + fraction == "0" && "0"[..0] == "";
  }

  lemma MagnitudeParts(value: nat, scale: nat) returns (whole: string, fraction: string)
    ensures Parts(whole, fraction) && |fraction| <= scale
    ensures FormatScaledInteger(value, scale) == Pointed(whole, fraction)
    ensures value == DigitsValue(whole + fraction) * Pow10(scale - |fraction|)
  {
    var digits := Decimal(value);
    hide DigitsValue, TrimDecimalZeros, Padded, TrimRight;
    if scale == 0 {
      whole, fraction := digits, "";
      assert digits + "" == digits && Pow10(0) == 1;
    } else {
      whole, fraction := ScaledParts(value, scale);
    }
  }

  lemma ScaledParts(value: nat, scale: nat) returns (whole: string, fraction: string)
    requires scale > 0
    ensures Parts(whole, fraction) && |fraction| <= scale
    ensures FormatScaledInteger(value, scale) == Pointed(whole, fraction)
    ensures value == DigitsValue(whole + fraction) * Pow10(scale - |fraction|)
  {
    hide DigitsValue, TrimDecimalZeros, Padded, TrimRight, Pow10;
    var digits := Decimal(value);
    var padded := Padded(digits, scale);
    PaddedValue(digits, scale);
    whole := padded[..|padded| - scale];
    var b := padded[|padded| - scale..];
    assert padded == whole + b;
    PaddedWhole(digits, scale);
    fraction := TrimRight(b, '0');
    PointedText(whole, b);
    TrimmedTail(b, '0');
    TrimmedValue(whole, fraction, b);
  }

  lemma PaddedWhole(digits: string, scale: nat)
    requires digits != "" && AllDigits(digits) && (|digits| > 1 ==> digits[0] != '0') && scale > 0
    ensures var padded := Padded(digits, scale);
            var whole := padded[..|padded| - scale];
            whole == "0" || whole[0] != '0'
  {
    if |digits| < scale + 1 { assert Padded(digits, scale)[..1] == "0"; }
  }

  lemma TrimmedValue(whole: string, t: string, b: string)
    requires AllDigits(whole + b) && t <= b && b == t + seq(|b| - |t|, i => '0')
    ensures AllDigits(t) && AllDigits(whole + t)
    ensures DigitsValue(whole + b) == DigitsValue(whole + t) * Pow10(|b| - |t|)
  {
    var n := |b| - |t|;
    assert forall i :: 0 <= i < |t| ==> t[i] == (whole + b)[|whole| + i];
    assert forall i :: 0 <= i < |whole| ==> whole[i] == (whole + b)[i];
    assert Zeros(n) == seq(n, i => '0');
    assert whole + b == (whole + t) + Zeros(n);
    TrailingZeros(whole + t, n);
  }

  // A shortest numeral uses the fewest decimals, and so the smallest integer, of all writings of its value.
  lemma FewestDecimals(whole: string, fraction: string, scale: nat, n: int, d: nat)
    requires Parts(whole, fraction) && |fraction| <= scale
    requires Writes(Rational(DigitsValue(whole + fraction) * Pow10(scale - |fraction|), Pow10(scale)), n, d)
    ensures |fraction| <= d && DigitsValue(whole + fraction) <= n
  {
    var f, m := |fraction|, DigitsValue(whole + fraction);
    if d < f {
      LastDigit(whole, fraction);
      SplitPower(n, m, scale, f, d);
      assert false;
    }
    SharedPower(n, m, scale, f, d);
  }

  lemma LastDigit(whole: string, fraction: string)
    requires Parts(whole, fraction) && fraction != ""
    ensures DigitsValue(whole + fraction) % 10 != 0
  {
    var s := whole + fraction;
    assert s[|s| - 1] == fraction[|fraction| - 1];
    assert DigitsValue(s) == 10 * DigitsValue(s[..|s| - 1]) + (s[|s| - 1] as int - '0' as int);
  }

  // With fewer decimals than the fraction has digits, the digits would end in zero.
  lemma SplitPower(n: int, m: nat, scale: nat, f: nat, d: nat)
    requires d < f <= scale && n * Pow10(scale) == m * Pow10(scale - f) * Pow10(d)
    ensures m % 10 == 0
  {
    var k := scale - f + d;
    Pow10Add(scale - f, d);
    Pow10Add(f - d, k);
    assert Pow10(f - d) == 10 * Pow10(f - d - 1);
    hide Pow10;
    Cancel(n, m, Pow10(scale), Pow10(scale - f), Pow10(d), Pow10(f - d), Pow10(k));
    TenTimes(n, Pow10(f - d - 1));
  }

  // n * s == m * a * c, where s == e * k and a * c == k
  lemma Cancel(n: int, m: int, s: int, a: int, c: int, e: int, k: int)
    requires k > 0 && s == e * k && a * c == k && n * s == m * a * c
    ensures m == n * e
  {
    Associate(m, a, c);
    Associate(n, e, k);
    Compare(n * e, m, k);
  }

  lemma TenTimes(n: int, p: int)
    ensures (n * (10 * p)) % 10 == 0
  {
    assert n * (10 * p) == 10 * (n * p);
  }

  lemma SharedPower(n: int, m: nat, scale: nat, f: nat, d: nat)
    requires f <= scale && f <= d && n * Pow10(scale) == m * Pow10(scale - f) * Pow10(d)
    ensures m <= n
  {
    Pow10Add(scale - f, d);
    Pow10Add(d - f, scale);
    hide Pow10;
    Grow(n, m, Pow10(scale), Pow10(scale - f), Pow10(d), Pow10(d - f));
  }

  // n * s == m * a * c, where a * c == e * s
  lemma Grow(n: int, m: nat, s: int, a: int, c: int, e: nat)
    requires s > 0 && e > 0 && a * c == e * s && n * s == m * a * c
    ensures m <= n
  {
    Associate(m, a, c);
    Associate(m, e, s);
    Compare(n, m * e, s);
    Larger(m, e);
  }

  lemma Larger(m: nat, e: nat)
    requires e > 0
    ensures m <= m * e
  {
  }

  lemma Associate(a: int, b: int, c: int)
    ensures a * b * c == a * (b * c)
  {
  }

  // Reading back a printed number gives the same text, or refuses it exactly when it needs too many digits.
  lemma PrintedReads(value: int, scale: nat)
    requires scale < MAX_DIGITS
    ensures var text := FormatScaledInteger(value, scale);
            CanonicalDecimal(text) == if Holds(Rational(value, Pow10(scale))) then Some(text) else None
  {
    var whole, fraction := PrintedParts(value, scale);
    var m := DigitsValue(whole + fraction);
    hide Parts, Pointed, CanonicalDecimal, FormatScaledInteger, DigitsValue, Pow10, Writes;
    CanonicalReads(whole, fraction, value < 0);
    var r := Rational(value, Pow10(scale));
    if Digits(m) <= MAX_DIGITS {
      WrittenByDigits(value, scale, m, |fraction|);
    }
    if Holds(r) {
      var n: int, d: nat :| d < MAX_DIGITS && Digits(n) <= MAX_DIGITS && Writes(r, n, d);
      WritesMagnitude(value, Pow10(scale), n, d);
      FewestDecimals(whole, fraction, scale, Abs(n), d);
      DigitsOrdered(m, Abs(n));
    }
  }

  lemma WrittenByDigits(value: int, scale: nat, m: nat, f: nat)
    requires f <= scale < MAX_DIGITS && Digits(m) <= MAX_DIGITS && Abs(value) == m * Pow10(scale - f)
    ensures Holds(Rational(value, Pow10(scale)))
  {
    Pow10Add(scale - f, f);
    hide Pow10;
    var n := m as int;
    if value < 0 { n := -n; }
    SignedProduct(value, m, Pow10(scale - f), Pow10(f));
    assert Writes(Rational(value, Pow10(scale)), n, f);
  }

  lemma SignedProduct(value: int, m: nat, a: nat, c: nat)
    requires Abs(value) == m * a
    ensures (if value < 0 then -(m as int) else m) * (a * c) == value * c
  {
    Associate(m, a, c);
    if value < 0 {
      assert value == -(m * a);
      Associate(-(m as int), a, c);
      assert -(m as int) * a == value;
    }
  }

  lemma WritesMagnitude(num: int, den: nat, n: int, d: nat)
    requires den > 0 && Writes(Rational(num, den), n, d)
    ensures Writes(Rational(Abs(num), den), Abs(n), d)
  {
    AbsTimes(n, den);
    AbsTimes(num, Pow10(d));
  }

  /* ---------- which numbers are written ---------- */

  lemma DivideExactly(a: int, b: int) returns (q: int)
    requires b > 0 && a % b == 0
    ensures a == q * b && q == a / b
  {
    q := a / b;
  }

  lemma MultipleOf(q: int, b: int)
    requires b > 0
    ensures (q * b) % b == 0
  {
    Division(q * b, b);
    var p := (q * b) / b;
    if p < q { Ordered(p, q, b); }
    if q < p { Ordered(q, p, b); }
  }

  lemma {:induction false} ScaleFound(r: Rational, d: nat) returns (least: nat)
    requires r.den > 0 && WritableWith(r, d)
    ensures least <= d && LeastScale(r, least)
  {
    hide WritableWith;
    if e: nat :| e < d && WritableWith(r, e) {
      least := ScaleFound(r, e);
    } else {
      least := d;
    }
  }

  // What writes one of two equal fractions writes the other.
  lemma EqualWrites(r: Rational, v: int, scale: nat, n: int, d: nat)
    requires r.den > 0 && Writes(r, v, scale)
    ensures Writes(r, n, d) <==> Writes(Rational(v, Pow10(scale)), n, d)
  {
    var p, q := Pow10(scale), Pow10(d);
    hide Pow10;
    Swap(n, r.den, p);
    Swap(r.num, q, p);
    Swap(v, r.den, q);
    Compare(n * r.den, r.num * q, p);
    Compare(n * p, v * q, r.den);
  }

  lemma WrittenInteger(r: Rational, scale: nat) returns (v: int)
    requires r.den > 0 && WritableWith(r, scale)
    ensures v == r.num * Pow10(scale) / r.den && Writes(r, v, scale)
  {
    v := DivideExactly(r.num * Pow10(scale), r.den);
  }

  lemma Swap(a: int, b: int, c: int)
    ensures a * b * c == a * c * b
  {
  }

  // A number can be written out and read back exactly when it is an integer of at most 2^20 digits over a power of
  // ten of fewer than 2^20 decimals.
  lemma NumberHolds(r: Rational)
    requires r.den > 0
    ensures NumberOf(r) == if Holds(r) then CanonicalText(r) else None
    ensures Holds(r) ==> CanonicalText(r).Some?
  {
    hide Pow10, WritableWith, FormatScaledInteger, CanonicalDecimal, Writes;
    if Holds(r) {
      var n: int, d: nat :| d < MAX_DIGITS && Digits(n) <= MAX_DIGITS && Writes(r, n, d);
      WrittenIsWritable(r, n, d);
      var least := ScaleFound(r, d);
    }
    if Terminates(r) {
      var scale: nat :| scale < MAX_DIGITS && LeastScale(r, scale);
      WrittenLeast(r, scale);
      var v := WrittenInteger(r, scale);
      HoldsAlike(r, v, scale);
      PrintedReads(v, scale);
    }
  }

  lemma WrittenIsWritable(r: Rational, n: int, d: nat)
    requires r.den > 0 && Writes(r, n, d)
    ensures WritableWith(r, d)
  {
    MultipleOf(n, r.den);
  }

  lemma HoldsAlike(r: Rational, v: int, scale: nat)
    requires r.den > 0 && Writes(r, v, scale)
    ensures Holds(r) <==> Holds(Rational(v, Pow10(scale)))
  {
    hide Writes;
    forall n: int, d: nat ensures Writes(r, n, d) <==> Writes(Rational(v, Pow10(scale)), n, d) {
      EqualWrites(r, v, scale, n, d);
    }
  }
}
