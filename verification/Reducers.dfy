/** Reducing the contributions of a group to one value, with exact totals. */
module Reducers {
  import opened Common
  import opened Bags
  import opened DecimalText
  import opened NumberText
  import opened Rounding
  import opened CanonicalKeys
  import opened Grouping
  import opened GroupingLaws

  const ORDERABLE_TYPES: set<string> := {"string", "integer", "number", "timestamp", "duration", "quantity"}

  // A projected result: a match as contributed, a whole number, an exact number, or the text of a rounded one.
  datatype Produced = Kept(value: Match) | Whole(n: int) | Exact(number: Rational) | Text(text: string)

  datatype ReducedMatch = ReducedMatch(produced: Produced, contributors: seq<Provenance>)

  datatype ReduceError = Overflow | BadInput

  datatype Reduced = Values(typeName: string, matches: seq<ReducedMatch>) | NoValue(absentType: string)
      | Failed(error: ReduceError)

  /* ---------- exact totals ---------- */

  function Plus(a: Rational, b: Rational): Rational { Rational(a.num * b.den + b.num * a.den, a.den * b.den) }

  predicate Numeric(typeName: string, m: Match) { m.Value? && m.typeName == typeName && typeName in NUMERIC_TYPES }

  // None when some contribution is not a number of the declared type.
  function ExactSum(typeName: string, cs: seq<Contribution>): Option<Rational> {
    if cs == [] then Some(Rational(0, 1))
    else match ExactSum(typeName, cs[..|cs| - 1])
      case None => None
      case Some(total) =>
        var m := cs[|cs| - 1].value;
        if Numeric(typeName, m) then Some(Plus(total, m.number)) else None
  }

  predicate IsWhole(r: Rational)
    requires r.den > 0
  {
    r.num % r.den == 0
  }

  // Whether a match of the type can hold the number: what the conversion of its text accepts.
  ghost predicate FitsType(typeName: string, r: Rational)
    requires r.den > 0
  {
    match typeName
    case "integer" => IsWhole(r) && InInt64(r.num / r.den)
    case "duration" => IsWhole(r) && InInt64(r.num / r.den)
    case "number" => NumberOf(r).Some?
    case "quantity" => CanonicalText(r).Some? && IsQuantity(r)
    case _ => false
  }

  ghost predicate ValidContributions(cs: seq<Contribution>) {
    forall i :: 0 <= i < |cs| ==> ValidMatch(cs[i].value) && !cs[i].value.Null?
  }

  lemma {:induction false} SumDenominator(typeName: string, cs: seq<Contribution>)
    requires ValidContributions(cs) && ExactSum(typeName, cs).Some?
    ensures ExactSum(typeName, cs).value.den > 0
  {
    if cs != [] {
      SumDenominator(typeName, cs[..|cs| - 1]);
      ProductPositive(ExactSum(typeName, cs[..|cs| - 1]).value.den, cs[|cs| - 1].value.number.den);
    }
  }

  lemma ProductPositive(a: int, b: int)
    requires a > 0 && b > 0
    ensures a * b > 0
  {
  }

  ghost function SumOf(typeName: string, cs: seq<Contribution>): Reduced
    requires ValidContributions(cs)
  {
    match ExactSum(typeName, cs)
    case None => Failed(BadInput)
    case Some(total) =>
      SumDenominator(typeName, cs);
      if FitsType(typeName, total) then Values(typeName, [ReducedMatch(Exact(total), [])]) else Failed(Overflow)
  }

  method ExactContributionSum(typeName: string, cs: seq<Contribution>) returns (total: Option<Rational>)
    ensures total == ExactSum(typeName, cs)
  {
    var running := Rational(0, 1);
    for i := 0 to |cs|
      invariant ExactSum(typeName, cs[..i]) == Some(running)
    {
      assert cs[..i + 1][..i] == cs[..i];
      if !Numeric(typeName, cs[i].value) {
        SumStaysNone(typeName, cs, i + 1);
        return None;
      }
      running := Plus(running, cs[i].value.number);
    }
    assert cs[..|cs|] == cs;
    return Some(running);
  }

  lemma {:induction false} SumStaysNone(typeName: string, cs: seq<Contribution>, n: nat)
    requires n <= |cs| && ExactSum(typeName, cs[..n]).None?
    ensures ExactSum(typeName, cs).None?
  {
    if n == |cs| {
      assert cs[..n] == cs;
    } else {
      var short := cs[..|cs| - 1];
      assert short[..n] == cs[..n];
      SumStaysNone(typeName, short, n);
    }
  }

  // The number a fraction stands for.
  function ValueOf(r: Rational): real
    requires r.den > 0
  {
    r.num as real / r.den as real
  }

  function RealTotal(cs: seq<Contribution>): real
    requires forall i :: 0 <= i < |cs| ==> cs[i].value.Value? && cs[i].value.number.den > 0
  {
    if cs == [] then 0.0 else RealTotal(cs[..|cs| - 1]) + ValueOf(cs[|cs| - 1].value.number)
  }

  lemma RealProduct(a: int, b: int)
    ensures (a * b) as real == a as real * b as real
  {
  }

  lemma PlusDenotes(a: Rational, b: Rational)
    requires a.den > 0 && b.den > 0
    ensures a.den * b.den > 0 && ValueOf(Plus(a, b)) == ValueOf(a) + ValueOf(b)
  {
    ProductPositive(a.den, b.den);
    RealProduct(a.num, b.den);
    RealProduct(b.num, a.den);
    RealProduct(a.den, b.den);
    SumOfFractions(a.num as real, a.den as real, b.num as real, b.den as real);
  }

  lemma SumOfFractions(a: real, b: real, c: real, d: real)
    requires b > 0.0 && d > 0.0
    ensures b * d > 0.0 && (a * d + c * b) / (b * d) == a / b + c / d
  {
    var x, y := a / b, c / d;
    assert a == x * b && c == y * d;
    assert a * d + c * b == (x + y) * (b * d);
  }

  // The exact sum is the sum: as a real number, the total of the contributions.
  lemma {:induction false} SumDenotes(typeName: string, cs: seq<Contribution>)
    requires ValidContributions(cs) && ExactSum(typeName, cs).Some?
    ensures forall i :: 0 <= i < |cs| ==> cs[i].value.Value? && cs[i].value.number.den > 0
    ensures ExactSum(typeName, cs).value.den > 0 && ValueOf(ExactSum(typeName, cs).value) == RealTotal(cs)
  {
    SumDenominator(typeName, cs);
    if cs != [] {
      SumDenotes(typeName, cs[..|cs| - 1]);
      PlusDenotes(ExactSum(typeName, cs[..|cs| - 1]).value, cs[|cs| - 1].value.number);
    }
  }

  /* ---------- whole numbers ---------- */

  function IntTotal(cs: seq<Contribution>): int {
    if cs == [] then 0
    else IntTotal(cs[..|cs| - 1]) + (if cs[|cs| - 1].value.Value? then cs[|cs| - 1].value.number.num else 0)
  }

  ghost predicate AllOf(typeName: string, cs: seq<Contribution>) {
    ValidContributions(cs) && forall i :: 0 <= i < |cs| ==> cs[i].value.typeName == typeName
  }

  lemma {:induction false} WholeSum(typeName: string, cs: seq<Contribution>)
    requires typeName in {"integer", "duration"} && AllOf(typeName, cs)
    ensures ExactSum(typeName, cs) == Some(Rational(IntTotal(cs), 1))
  {
    if cs != [] { WholeSum(typeName, cs[..|cs| - 1]); }
  }

  // A sum of integers or durations overflows exactly when its exact total leaves the signed 64-bit range, whatever
  // the partial totals; otherwise it is that total.
  lemma SumOverflowsExactly(typeName: string, cs: seq<Contribution>)
    requires typeName in {"integer", "duration"} && AllOf(typeName, cs)
    ensures SumOf(typeName, cs) ==
            if InInt64(IntTotal(cs)) then Values(typeName, [ReducedMatch(Exact(Rational(IntTotal(cs), 1)), [])])
            else Failed(Overflow)
  {
    WholeSum(typeName, cs);
  }

  /* ---------- decimals ---------- */

  lemma PlusWritable(a: Rational, b: Rational, k: nat)
    requires a.den > 0 && b.den > 0 && WritableWith(a, k) && WritableWith(b, k)
    ensures a.den * b.den > 0 && WritableWith(Plus(a, b), k)
  {
    var f := Pow10(k);
    var x := DivideExactly(a.num * f, a.den);
    var y := DivideExactly(b.num * f, b.den);
    hide Pow10;
    ProductPositive(a.den, b.den);
    CommonDenominator(a.num, a.den, b.num, b.den, f, x, y);
    MultipleOf(x + y, a.den * b.den);
  }

  lemma CommonDenominator(an: int, ad: int, bn: int, bd: int, f: int, x: int, y: int)
    requires an * f == x * ad && bn * f == y * bd
    ensures (an * bd + bn * ad) * f == (x + y) * (ad * bd)
  {
    assert (an * bd) * f == (an * f) * bd;
    assert (bn * ad) * f == (bn * f) * ad;
    assert (x * ad) * bd == x * (ad * bd);
    assert (y * bd) * ad == y * (ad * bd);
    Distribute(an * bd, bn * ad, f);
    Distribute(x, y, ad * bd);
  }

  lemma Distribute(a: int, b: int, c: int)
    ensures (a + b) * c == a * c + b * c
  {
  }

  lemma {:induction false} SumWritable(typeName: string, cs: seq<Contribution>, k: nat)
    requires AllOf(typeName, cs) && typeName in NUMERIC_TYPES
    requires forall i :: 0 <= i < |cs| ==> cs[i].value.number.den > 0 && WritableWith(cs[i].value.number, k)
    ensures ExactSum(typeName, cs).Some? && ExactSum(typeName, cs).value.den > 0
        && WritableWith(ExactSum(typeName, cs).value, k)
  {
    if cs == [] {
      MultipleOf(0, 1);
    } else {
      SumWritable(typeName, cs[..|cs| - 1], k);
      PlusWritable(ExactSum(typeName, cs[..|cs| - 1]).value, cs[|cs| - 1].value.number, k);
    }
  }

  // A sum of quantities overflows exactly when the magnitude of its exact total exceeds 2^63 - 1, whatever the
  // partial totals.
  lemma QuantitySumOverflowsExactly(cs: seq<Contribution>)
    requires AllOf("quantity", cs)
    ensures ExactSum("quantity", cs).Some?
    ensures var total := ExactSum("quantity", cs).value;
            SumOf("quantity", cs) ==
            if WithinInt64(total) then Values("quantity", [ReducedMatch(Exact(total), [])]) else Failed(Overflow)
  {
    SumWritable("quantity", cs, GRAIN);
    var total := ExactSum("quantity", cs).value;
    hide WritableWith;
    var least := ScaleFound(total, GRAIN);
  }

  // A sum of numbers overflows exactly when its exact total is no integer of at most 2^20 digits over a power of ten
  // of fewer than 2^20 decimals.
  lemma NumberSumOverflowsExactly(cs: seq<Contribution>)
    requires AllOf("number", cs)
    ensures ExactSum("number", cs).Some?
    ensures var total := ExactSum("number", cs).value;
            SumOf("number", cs) ==
            if Holds(total) then Values("number", [ReducedMatch(Exact(total), [])]) else Failed(Overflow)
  {
    NumbersAdd("number", cs);
    SumDenominator("number", cs);
    hide NumberOf;
    NumberHolds(ExactSum("number", cs).value);
  }

  function WholeQuantity(n: int, text: string, p: Provenance): (c: Contribution)
    requires Abs(n) <= MAX_INT64
    ensures AllOf("quantity", [c])
  {
    MultipleOf(n * Pow10(GRAIN), 1);
    Contribution(Value("quantity", Some(text), Rational(n, 1), text), p, 0)
  }

  // Two quantities that convert, with a sum that overflows; taking one off again brings the total back.
  lemma QuantityOverflowWitness(p: Provenance)
    ensures var most := WholeQuantity(MAX_INT64, "9223372036854775807", p);
            var least := WholeQuantity(-MAX_INT64, "-9223372036854775807", p);
            && AllOf("quantity", [most, most]) && AllOf("quantity", [most, most, least])
            && SumOf("quantity", [most, most]) == Failed(Overflow)
            && SumOf("quantity", [most, most, least]).Values?
  {
    var most := WholeQuantity(MAX_INT64, "9223372036854775807", p);
    var least := WholeQuantity(-MAX_INT64, "-9223372036854775807", p);
    assert most.value.number == Rational(MAX_INT64, 1) && least.value.number == Rational(-MAX_INT64, 1);
    hide *;
    TwoTooMany(most);
    ThreeAgainFew(most, least);
  }

  lemma TwoTooMany(most: Contribution)
    requires AllOf("quantity", [most]) && most.value.Value? && most.value.number == Rational(MAX_INT64, 1)
    ensures AllOf("quantity", [most, most])
    ensures ExactSum("quantity", [most, most]) == Some(Rational(2 * MAX_INT64, 1))
    ensures SumOf("quantity", [most, most]) == Failed(Overflow)
  {
    hide ExactSum, SumOf;
    assert [most] + [most] == [most, most];
    AllOfMore("quantity", [most], most);
    AddFirst("quantity", most);
    AddLast("quantity", [most], most);
    QuantitySumOverflowsExactly([most, most]);
  }

  lemma ThreeAgainFew(most: Contribution, least: Contribution)
    requires AllOf("quantity", [most]) && most.value.Value? && most.value.number == Rational(MAX_INT64, 1)
    requires AllOf("quantity", [least]) && least.value.Value? && least.value.number == Rational(-MAX_INT64, 1)
    ensures AllOf("quantity", [most, most, least]) && SumOf("quantity", [most, most, least]).Values?
  {
    hide ExactSum, SumOf;
    assert [most, most] + [least] == [most, most, least];
    TwoTooMany(most);
    AllOfMore("quantity", [most, most], least);
    AddLast("quantity", [most, most], least);
    QuantitySumOverflowsExactly([most, most, least]);
  }

  lemma AllOfMore(typeName: string, cs: seq<Contribution>, c: Contribution)
    requires AllOf(typeName, cs) && AllOf(typeName, [c])
    ensures AllOf(typeName, cs + [c]) && c.value.Value? && c.value.typeName == typeName
  {
    assert [c][0] == c;
  }

  lemma AddLast(typeName: string, cs: seq<Contribution>, c: Contribution)
    requires ExactSum(typeName, cs).Some? && Numeric(typeName, c.value)
    ensures ExactSum(typeName, cs + [c]) == Some(Plus(ExactSum(typeName, cs).value, c.value.number))
  {
    assert (cs + [c])[..|cs|] == cs;
  }

  lemma AddFirst(typeName: string, c: Contribution)
    requires Numeric(typeName, c.value)
    ensures ExactSum(typeName, [c]) == Some(Rational(c.value.number.num, c.value.number.den))
  {
    AddLast(typeName, [], c);
    assert [] + [c] == [c];
  }

  function ExactNumber(r: Rational, text: string, p: Provenance): (c: Contribution)
    requires r.den > 0
    ensures AllOf("number", [c])
  {
    Contribution(Value("number", Some(text), r, text), p, 0)
  }

  // A large and a small number that each convert, with a sum of too many digits: 10^k and 10^-k.
  lemma LopsidedNumbersOverflow(k: nat, large: string, small: string, p: Provenance)
    requires k < MAX_DIGITS <= 2 * k
    ensures var a, b := ExactNumber(Rational(Pow10(k), 1), large, p), ExactNumber(Rational(1, Pow10(k)), small, p);
            && SumOf("number", [a]).Values? && SumOf("number", [b]).Values?
            && AllOf("number", [a, b]) && SumOf("number", [a, b]) == Failed(Overflow)
  {
    EachHolds(k);
    var a, b := ExactNumber(Rational(Pow10(k), 1), large, p), ExactNumber(Rational(1, Pow10(k)), small, p);
    assert a.value.number == Rational(Pow10(k), 1) && b.value.number == Rational(1, Pow10(k));
    hide *;
    OneNumberSums(a);
    OneNumberSums(b);
    TwoNumbersOverflow(k, a, b);
  }

  lemma OneNumberSums(a: Contribution)
    requires AllOf("number", [a]) && a.value.Value? && Holds(a.value.number)
    ensures SumOf("number", [a]).Values?
  {
    hide ExactSum, SumOf, Holds;
    AllOfMore("number", [], a);
    AddFirst("number", a);
    NumberSumOverflowsExactly([a]);
  }

  lemma TwoNumbersOverflow(k: nat, a: Contribution, b: Contribution)
    requires MAX_DIGITS <= 2 * k && AllOf("number", [a]) && AllOf("number", [b]) && a.value.Value? && b.value.Value?
    requires a.value.number == Rational(Pow10(k), 1) && b.value.number == Rational(1, Pow10(k))
    ensures AllOf("number", [a, b]) && SumOf("number", [a, b]) == Failed(Overflow)
  {
    hide ExactSum, SumOf, Holds, Pow10;
    assert [a] + [b] == [a, b] && [] + [a] == [a];
    AllOfMore("number", [], a);
    AllOfMore("number", [a], b);
    AddFirst("number", a);
    AddLast("number", [a], b);
    SumTooLong(k);
    NumberSumOverflowsExactly([a, b]);
  }

  lemma EachHolds(k: nat)
    requires k < MAX_DIGITS
    ensures Holds(Rational(Pow10(k), 1)) && Holds(Rational(1, Pow10(k)))
  {
    PowerDigits(k, Pow10(k));
    assert Pow10(0) == 1 && Digits(1) == 1;
    hide Pow10, Digits;
    assert Writes(Rational(Pow10(k), 1), Pow10(k), 0);
    assert Writes(Rational(1, Pow10(k)), 1, k);
  }

  lemma PowerDigits(k: nat, n: nat)
    requires Pow10(k) <= n
    ensures Digits(n) > k && (n == Pow10(k) ==> Digits(n) == k + 1)
  {
    var s := Decimal(n);
    PositiveDecimal(n);
    DigitsBound(s);
    if |s| < k { Pow10Ordered(|s|, k); }
    if |s| > k + 1 { Pow10Ordered(k, |s| - 1); }
  }

  lemma SumTooLong(k: nat)
    requires MAX_DIGITS <= 2 * k
    ensures !Holds(Rational(Pow10(k) * Pow10(k) + 1, Pow10(k)))
  {
    var r := Rational(Pow10(k) * Pow10(k) + 1, Pow10(k));
    hide Pow10;
    forall n: int, d: nat | Writes(r, n, d) ensures Digits(n) > MAX_DIGITS {
      if d < k {
        LastDigitOne(k);
        SplitPower(n, r.num, k, k, d);
        assert false;
      }
      MoreDecimals(k, n, d);
    }
  }

  lemma LastDigitOne(k: nat)
    requires k > 0
    ensures Pow10(0) == 1 && (Pow10(k) * Pow10(k) + 1) % 10 == 1
  {
    assert Pow10(k) == 10 * Pow10(k - 1);
    hide Pow10;
    TenTimes(Pow10(k), Pow10(k - 1));
  }

  lemma MoreDecimals(k: nat, n: int, d: nat)
    requires k <= d && MAX_DIGITS <= 2 * k && n * Pow10(k) == (Pow10(k) * Pow10(k) + 1) * Pow10(d)
    ensures Digits(n) > MAX_DIGITS
  {
    Pow10Add(d - k, k);
    Pow10Add(k, k);
    hide Pow10, Digits;
    Shifted(n, Pow10(2 * k) + 1, Pow10(d), Pow10(d - k), Pow10(k));
    PowerDigits(2 * k, n);
  }

  lemma Shifted(n: int, m: nat, c: nat, e: nat, k: nat)
    requires e > 0 && k > 0 && c == e * k && n * k == m * c
    ensures n >= m
  {
    Associate(m, e, k);
    Compare(n, m * e, k);
    Larger(m, e);
  }

  lemma {:induction false} NumbersAdd(typeName: string, cs: seq<Contribution>)
    requires AllOf(typeName, cs) && typeName in NUMERIC_TYPES
    ensures ExactSum(typeName, cs).Some?
  {
    if cs != [] { NumbersAdd(typeName, cs[..|cs| - 1]); }
  }

  /* ---------- averages ---------- */

  // The total divided by the number of contributions.
  function Mean(total: Rational, count: nat): Rational { Rational(total.num, total.den * count) }

  function AverageOf(plan: Plan, cs: seq<Contribution>): Reduced
    requires ValidContributions(cs)
  {
    if cs == [] then NoValue(plan.fieldType)
    else match ExactSum(plan.fieldType, cs)
      case None => Failed(BadInput)
      case Some(total) =>
        SumDenominator(plan.fieldType, cs);
        ProductPositive(total.den, |cs|);
        var mean := Mean(total, |cs|);
        MeanOf(plan, mean)
  }

  function MeanOf(plan: Plan, mean: Rational): Reduced
    requires mean.den > 0
  {
    if plan.precision < 0 || plan.precision > MAX_SCALE || plan.roundingMode.UnknownMode? then Failed(Overflow)
    else match CanonicalDecimal(RoundedText(mean, plan.precision, plan.roundingMode))
      case None => Failed(Overflow)
      case Some(text) => Values("number", [ReducedMatch(Text(text), [])])
  }

  function RoundedText(r: Rational, scale: nat, mode: Mode): string
    requires r.den > 0
  {
    FormatScaledInteger(Rounded(r.num * Pow10(scale), r.den, mode), scale)
  }

  // A mean overflows exactly when its rounded value needs more than 2^20 digits; otherwise it is that value's text.
  lemma AverageOverflowsExactly(plan: Plan, mean: Rational)
    requires mean.den > 0 && 0 <= plan.precision <= MAX_SCALE && !plan.roundingMode.UnknownMode?
    ensures var rounded := Rounded(mean.num * Pow10(plan.precision), mean.den, plan.roundingMode);
            MeanOf(plan, mean) ==
            if Holds(Rational(rounded, Pow10(plan.precision)))
            then Values("number", [ReducedMatch(Text(FormatScaledInteger(rounded, plan.precision)), [])])
            else Failed(Overflow)
  {
    hide CanonicalDecimal, FormatScaledInteger, Rounded, Pow10, Holds;
    PrintedReads(Rounded(mean.num * Pow10(plan.precision), mean.den, plan.roundingMode), plan.precision);
  }

  // The integer k is the mean of the contributions times ten to the plan's precision, rounded as the mode asks.
  predicate RoundsMean(plan: Plan, cs: seq<Contribution>, k: int)
    requires ExactSum(plan.fieldType, cs).Some? && plan.precision >= 0
  {
    var total := ExactSum(plan.fieldType, cs).value;
    IsRounding(k, total.num * Pow10(plan.precision), total.den * |cs|, plan.roundingMode)
  }

  // What an average reports: nothing for no contributions, an error for one that is no number or for a precision or
  // mode that does not exist, and otherwise the text, at the precision, of the one integer that rounds the mean.
  ghost predicate AverageMeans(plan: Plan, cs: seq<Contribution>, r: Reduced) {
    if cs == [] then r == NoValue(plan.fieldType)
    else if !(forall i :: 0 <= i < |cs| ==> Numeric(plan.fieldType, cs[i].value)) then r == Failed(BadInput)
    else if plan.precision < 0 || plan.precision > MAX_SCALE || plan.roundingMode.UnknownMode?
    then r == Failed(Overflow)
    else ExactSum(plan.fieldType, cs).Some? && exists k :: ReportsMean(plan, cs, r, k)
  }

  ghost predicate ReportsMean(plan: Plan, cs: seq<Contribution>, r: Reduced, k: int)
    requires ExactSum(plan.fieldType, cs).Some? && plan.precision >= 0
  {
    && RoundsMean(plan, cs, k) && (forall j :: RoundsMean(plan, cs, j) ==> j == k)
    && r == if Holds(Rational(k, Pow10(plan.precision)))
            then Values("number", [ReducedMatch(Text(FormatScaledInteger(k, plan.precision)), [])])
            else Failed(Overflow)
  }

  lemma {:induction false} SumsExactly(typeName: string, cs: seq<Contribution>)
    ensures ExactSum(typeName, cs).Some? <==> forall i :: 0 <= i < |cs| ==> Numeric(typeName, cs[i].value)
  {
    hide Numeric, Plus;
    if cs != [] { SumsExactly(typeName, cs[..|cs| - 1]); }
  }

  // The average is what it means.
  lemma AverageMeant(plan: Plan, cs: seq<Contribution>)
    requires ValidContributions(cs)
    ensures AverageMeans(plan, cs, AverageOf(plan, cs))
  {
    SumsExactly(plan.fieldType, cs);
    if cs != [] && ExactSum(plan.fieldType, cs).Some? && 0 <= plan.precision <= MAX_SCALE
        && !plan.roundingMode.UnknownMode?
    {
      hide Holds, Rounded, IsRounding, FormatScaledInteger, CanonicalDecimal, Pow10, ExactSum, Numeric;
      SumDenominator(plan.fieldType, cs);
      var total := ExactSum(plan.fieldType, cs).value;
      ProductPositive(total.den, |cs|);
      var n, den := total.num * Pow10(plan.precision), total.den * |cs|;
      AverageOverflowsExactly(plan, Mean(total, |cs|));
      var k := Rounded(n, den, plan.roundingMode);
      forall j ensures RoundsMean(plan, cs, j) <==> j == k { RoundingUnique(j, n, den, plan.roundingMode); }
      assert ReportsMean(plan, cs, AverageOf(plan, cs), k);
    }
  }

  lemma {:induction false} TotalBetween(cs: seq<Contribution>, lo: int, hi: int)
    requires ValidContributions(cs) && forall i :: 0 <= i < |cs| ==> lo <= cs[i].value.number.num <= hi
    ensures lo * |cs| <= IntTotal(cs) <= hi * |cs|
  {
    if cs != [] {
      var n := |cs| - 1;
      TotalBetween(cs[..n], lo, hi);
      var x := if cs[n].value.Value? then cs[n].value.number.num else 0;
      OneMore(lo, hi, n, IntTotal(cs[..n]), x);
    }
  }

  lemma OneMore(lo: int, hi: int, n: nat, total: int, x: int)
    requires lo * n <= total <= hi * n && lo <= x <= hi
    ensures lo * (n + 1) <= total + x <= hi * (n + 1)
  {
    Distribute(n, 1, lo);
    Distribute(n, 1, hi);
  }

  // For every precision and mode, the reported average of whole numbers lies between the least and the greatest of
  // them: it is the text of an integer between both, scaled.
  lemma AverageBetween(plan: Plan, cs: seq<Contribution>, r: Reduced, lo: int, hi: int)
    requires plan.fieldType in {"integer", "duration"} && AllOf(plan.fieldType, cs) && cs != []
    requires 0 <= plan.precision <= MAX_SCALE && !plan.roundingMode.UnknownMode?
    requires forall i :: 0 <= i < |cs| ==> lo <= cs[i].value.number.num <= hi
    requires AverageMeans(plan, cs, r)
    ensures exists k :: lo * Pow10(plan.precision) <= k <= hi * Pow10(plan.precision)
                        && r == if Holds(Rational(k, Pow10(plan.precision)))
                                then Values("number", [ReducedMatch(Text(FormatScaledInteger(k, plan.precision)), [])])
                                else Failed(Overflow)
  {
    hide Holds, FormatScaledInteger, Pow10, IsRounding, Rounded;
    var scale, mode := plan.precision, plan.roundingMode;
    WholeSum(plan.fieldType, cs);
    TotalBetween(cs, lo, hi);
    MeanBounds(IntTotal(cs), |cs|, Pow10(scale), lo, hi, mode);
    var k :| ReportsMean(plan, cs, r, k);
    RoundingUnique(k, IntTotal(cs) * Pow10(scale), |cs|, mode);
  }

  lemma MeanBounds(total: int, n: nat, f: nat, lo: int, hi: int, mode: Mode)
    requires n > 0 && f > 0 && lo * n <= total <= hi * n && !mode.UnknownMode?
    ensures lo * f <= Rounded(total * f, n, mode) <= hi * f
  {
    hide Rounded;
    RoundedExact(lo * f, n, mode);
    RoundedExact(hi * f, n, mode);
    Swap(lo, f, n);
    Swap(hi, f, n);
    Compare(lo * n, total, f);
    Compare(total, hi * n, f);
    SameDenominatorMonotone((lo * f) * n, total * f, n, mode);
    SameDenominatorMonotone(total * f, (hi * f) * n, n, mode);
  }

  /* ---------- extrema ---------- */

  function Position(order: Order, m: Match): real {
    if m.Value? && m.payload.Some? then order(m.typeName, m.payload.value) else 0.0
  }

  predicate Comparable(m: Match, n: Match) {
    m.Value? && n.Value? && m.typeName == n.typeName && m.typeName in ORDERABLE_TYPES
  }

  // k is the first of the contributions that no other beats.
  ghost predicate FirstExtremum(order: Order, least: bool, cs: seq<Contribution>, k: nat) {
    && k < |cs|
    && (forall j :: 0 <= j < |cs| ==> !Beats(order, least, cs[j].value, cs[k].value))
    && (forall j :: 0 <= j < k ==> Beats(order, least, cs[k].value, cs[j].value))
  }

  predicate Beats(order: Order, least: bool, m: Match, n: Match) {
    if least then Position(order, m) < Position(order, n) else Position(order, m) > Position(order, n)
  }

  method Extremum(order: Order, least: bool, cs: seq<Contribution>) returns (k: Option<nat>)
    requires cs != []
    ensures k.Some? <==> forall j :: 0 < j < |cs| ==> Comparable(cs[j].value, cs[0].value)
    ensures k.Some? ==> FirstExtremum(order, least, cs, k.value)
  {
    var selected := 0;
    for j := 1 to |cs|
      invariant selected < j && (selected > 0 ==> Comparable(cs[selected].value, cs[0].value))
      invariant forall i :: 0 < i < j ==> Comparable(cs[i].value, cs[0].value)
      invariant FirstExtremum(order, least, cs[..j], selected)
    {
      if !Comparable(cs[j].value, cs[selected].value) { return None; }
      if Beats(order, least, cs[j].value, cs[selected].value) { selected := j; }
    }
    assert cs[..|cs|] == cs;
    return Some(selected);
  }

  lemma FirstExtremumUnique(order: Order, least: bool, cs: seq<Contribution>, j: nat, k: nat)
    requires FirstExtremum(order, least, cs, j) && FirstExtremum(order, least, cs, k)
    ensures j == k
  {
    var a, b := cs[j].value, cs[k].value;
    assert Beats(order, least, a, b) ==> !Beats(order, least, b, a);
  }
}
