/** Distinct values, one aggregate over its groups, and the limits checked before reducing. */
module Aggregates {
  import opened Common
  import opened Bags
  import opened NumberText
  import opened Rounding
  import opened CanonicalKeys
  import opened Grouping
  import opened GroupingLaws
  import opened Reducers

  /* ---------- distinct values ---------- */

  function KeyOf(typeName: string): Contribution -> Option<string> {
    (c: Contribution) => CanonicalKey(typeName, c.value)
  }

  function Keyed(typeName: string, key: Option<string>): Contribution -> seq<Contribution> {
    (c: Contribution) => if KeyOf(typeName)(c) == key then [c] else []
  }

  function WithKey(typeName: string, key: Option<string>, cs: seq<Contribution>): seq<Contribution> {
    FlatMap(Keyed(typeName, key), cs)
  }

  // The different keys, in order of first appearance.
  function DistinctKeys(typeName: string, cs: seq<Contribution>): seq<Option<string>> {
    Unique(Map(KeyOf(typeName), cs))
  }

  // The first of some equal matches, and everyone who contributed one.
  function MatchOf(plan: Plan, same: seq<Contribution>): ReducedMatch {
    ReducedMatch(Kept(if same == [] then Null("") else same[0].value),
                 if plan.includeProvenance then Unique(Map(ProvenanceOf, same)) else [])
  }

  function DistinctMatch(plan: Plan, cs: seq<Contribution>): Option<string> -> ReducedMatch {
    (key: Option<string>) => MatchOf(plan, WithKey(plan.fieldType, key, cs))
  }

  function DistinctMatches(plan: Plan, cs: seq<Contribution>): seq<ReducedMatch> {
    Map(DistinctMatch(plan, cs), DistinctKeys(plan.fieldType, cs))
  }

  // The match of a value seen for the first time, and of one seen again.
  function FirstMatch(plan: Plan, c: Contribution): ReducedMatch {
    ReducedMatch(Kept(c.value), if plan.includeProvenance then [c.provenance] else [])
  }

  function SeenAgain(plan: Plan, m: ReducedMatch, c: Contribution): ReducedMatch {
    if plan.includeProvenance then m.(contributors := AppendUnique(m.contributors, c.provenance)) else m
  }

  lemma KeysMore(typeName: string, cs: seq<Contribution>, c: Contribution)
    ensures var k := KeyOf(typeName)(c);
            DistinctKeys(typeName, cs + [c]) ==
            if k in DistinctKeys(typeName, cs) then DistinctKeys(typeName, cs) else DistinctKeys(typeName, cs) + [k]
  {
    MapAppend(KeyOf(typeName), cs, c);
    var ks := Map(KeyOf(typeName), cs);
    assert (ks + [KeyOf(typeName)(c)])[..|ks|] == ks;
  }

  lemma WithKeyMore(typeName: string, key: Option<string>, cs: seq<Contribution>, c: Contribution)
    ensures WithKey(typeName, key, cs + [c]) == WithKey(typeName, key, cs)
        + (if KeyOf(typeName)(c) == key then [c] else [])
  {
    FlatMapConcat(Keyed(typeName, key), cs, [c]);
    FlatMapOne(Keyed(typeName, key), c);
  }

  lemma KnownKey(typeName: string, key: Option<string>, cs: seq<Contribution>)
    ensures key in DistinctKeys(typeName, cs) <==> WithKey(typeName, key, cs) != []
  {
    UniqueMembers(Map(KeyOf(typeName), cs));
    if key in DistinctKeys(typeName, cs) {
      var i: nat :| i < |cs| && Map(KeyOf(typeName), cs)[i] == key;
      FlatMapHolds(Keyed(typeName, key), cs, i, cs[i]);
    }
    if WithKey(typeName, key, cs) != [] {
      var i := FlatMapMember(Keyed(typeName, key), cs, WithKey(typeName, key, cs)[0]);
      assert Map(KeyOf(typeName), cs)[i] == key;
    }
  }

  lemma MatchMore(plan: Plan, same: seq<Contribution>, c: Contribution)
    ensures MatchOf(plan, same + [c]) == if same == [] then FirstMatch(plan, c)
        else SeenAgain(plan, MatchOf(plan, same), c)
  {
    MapAppend(ProvenanceOf, same, c);
    var ps := Map(ProvenanceOf, same);
    hide Map;
    assert (ps + [c.provenance])[..|ps|] == ps;
    if same == [] {
      assert ps == [] && ps + [c.provenance] == [c.provenance];
      UniqueOne(c.provenance);
    }
  }

  // A contribution with a new key adds a match; one with a known key changes at most that match's contributors.
  lemma DistinctMore(plan: Plan, cs: seq<Contribution>, c: Contribution, key: Option<string>)
    ensures var k := KeyOf(plan.fieldType)(c);
            var before, after := DistinctMatch(plan, cs)(key), DistinctMatch(plan, cs + [c])(key);
            if key != k then after == before
            else if k in DistinctKeys(plan.fieldType, cs) then after == SeenAgain(plan, before, c)
            else after == FirstMatch(plan, c)
  {
    hide MatchOf, WithKey, DistinctKeys;
    WithKeyMore(plan.fieldType, key, cs, c);
    KnownKey(plan.fieldType, key, cs);
    var same := WithKey(plan.fieldType, key, cs);
    MatchMore(plan, same, c);
    assert same + [] == same;
  }

  lemma SameKeyMatches(plan: Plan, cs: seq<Contribution>, c: Contribution)
    requires KeyOf(plan.fieldType)(c) in DistinctKeys(plan.fieldType, cs)
    ensures var keys, k := DistinctKeys(plan.fieldType, cs), KeyOf(plan.fieldType)(c);
            var before, after := DistinctMatches(plan, cs), DistinctMatches(plan, cs + [c]);
            && |after| == |before| == |keys|
            && forall j :: 0 <= j < |keys| ==> after[j] == if keys[j] == k then SeenAgain(plan, before[j], c)
                 else before[j]
  {
    hide DistinctKeys, DistinctMatch, KeyOf;
    var keys := DistinctKeys(plan.fieldType, cs);
    KeysMore(plan.fieldType, cs, c);
    forall j | 0 <= j < |keys|
      ensures DistinctMatches(plan, cs + [c])[j]
           == if keys[j] == KeyOf(plan.fieldType)(c) then SeenAgain(plan, DistinctMatches(plan, cs)[j], c)
               else DistinctMatches(plan, cs)[j]
    {
      DistinctMore(plan, cs, c, keys[j]);
    }
  }

  lemma NewKeyMatches(plan: Plan, cs: seq<Contribution>, c: Contribution)
    requires KeyOf(plan.fieldType)(c) !in DistinctKeys(plan.fieldType, cs)
    ensures DistinctMatches(plan, cs + [c]) == DistinctMatches(plan, cs) + [FirstMatch(plan, c)]
  {
    hide DistinctKeys, DistinctMatch, KeyOf;
    var keys, k := DistinctKeys(plan.fieldType, cs), KeyOf(plan.fieldType)(c);
    KeysMore(plan.fieldType, cs, c);
    DistinctMore(plan, cs, c, k);
    MapAppend(DistinctMatch(plan, cs + [c]), keys, k);
    forall j | 0 <= j < |keys| ensures Map(DistinctMatch(plan, cs + [c]), keys)[j] == DistinctMatches(plan, cs)[j] {
      DistinctMore(plan, cs, c, keys[j]);
    }
    assert Map(DistinctMatch(plan, cs + [c]), keys) == DistinctMatches(plan, cs);
  }

  method DistinctValues(plan: Plan, cs: seq<Contribution>) returns (r: Reduced)
    ensures r == if exists i :: 0 <= i < |cs| && CanonicalKey(plan.fieldType, cs[i].value) == None then Failed(BadInput)
                 else Values(plan.fieldType, DistinctMatches(plan, cs))
  {
    hide DistinctMatch, DistinctKeys, CanonicalKey, DistinctMatches, Indexes;
    var seen: map<string, nat> := map[];
    var matches: seq<ReducedMatch> := [];
    NothingDistinct(plan);
    for i := 0 to |cs|
      invariant forall j :: 0 <= j < i ==> CanonicalKey(plan.fieldType, cs[j].value) != None
      invariant matches == DistinctMatches(plan, cs[..i])
      invariant Indexes(seen, DistinctKeys(plan.fieldType, cs[..i]))
    {
      var c := cs[i];
      var key := MakeCanonicalKey(plan.fieldType, c.value);
      if key.None? { return Failed(BadInput); }
      ghost var keys := DistinctKeys(plan.fieldType, cs[..i]);
      assert cs[..i + 1] == cs[..i] + [c];
      assert KeyOf(plan.fieldType)(c) == key;
      KeysMore(plan.fieldType, cs[..i], c);
      MatchPerKey(plan, cs[..i]);
      IndexedKeys(seen, keys, key.value);
      if key.value !in seen {
        NewKeyMatches(plan, cs[..i], c);
        seen := seen[key.value := |matches|];
        matches := matches + [FirstMatch(plan, c)];
      } else {
        SameKeyMatches(plan, cs[..i], c);
        if plan.includeProvenance {
          var index := seen[key.value];
          var contributors := AppendUniqueProvenance(matches[index].contributors, c.provenance);
          matches := matches[index := matches[index].(contributors := contributors)];
        }
        assert matches == DistinctMatches(plan, cs[..i + 1]);
      }
    }
    assert cs[..|cs|] == cs;
    return Values(plan.fieldType, matches);
  }

  // The index map knows where each key is.
  ghost predicate Indexes(seen: map<string, nat>, keys: seq<Option<string>>) {
    && Different(keys)
    && (forall k :: k in seen ==> seen[k] < |keys| && keys[seen[k]] == Some(k))
    && (forall j :: 0 <= j < |keys| ==> keys[j].Some? && keys[j].value in seen && seen[keys[j].value] == j)
  }

  lemma IndexedKeys(seen: map<string, nat>, keys: seq<Option<string>>, k: string)
    requires Indexes(seen, keys)
    ensures k in seen <==> Some(k) in keys
    ensures k in seen ==> seen[k] < |keys| && forall j :: 0 <= j < |keys| ==> (keys[j] == Some(k) <==> j == seen[k])
    ensures k !in seen ==> Indexes(seen[k := |keys|], keys + [Some(k)])
  {
  }

  lemma MatchPerKey(plan: Plan, cs: seq<Contribution>)
    ensures |DistinctMatches(plan, cs)| == |DistinctKeys(plan.fieldType, cs)|
  {
  }

  lemma NothingDistinct(plan: Plan)
    ensures DistinctMatches(plan, []) == [] && DistinctKeys(plan.fieldType, []) == []
    ensures Indexes(map[], [])
  {
  }

  /* ---------- one group ---------- */

  function Collected(plan: Plan): Contribution -> ReducedMatch {
    (c: Contribution) => FirstMatch(plan, c)
  }

  ghost predicate Reduces(order: Order, plan: Plan, cs: seq<Contribution>, r: Reduced)
    requires ValidContributions(cs)
  {
    match plan.reducer
    case Collect => r == Values(plan.fieldType, Map(Collected(plan), cs))
    case Count => r == Values("integer", [ReducedMatch(Whole(|cs|), [])])
    case Sum => r == SumOf(plan.fieldType, cs)
    case Average => r == AverageOf(plan, cs)
    case Min => ReducesExtremum(order, true, plan, cs, r)
    case Max => ReducesExtremum(order, false, plan, cs, r)
    case First => r == if cs == [] then NoValue(plan.fieldType)
        else Values(plan.fieldType, [ReducedMatch(Kept(cs[0].value), [])])
    case Last => r == if cs == [] then NoValue(plan.fieldType)
        else Values(plan.fieldType, [ReducedMatch(Kept(cs[|cs| - 1].value), [])])
    case Distinct =>
      r == if exists i :: 0 <= i < |cs| && CanonicalKey(plan.fieldType, cs[i].value) == None then Failed(BadInput)
           else Values(plan.fieldType, DistinctMatches(plan, cs))
    case UnknownFunction(_) => r == Failed(BadInput)
  }

  ghost predicate ReducesExtremum(order: Order, least: bool, plan: Plan, cs: seq<Contribution>, r: Reduced) {
    if cs == [] then r == NoValue(plan.fieldType)
    else if exists j :: 0 < j < |cs| && !Comparable(cs[j].value, cs[0].value) then r == Failed(BadInput)
    else exists k: nat ::
        FirstExtremum(order, least, cs, k) && r == Values(plan.fieldType, [ReducedMatch(Kept(cs[k].value), [])])
  }

  // The contributions determine the value.
  lemma ReductionUnique(order: Order, plan: Plan, cs: seq<Contribution>, r: Reduced, s: Reduced)
    requires ValidContributions(cs) && Reduces(order, plan, cs, r) && Reduces(order, plan, cs, s)
    ensures r == s
  {
    hide SumOf, AverageOf, DistinctMatches, FirstExtremum;
    if plan.reducer.Min? || plan.reducer.Max? {
      ExtremumUnique(order, plan.reducer.Min?, plan, cs, r, s);
    }
  }

  lemma ExtremumUnique(order: Order, least: bool, plan: Plan, cs: seq<Contribution>, r: Reduced, s: Reduced)
    requires ReducesExtremum(order, least, plan, cs, r) && ReducesExtremum(order, least, plan, cs, s)
    ensures r == s
  {
    if cs != [] && !(exists j :: 0 < j < |cs| && !Comparable(cs[j].value, cs[0].value)) {
      var k: nat :| FirstExtremum(order, least, cs, k)
          && r == Values(plan.fieldType, [ReducedMatch(Kept(cs[k].value), [])]);
      var m: nat :| FirstExtremum(order, least, cs, m)
          && s == Values(plan.fieldType, [ReducedMatch(Kept(cs[m].value), [])]);
      FirstExtremumUnique(order, least, cs, k, m);
    }
  }

  method SumMatch(typeName: string, cs: seq<Contribution>) returns (r: Reduced)
    requires ValidContributions(cs)
    ensures r == SumOf(typeName, cs)
  {
    hide CanonicalText, CanonicalDecimal, IsQuantity;
    var total := ExactContributionSum(typeName, cs);
    if total.None? { return Failed(BadInput); }
    SumDenominator(typeName, cs);
    var fits := false;
    match typeName {
      case "integer" => fits := IsWhole(total.value) && InInt64(total.value.num / total.value.den);
      case "duration" => fits := IsWhole(total.value) && InInt64(total.value.num / total.value.den);
      case "number" =>
        var text := CanonicalRationalDecimal(total.value);
        fits := text.Some? && CanonicalDecimal(text.value).Some?;
      case "quantity" =>
        var text := CanonicalRationalDecimal(total.value);
        fits := text.Some? && IsQuantity(total.value);
      case _ =>
    }
    return if fits then Values(typeName, [ReducedMatch(Exact(total.value), [])]) else Failed(Overflow);
  }

  method AverageMatch(plan: Plan, cs: seq<Contribution>) returns (r: Reduced)
    requires ValidContributions(cs)
    ensures r == AverageOf(plan, cs) && AverageMeans(plan, cs, r)
  {
    AverageMeant(plan, cs);
    hide AverageMeans, FormatScaledInteger, Rounded, CanonicalDecimal;
    if cs == [] { return NoValue(plan.fieldType); }
    var total := ExactContributionSum(plan.fieldType, cs);
    if total.None? { return Failed(BadInput); }
    SumDenominator(plan.fieldType, cs);
    ProductPositive(total.value.den, |cs|);
    var text := RoundRationalDecimal(Mean(total.value, |cs|), plan.precision, plan.roundingMode);
    match text
    case Printed(t) =>
      var number := CanonicalDecimal(t);
      r := if number.None? then Failed(Overflow) else Values("number", [ReducedMatch(Text(number.value), [])]);
    case BadPrecision => r := Failed(Overflow);
    case BadMode => r := Failed(Overflow);
  }

  method CollectMatches(plan: Plan, cs: seq<Contribution>) returns (matches: seq<ReducedMatch>)
    ensures matches == Map(Collected(plan), cs)
  {
    matches := [];
    for i := 0 to |cs|
      invariant matches == Map(Collected(plan), cs[..i])
    {
      MapAppend(Collected(plan), cs[..i], cs[i]);
      assert cs[..i + 1] == cs[..i] + [cs[i]];
      matches := matches + [FirstMatch(plan, cs[i])];
    }
    assert cs[..|cs|] == cs;
  }

  method ReduceGroup(order: Order, plan: Plan, cs: seq<Contribution>) returns (r: Reduced)
    requires ValidContributions(cs)
    ensures Reduces(order, plan, cs, r)
  {
    hide SumOf, AverageOf, DistinctMatches, Comparable, FirstExtremum, ValidContributions;
    match plan.reducer
    case Collect =>
      var matches := CollectMatches(plan, cs);
      r := Values(plan.fieldType, matches);
    case Count => r := Values("integer", [ReducedMatch(Whole(|cs|), [])]);
    case Sum => r := SumMatch(plan.fieldType, cs);
    case Average => r := AverageMatch(plan, cs);
    case Min => r := ReduceExtremum(order, true, plan, cs);
    case Max => r := ReduceExtremum(order, false, plan, cs);
    case First => r := if cs == [] then NoValue(plan.fieldType)
        else Values(plan.fieldType, [ReducedMatch(Kept(cs[0].value), [])]);
    case Last => r := if cs == [] then NoValue(plan.fieldType)
        else Values(plan.fieldType, [ReducedMatch(Kept(cs[|cs| - 1].value), [])]);
    case Distinct => r := DistinctValues(plan, cs);
    case UnknownFunction(_) => r := Failed(BadInput);
  }

  method ReduceExtremum(order: Order, least: bool, plan: Plan, cs: seq<Contribution>) returns (r: Reduced)
    ensures ReducesExtremum(order, least, plan, cs, r)
  {
    hide FirstExtremum, Comparable;
    if cs == [] { return NoValue(plan.fieldType); }
    var k := Extremum(order, least, cs);
    if k.None? { return Failed(BadInput); }
    assert k.value < |cs| by { ExtremumInside(order, least, cs, k.value); }
    return Values(plan.fieldType, [ReducedMatch(Kept(cs[k.value].value), [])]);
  }

  lemma ExtremumInside(order: Order, least: bool, cs: seq<Contribution>, k: nat)
    requires FirstExtremum(order, least, cs, k)
    ensures k < |cs|
  {
  }

  /* ---------- one aggregate ---------- */

  datatype AggregateGroup = AggregateGroup(keys: seq<GroupKey>, value: Reduced, contributors: seq<Provenance>)

  datatype Aggregate = Reported(groups: seq<AggregateGroup>, failures: seq<Failure>, degraded: bool)
      | Errored(error: ReduceError)

  // Without grouping fields there is always one group, if only an empty one.
  function Effective(plan: Plan, groups: seq<Group>): seq<Group> {
    if groups == [] && plan.groupBy == [] then [Group([], [], [])] else groups
  }

  ghost predicate AllValid(groups: seq<Group>) {
    forall i :: 0 <= i < |groups| ==> ValidContributions(groups[i].contributions)
  }

  ghost predicate ReportOf(order: Order, plan: Plan, g: Group, a: AggregateGroup)
    requires ValidContributions(g.contributions)
  {
    && a.keys == g.keys && Reduces(order, plan, g.contributions, a.value) && !a.value.Failed?
    && a.contributors == if plan.includeProvenance then g.contributors else []
  }

  ghost predicate Succeeds(order: Order, plan: Plan, cs: seq<Contribution>)
    requires ValidContributions(cs)
  {
    exists v: Reduced :: Reduces(order, plan, cs, v) && !v.Failed?
  }

  // Group i is the first whose reduction fails, with this error.
  ghost predicate FailsFirst(order: Order, plan: Plan, groups: seq<Group>, i: nat, e: ReduceError)
    requires i < |groups|
  {
    && (forall j :: 0 <= j <= i ==> ValidContributions(groups[j].contributions))
    && (forall j :: 0 <= j < i ==> Succeeds(order, plan, groups[j].contributions))
    && Reduces(order, plan, groups[i].contributions, Failed(e))
  }

  method ReduceAggregate(order: Order, plan: Plan, groups: seq<Group>, failures: seq<Failure>) returns (a: Aggregate)
    requires AllValid(groups)
    ensures var eff := Effective(plan, groups);
            match a
            case Reported(reported, fs, degraded) =>
              && fs == failures && degraded == (failures != []) && |reported| == |eff|
              && forall i :: 0 <= i < |eff| ==>
                   ValidContributions(eff[i].contributions) && ReportOf(order, plan, eff[i], reported[i])
            case Errored(e) =>
              exists i :: 0 <= i < |eff| && FailsFirst(order, plan, eff, i, e)
  {
    hide Reduces, ValidContributions;
    var eff := Effective(plan, groups);
    assert forall i :: 0 <= i < |eff| ==> ValidContributions(eff[i].contributions) by { NothingIsValid(); }
    var reported: seq<AggregateGroup> := [];
    for i := 0 to |eff|
      invariant |reported| == i
      invariant forall j :: 0 <= j < i ==> ReportOf(order, plan, eff[j], reported[j])
      invariant forall j :: 0 <= j < i ==> Succeeds(order, plan, eff[j].contributions)
    {
      var value := ReduceGroup(order, plan, eff[i].contributions);
      if value.Failed? {
        assert FailsFirst(order, plan, eff, i, value.error);
        return Errored(value.error);
      }
      reported := reported
          + [AggregateGroup(eff[i].keys, value, if plan.includeProvenance then eff[i].contributors else [])];
    }
    return Reported(reported, failures, failures != []);
  }

  lemma NothingIsValid()
    ensures ValidContributions([])
  {
  }
}
