/** The limits counted before reducing are those of the result, and what a report depends on. */
module AggregateLimits {
  import opened Common
  import opened Bags
  import opened Sorting
  import opened CanonicalKeys
  import opened Grouping
  import opened GroupingLaws
  import opened GroupingOrder
  import opened Reducers
  import opened Aggregates

  /* ---------- counting before reducing ---------- */

  function TextFor(typeName: string, c: Contribution): seq<string> {
    match CanonicalKey(typeName, c.value) case None => [] case Some(text) => [text]
  }

  function TextOf(typeName: string): Contribution -> seq<string> {
    (c: Contribution) => TextFor(typeName, c)
  }

  // The different key texts, in order of first appearance; matches without a key are passed over.
  function DistinctTexts(typeName: string, cs: seq<Contribution>): seq<string> {
    Unique(FlatMap(TextOf(typeName), cs))
  }

  function UidOf(c: Contribution): string { c.provenance.uid }

  // The UIDs that contributed a value, and how many there are.
  function Uids(typeName: string, cs: seq<Contribution>, text: string): set<string> {
    Elements(Map(UidOf, WithKey(typeName, Some(text), cs)))
  }

  function UidsUnder(typeName: string, cs: seq<Contribution>): string -> nat {
    (text: string) => |Uids(typeName, cs, text)|
  }

  datatype Counts = Counts(contributions: nat, collected: nat, distinct: nat, entries: nat)

  function Add(a: Counts, b: Counts): Counts {
    Counts(a.contributions + b.contributions, a.collected + b.collected, a.distinct + b.distinct, a.entries + b.entries)
  }

  function DistinctEntries(plan: Plan, cs: seq<Contribution>): nat {
    SumOver(UidsUnder(plan.fieldType, cs), DistinctTexts(plan.fieldType, cs))
  }

  function GroupCounts(plan: Plan, g: Group): Counts {
    Counts(|g.contributions|,
           if plan.reducer.Collect? then |g.contributions| else 0,
           if plan.reducer.Distinct? then |DistinctTexts(plan.fieldType, g.contributions)| else 0,
           if !plan.includeProvenance then 0
           else |g.contributors| + (match plan.reducer
                                    case Collect => |g.contributions|
                                    case Distinct => DistinctEntries(plan, g.contributions)
                                    case _ => 0))
  }

  function TotalCounts(plan: Plan, groups: seq<Group>): Counts {
    if groups == [] then Counts(0, 0, 0, 0)
    else Add(TotalCounts(plan, groups[..|groups| - 1]), GroupCounts(plan, groups[|groups| - 1]))
  }

  predicate Within(l: Limits, groups: nat, c: Counts) {
    && groups <= l.maxGroups && c.contributions <= l.maxContributions && c.collected <= l.maxCollectedValues
    && c.distinct <= l.maxDistinctValues && c.entries <= l.maxProvenanceEntries
  }

  /* ---------- the counting loops ---------- */

  method CountDistinct(typeName: string, cs: seq<Contribution>) returns (n: nat)
    ensures n == |DistinctTexts(typeName, cs)|
  {
    var seen: set<string> := {};
    for i := 0 to |cs|
      invariant seen == Elements(FlatMap(TextOf(typeName), cs[..i]))
    {
      TextsMore(typeName, cs[..i], cs[i]);
      assert cs[..i + 1] == cs[..i] + [cs[i]];
      var key := MakeCanonicalKey(typeName, cs[i].value);
      if key.None? { continue; }
      seen := seen + {key.value};
    }
    assert cs[..|cs|] == cs;
    UniqueSize(FlatMap(TextOf(typeName), cs));
    return |seen|;
  }

  lemma TextsMore(typeName: string, cs: seq<Contribution>, c: Contribution)
    ensures var key := CanonicalKey(typeName, c.value);
            Elements(FlatMap(TextOf(typeName), cs + [c]))
            == Elements(FlatMap(TextOf(typeName), cs)) + (if key.Some? then {key.value} else {})
  {
    FlatMapConcat(TextOf(typeName), cs, [c]);
    FlatMapOne(TextOf(typeName), c);
  }

  // The UIDs per value, with the values in order of first appearance.
  method DistinctProvenanceCounts(typeName: string, cs: seq<Contribution>)
    returns (texts: seq<string>, counts: map<string, nat>)
    ensures texts == DistinctTexts(typeName, cs) && forall t :: t in texts ==>
        t in counts && counts[t] == UidsUnder(typeName, cs)(t)
  {
    hide CanonicalKey, DistinctTexts, Uids, Tallies;
    var sets: map<string, set<string>> := map[];
    texts := [];
    NoTally(typeName);
    assert cs[..0] == [];
    for i := 0 to |cs|
      invariant Tallies(typeName, cs[..i], texts, sets)
    {
      var c := cs[i];
      assert cs[..i + 1] == cs[..i] + [c];
      TallyMore(typeName, cs[..i], c, texts, sets);
      var key := MakeCanonicalKey(typeName, c.value);
      if key.None? { continue; }
      if key.value !in sets {
        sets := sets[key.value := {}];
        texts := texts + [key.value];
      }
      sets := sets[key.value := sets[key.value] + {c.provenance.uid}];
    }
    assert cs[..|cs|] == cs;
    TallyRead(typeName, cs, texts, sets);
    counts := map t | t in sets :: |sets[t]|;
  }

  lemma TallyRead(typeName: string, cs: seq<Contribution>, texts: seq<string>, sets: map<string, set<string>>)
    requires Tallies(typeName, cs, texts, sets)
    ensures texts == DistinctTexts(typeName, cs)
    ensures forall t :: t in texts ==> t in sets && |sets[t]| == UidsUnder(typeName, cs)(t)
  {
  }

  lemma NoTally(typeName: string)
    ensures Tallies(typeName, [], [], map[])
  {
    NoTexts(typeName);
  }

  // The values seen so far, each with its UIDs.
  ghost predicate Tallies(typeName: string, cs: seq<Contribution>, texts: seq<string>, sets: map<string, set<string>>) {
    && texts == DistinctTexts(typeName, cs) && (forall t :: t in texts <==> t in sets)
    && forall t :: t in sets ==> sets[t] == Uids(typeName, cs, t)
  }

  lemma TallyMore(typeName: string, cs: seq<Contribution>, c: Contribution, texts: seq<string>,
      sets: map<string, set<string>>)
    requires Tallies(typeName, cs, texts, sets)
    ensures match CanonicalKey(typeName, c.value)
            case None => Tallies(typeName, cs + [c], texts, sets)
            case Some(key) =>
              if key in sets then Tallies(typeName, cs + [c], texts, sets[key := sets[key] + {c.provenance.uid}])
              else Tallies(typeName, cs + [c], texts + [key], sets[key := {}][key := {} + {c.provenance.uid}])
  {
    hide CanonicalKey, DistinctTexts, Uids;
    DistinctTextsMore(typeName, cs, c);
    forall t: string
      ensures Uids(typeName, cs + [c], t)
           == Uids(typeName, cs, t) + (if CanonicalKey(typeName, c.value) == Some(t) then {c.provenance.uid} else {})
    {
      UidsMore(typeName, cs, c, t);
    }
    match CanonicalKey(typeName, c.value)
    case None =>
    case Some(key) => if key !in sets { NoUids(typeName, cs, key); }
  }

  lemma NoTexts(typeName: string)
    ensures DistinctTexts(typeName, []) == []
  {
  }

  lemma UidsMore(typeName: string, cs: seq<Contribution>, c: Contribution, t: string)
    ensures Uids(typeName, cs + [c], t) == Uids(typeName, cs, t)
        + (if CanonicalKey(typeName, c.value) == Some(t) then {c.provenance.uid} else {})
  {
    WithKeyMore(typeName, Some(t), cs, c);
    var same := WithKey(typeName, Some(t), cs);
    hide WithKey;
    if CanonicalKey(typeName, c.value) == Some(t) {
      MapAppend(UidOf, same, c);
      assert Elements(Map(UidOf, same) + [UidOf(c)]) == Elements(Map(UidOf, same)) + {UidOf(c)};
    } else {
      assert same + [] == same;
    }
  }

  lemma TextKnown(typeName: string, cs: seq<Contribution>, t: string)
    ensures t in DistinctTexts(typeName, cs) <==> WithKey(typeName, Some(t), cs) != []
  {
    hide CanonicalKey;
    UniqueMembers(FlatMap(TextOf(typeName), cs));
    if t in DistinctTexts(typeName, cs) {
      var i := FlatMapMember(TextOf(typeName), cs, t);
      assert t in TextFor(typeName, cs[i]);
      assert KeyOf(typeName)(cs[i]) == CanonicalKey(typeName, cs[i].value) == Some(t);
      assert Keyed(typeName, Some(t))(cs[i]) == [cs[i]];
      FlatMapHolds(Keyed(typeName, Some(t)), cs, i, cs[i]);
    }
    if WithKey(typeName, Some(t), cs) != [] {
      var i := FlatMapMember(Keyed(typeName, Some(t)), cs, WithKey(typeName, Some(t), cs)[0]);
      assert KeyOf(typeName)(cs[i]) == Some(t);
      assert TextFor(typeName, cs[i]) == [t];
      FlatMapHolds(TextOf(typeName), cs, i, t);
    }
  }

  lemma NoUids(typeName: string, cs: seq<Contribution>, t: string)
    requires t !in DistinctTexts(typeName, cs)
    ensures Uids(typeName, cs, t) == {}
  {
    TextKnown(typeName, cs, t);
  }

  lemma DistinctTextsMore(typeName: string, cs: seq<Contribution>, c: Contribution)
    ensures var key, texts := CanonicalKey(typeName, c.value), DistinctTexts(typeName, cs);
            DistinctTexts(typeName, cs + [c]) == if key.None? || key.value in texts then texts else texts + [key.value]
  {
    FlatMapConcat(TextOf(typeName), cs, [c]);
    FlatMapOne(TextOf(typeName), c);
    var all := FlatMap(TextOf(typeName), cs);
    hide FlatMap;
    match CanonicalKey(typeName, c.value)
    case None => assert all + [] == all;
    case Some(text) => assert (all + [text])[..|all|] == all;
  }

  method CountDistinctEntries(plan: Plan, cs: seq<Contribution>) returns (n: nat)
    ensures n == DistinctEntries(plan, cs)
  {
    var texts, counts := DistinctProvenanceCounts(plan.fieldType, cs);
    hide DistinctTexts, UidsUnder;
    n := 0;
    for i := 0 to |texts|
      invariant n == SumOver(UidsUnder(plan.fieldType, cs), texts[..i])
    {
      assert texts[..i + 1][..i] == texts[..i];
      n := n + counts[texts[i]];
    }
    assert texts[..|texts|] == texts;
  }

  method AggregateLimitFailure(plan: Plan, groups: seq<Group>) returns (exceeded: bool)
    ensures exceeded == !Within(plan.limits, |groups|, TotalCounts(plan, groups))
  {
    hide DistinctTexts, DistinctEntries;
    if |groups| > plan.limits.maxGroups { return true; }
    var contributions: nat, collected: nat, distinct: nat, entries: nat := 0, 0, 0, 0;
    for i := 0 to |groups|
      invariant TotalCounts(plan, groups[..i]) == Counts(contributions, collected, distinct, entries)
    {
      var g := groups[i];
      assert groups[..i + 1][..i] == groups[..i];
      contributions := contributions + |g.contributions|;
      if plan.includeProvenance { entries := entries + |g.contributors|; }
      if plan.reducer.Collect? { collected := collected + |g.contributions|; }
      if plan.reducer.Distinct? {
        var n := CountDistinct(plan.fieldType, g.contributions);
        distinct := distinct + n;
      }
      if plan.includeProvenance && plan.reducer.Collect? { entries := entries + |g.contributions|; }
      if plan.includeProvenance && plan.reducer.Distinct? {
        var n := CountDistinctEntries(plan, g.contributions);
        entries := entries + n;
      }
    }
    assert groups[..|groups|] == groups;
    return contributions > plan.limits.maxContributions || collected > plan.limits.maxCollectedValues
        || distinct > plan.limits.maxDistinctValues || entries > plan.limits.maxProvenanceEntries;
  }

  /* ---------- what a report emits ---------- */

  function Contributors(m: ReducedMatch): nat { |m.contributors| }

  function MatchesOf(r: Reduced): seq<ReducedMatch> { if r.Values? then r.matches else [] }

  // The values of a collected or a distinct result, and every provenance entry shown.
  function Emitted(plan: Plan, contributions: nat, a: AggregateGroup): Counts {
    Counts(contributions,
           if plan.reducer.Collect? then |MatchesOf(a.value)| else 0,
           if plan.reducer.Distinct? then |MatchesOf(a.value)| else 0,
           |a.contributors| + SumOver(Contributors, MatchesOf(a.value)))
  }

  // Within these contributions a UID stands for one provenance.
  ghost predicate UidsDetermine(cs: seq<Contribution>) {
    forall i, j :: 0 <= i < |cs| && 0 <= j < |cs| && cs[i].provenance.uid == cs[j].provenance.uid ==>
        cs[i].provenance == cs[j].provenance
  }

  lemma {:induction false} SumConstant(s: seq<ReducedMatch>, n: nat)
    requires forall i :: 0 <= i < |s| ==> |s[i].contributors| == n
    ensures SumOver(Contributors, s) == |s| * n
  {
    if s != [] {
      SumConstant(s[..|s| - 1], n);
      assert |s| * n == (|s| - 1) * n + n;
    }
  }

  // Texts and keys list the same values, when every match has a key.
  lemma {:induction false} TextsAreKeys(typeName: string, cs: seq<Contribution>)
    requires forall i :: 0 <= i < |cs| ==> CanonicalKey(typeName, cs[i].value).Some?
    ensures var texts, keys := DistinctTexts(typeName, cs), DistinctKeys(typeName, cs);
            |texts| == |keys| && forall i :: 0 <= i < |texts| ==> keys[i] == Some(texts[i])
  {
    if cs == [] {
      NoTexts(typeName);
    } else {
      var n := |cs| - 1;
      assert cs == cs[..n] + [cs[n]];
      TextsAreKeys(typeName, cs[..n]);
      DistinctTextsMore(typeName, cs[..n], cs[n]);
      KeysMore(typeName, cs[..n], cs[n]);
      hide DistinctTexts, DistinctKeys;
      var texts, keys, text := DistinctTexts(typeName, cs[..n]), DistinctKeys(typeName, cs[..n]),
          CanonicalKey(typeName, cs[n].value).value;
      assert text in texts <==> Some(text) in keys by {
        if text in texts { var i: nat :| i < |texts| && texts[i] == text; assert keys[i] == Some(text); }
        if Some(text) in keys { var i: nat :| i < |keys| && keys[i] == Some(text); assert texts[i] == text; }
      }
    }
  }

  lemma WithKeyFrom(typeName: string, key: Option<string>, cs: seq<Contribution>, j: nat) returns (i: nat)
    requires j < |WithKey(typeName, key, cs)|
    ensures i < |cs| && cs[i] == WithKey(typeName, key, cs)[j]
  {
    i := FlatMapMember(Keyed(typeName, key), cs, WithKey(typeName, key, cs)[j]);
  }

  // Counting contributors of a value by UID or by full provenance is the same.
  lemma UidsCountContributors(plan: Plan, cs: seq<Contribution>, text: string)
    requires UidsDetermine(cs) && plan.includeProvenance
    ensures |DistinctMatch(plan, cs)(Some(text)).contributors| == UidsUnder(plan.fieldType, cs)(text)
  {
    var same := WithKey(plan.fieldType, Some(text), cs);
    UniqueSize(Map(ProvenanceOf, same));
    forall i, j | 0 <= i < |same| && 0 <= j < |same|
      ensures ProvenanceOf(same[i]) == ProvenanceOf(same[j]) <==> UidOf(same[i]) == UidOf(same[j])
    {
      var a := WithKeyFrom(plan.fieldType, Some(text), cs, i);
      var b := WithKeyFrom(plan.fieldType, Some(text), cs, j);
    }
    SameClasses(ProvenanceOf, UidOf, same);
  }

  lemma DistinctCounts(plan: Plan, cs: seq<Contribution>)
    requires UidsDetermine(cs) && forall i :: 0 <= i < |cs| ==> CanonicalKey(plan.fieldType, cs[i].value).Some?
    ensures |DistinctMatches(plan, cs)| == |DistinctTexts(plan.fieldType, cs)|
    ensures SumOver(Contributors, DistinctMatches(plan, cs)) ==
            if plan.includeProvenance then DistinctEntries(plan, cs) else 0
  {
    TextsAreKeys(plan.fieldType, cs);
    var texts, keys, matches := DistinctTexts(plan.fieldType, cs), DistinctKeys(plan.fieldType, cs),
        DistinctMatches(plan, cs);
    if plan.includeProvenance {
      hide DistinctTexts, DistinctKeys, DistinctMatch, UidsUnder;
      forall i | 0 <= i < |matches| ensures Contributors(matches[i]) == UidsUnder(plan.fieldType, cs)(texts[i]) {
        UidsCountContributors(plan, cs, texts[i]);
      }
      SumAlike(Contributors, matches, UidsUnder(plan.fieldType, cs), texts);
    } else {
      NoneShown(plan, cs);
      SumConstant(matches, 0);
    }
  }

  lemma NoneShown(plan: Plan, cs: seq<Contribution>)
    requires !plan.includeProvenance
    ensures forall i :: 0 <= i < |DistinctMatches(plan, cs)| ==> DistinctMatches(plan, cs)[i].contributors == []
  {
  }

  // What is counted for a group before reducing is what its report emits.
  lemma PreCountExact(order: Order, plan: Plan, g: Group, a: AggregateGroup)
    requires ValidContributions(g.contributions) && UidsDetermine(g.contributions) && ReportOf(order, plan, g, a)
    ensures Emitted(plan, |g.contributions|, a) == GroupCounts(plan, g)
  {
    hide DistinctTexts, DistinctEntries, UidsDetermine, ValidContributions, SumOf, AverageOf, DistinctMatches,
        CanonicalKey;
    var cs := g.contributions;
    match plan.reducer
    case Collect =>
      CollectedCounts(plan, cs);
    case Distinct =>
      DistinctCounts(plan, cs);
    case _ =>
      PlainCounts(order, plan, cs, a.value);
  }

  lemma CollectedCounts(plan: Plan, cs: seq<Contribution>)
    ensures SumOver(Contributors, Map(Collected(plan), cs)) == if plan.includeProvenance then |cs| else 0
  {
    SumConstant(Map(Collected(plan), cs), if plan.includeProvenance then 1 else 0);
  }

  // Every other reducer shows no contributors of its own.
  lemma PlainCounts(order: Order, plan: Plan, cs: seq<Contribution>, r: Reduced)
    requires ValidContributions(cs) && Reduces(order, plan, cs, r) && !plan.reducer.Collect? && !plan.reducer.Distinct?
    ensures SumOver(Contributors, MatchesOf(r)) == 0
  {
    hide FirstExtremum;
    assert forall i :: 0 <= i < |MatchesOf(r)| ==> MatchesOf(r)[i].contributors == [];
    SumConstant(MatchesOf(r), 0);
  }

  function EmittedTotal(plan: Plan, groups: seq<Group>, reported: seq<AggregateGroup>): Counts
    requires |groups| == |reported|
  {
    if groups == [] then Counts(0, 0, 0, 0)
    else
      var n := |groups| - 1;
      Add(EmittedTotal(plan, groups[..n], reported[..n]), Emitted(plan, |groups[n].contributions|, reported[n]))
  }

  lemma {:induction false} TotalsExact(order: Order, plan: Plan, groups: seq<Group>, reported: seq<AggregateGroup>)
    requires |groups| == |reported| && AllValid(groups)
    requires forall i :: 0 <= i < |groups| ==>
        UidsDetermine(groups[i].contributions) && ReportOf(order, plan, groups[i], reported[i])
    ensures EmittedTotal(plan, groups, reported) == TotalCounts(plan, groups)
  {
    hide ReportOf, UidsDetermine, ValidContributions, Emitted, GroupCounts;
    if groups != [] {
      var n := |groups| - 1;
      TotalsExact(order, plan, groups[..n], reported[..n]);
      PreCountExact(order, plan, groups[n], reported[n]);
    }
  }

  // The check of the counts passes exactly when the report, as it would be emitted, respects every limit.
  lemma ReportWithinLimits(order: Order, plan: Plan, groups: seq<Group>, reported: seq<AggregateGroup>)
    requires PositiveLimits(plan.limits)
    requires var eff := Effective(plan, groups);
             && AllValid(eff) && |eff| == |reported|
             && forall i :: 0 <= i < |eff| ==>
                  UidsDetermine(eff[i].contributions) && ReportOf(order, plan, eff[i], reported[i])
    ensures var l, c := plan.limits, EmittedTotal(plan, Effective(plan, groups), reported);
            Within(l, |groups|, TotalCounts(plan, groups)) <==>
            && |reported| <= l.maxGroups && c.contributions <= l.maxContributions
            && c.collected <= l.maxCollectedValues && c.distinct <= l.maxDistinctValues
            && c.entries <= l.maxProvenanceEntries
  {
    var eff := Effective(plan, groups);
    hide ReportOf, UidsDetermine, ValidContributions, Emitted, EmittedTotal, TotalCounts, Reduces, GroupCounts;
    TotalsExact(order, plan, eff, reported);
    EffectiveCounts(plan, groups);
  }

  lemma EffectiveCounts(plan: Plan, groups: seq<Group>)
    requires PositiveLimits(plan.limits)
    ensures TotalCounts(plan, Effective(plan, groups)) == TotalCounts(plan, groups)
    ensures |Effective(plan, groups)| <= plan.limits.maxGroups <==> |groups| <= plan.limits.maxGroups
  {
    if groups == [] && plan.groupBy == [] { EmptyCounts(plan); }
  }

  lemma EmptyCounts(plan: Plan)
    ensures TotalCounts(plan, [Group([], [], [])]) == Counts(0, 0, 0, 0)
  {
    var g := Group([], [], []);
    assert [g][..0] == [];
    NoTexts(plan.fieldType);
    assert DistinctEntries(plan, []) == 0;
  }
}
