/** The distinct values of a group, told by position: which contributions they come from, and who contributed them. */
module DistinctLaws {
  import opened Common
  import opened Bags
  import opened CanonicalKeys
  import opened Grouping
  import opened GroupingLaws
  import opened Reducers
  import opened Aggregates

  predicate SameKey(typeName: string, c: Contribution, d: Contribution) {
    CanonicalKey(typeName, c.value) == CanonicalKey(typeName, d.value)
  }

  // The contribution is the first with its key.
  predicate FirstOfKey(typeName: string, cs: seq<Contribution>, j: int) {
    0 <= j < |cs| && forall i :: 0 <= i < j ==> !SameKey(typeName, cs[i], cs[j])
  }

  ghost predicate Contributed(typeName: string, cs: seq<Contribution>, c: Contribution, p: Provenance) {
    exists i :: 0 <= i < |cs| && SameKey(typeName, cs[i], c) && cs[i].provenance == p
  }

  // The match is the contribution's, with everyone who contributed an equal one, once, if provenance is asked for.
  ghost predicate MatchAt(plan: Plan, cs: seq<Contribution>, j: int, r: ReducedMatch) {
    && 0 <= j < |cs| && r.produced == Kept(cs[j].value) && Different(r.contributors)
    && if plan.includeProvenance
       then forall p :: p in r.contributors <==> Contributed(plan.fieldType, cs, cs[j], p)
       else r.contributors == []
  }

  // The matches belong, in order, to these positions, which are exactly the first ones of their keys.
  ghost predicate DistinctAt(plan: Plan, cs: seq<Contribution>, matches: seq<ReducedMatch>, at: seq<nat>) {
    && |at| == |matches| && (forall m, n :: 0 <= m < n < |at| ==> at[m] < at[n])
    && (forall j :: j in at <==> FirstOfKey(plan.fieldType, cs, j))
    && forall m :: 0 <= m < |at| ==> MatchAt(plan, cs, at[m], matches[m])
  }

  /* ---------- first appearances ---------- */

  predicate FirstIn<A(==)>(s: seq<A>, j: int) { 0 <= j < |s| && forall i :: 0 <= i < j ==> s[i] != s[j] }

  ghost predicate FirstsAt<A(!new)>(s: seq<A>, at: seq<nat>) {
    && |at| == |Unique(s)| && (forall m, n :: 0 <= m < n < |at| ==> at[m] < at[n])
    && (forall j :: j in at <==> FirstIn(s, j))
    && forall m :: 0 <= m < |at| ==> at[m] < |s| && Unique(s)[m] == s[at[m]]
  }

  lemma {:induction false} UniqueFirsts<A(!new)>(s: seq<A>) returns (at: seq<nat>)
    ensures FirstsAt(s, at)
  {
    if s == [] {
      at := [];
    } else {
      var n := |s| - 1;
      at := UniqueFirsts(s[..n]);
      UniqueMembers(s[..n]);
      forall j ensures FirstIn(s, j) <==> FirstIn(s[..n], j) || (j == n && s[n] !in s[..n]) { FirstMore(s, j); }
      hide FirstIn;
      forall m | 0 <= m < |at| ensures at[m] < n { assert at[m] in at; }
      if s[n] !in Unique(s[..n]) {
        FirstsMore(s, at);
        at := at + [n];
      }
    }
  }

  lemma FirstsMore<A(!new)>(s: seq<A>, at: seq<nat>)
    requires s != [] && FirstsAt(s[..|s| - 1], at) && s[|s| - 1] !in Unique(s[..|s| - 1])
    requires forall j :: FirstIn(s, j) <==> FirstIn(s[..|s| - 1], j) || j == |s| - 1
    requires forall m :: 0 <= m < |at| ==> at[m] < |s| - 1
    ensures FirstsAt(s, at + [|s| - 1])
  {
    UniqueStep(s);
    hide FirstIn, Unique;
    var all := at + [|s| - 1];
    assert |all| == |Unique(s)|;
    forall m | 0 <= m < |all| ensures all[m] < |s| && Unique(s)[m] == s[all[m]] {
      if m < |at| { assert s[..|s| - 1][at[m]] == s[at[m]]; }
    }
    forall j ensures j in all <==> FirstIn(s, j) { assert j in all <==> j in at || j == |s| - 1; }
  }

  lemma UniqueStep<A>(s: seq<A>)
    requires s != [] && s[|s| - 1] !in Unique(s[..|s| - 1])
    ensures Unique(s) == Unique(s[..|s| - 1]) + [s[|s| - 1]]
  {
  }

  lemma FirstMore<A>(s: seq<A>, j: int)
    requires s != []
    ensures FirstIn(s, j) <==> FirstIn(s[..|s| - 1], j) || (j == |s| - 1 && s[|s| - 1] !in s[..|s| - 1])
  {
    var n := |s| - 1;
    if j == n && FirstIn(s, j) { assert forall i :: 0 <= i < n ==> s[..n][i] != s[n]; }
    if j == n && s[n] !in s[..n] { assert forall i :: 0 <= i < n ==> s[..n][i] == s[i]; }
  }

  /* ---------- the contributions of one key ---------- */

  lemma KeyedOne(typeName: string, key: Option<string>, c: Contribution)
    ensures Keyed(typeName, key)(c) == if CanonicalKey(typeName, c.value) == key then [c] else []
  {
    assert KeyOf(typeName)(c) == CanonicalKey(typeName, c.value);
  }

  lemma WithKeyMembers(typeName: string, key: Option<string>, cs: seq<Contribution>, c: Contribution)
    ensures c in WithKey(typeName, key, cs) <==> c in cs && CanonicalKey(typeName, c.value) == key
  {
    hide Keyed, CanonicalKey, FlatMap;
    if c in WithKey(typeName, key, cs) {
      var i := FlatMapMember(Keyed(typeName, key), cs, c);
      KeyedOne(typeName, key, cs[i]);
    }
    if c in cs && CanonicalKey(typeName, c.value) == key {
      var i: nat :| i < |cs| && cs[i] == c;
      KeyedOne(typeName, key, c);
      FlatMapHolds(Keyed(typeName, key), cs, i, c);
    }
  }

  lemma NoneBefore(typeName: string, cs: seq<Contribution>, j: int)
    requires FirstOfKey(typeName, cs, j)
    ensures WithKey(typeName, CanonicalKey(typeName, cs[j].value), cs[..j]) == []
  {
    var key := CanonicalKey(typeName, cs[j].value);
    var before := WithKey(typeName, key, cs[..j]);
    hide WithKey, CanonicalKey;
    if before != [] {
      assert before[0] in before;
      WithKeyMembers(typeName, key, cs[..j], before[0]);
    }
  }

  lemma WithKeyFirst(typeName: string, cs: seq<Contribution>, j: int)
    requires FirstOfKey(typeName, cs, j)
    ensures var same := WithKey(typeName, CanonicalKey(typeName, cs[j].value), cs); same != [] && same[0] == cs[j]
  {
    var key := CanonicalKey(typeName, cs[j].value);
    NoneBefore(typeName, cs, j);
    hide Keyed, CanonicalKey, FlatMap, FirstOfKey;
    var f := Keyed(typeName, key);
    assert cs == cs[..j] + ([cs[j]] + cs[j + 1..]);
    FlatMapConcat(f, cs[..j], [cs[j]] + cs[j + 1..]);
    FlatMapConcat(f, [cs[j]], cs[j + 1..]);
    FlatMapOne(f, cs[j]);
    KeyedOne(typeName, key, cs[j]);
    assert WithKey(typeName, key, cs) == [cs[j]] + FlatMap(f, cs[j + 1..]);
  }

  lemma ContributorsOf(plan: Plan, cs: seq<Contribution>, j: int)
    requires FirstOfKey(plan.fieldType, cs, j)
    ensures MatchAt(plan, cs, j, MatchOf(plan, WithKey(plan.fieldType, CanonicalKey(plan.fieldType, cs[j].value), cs)))
  {
    var same := WithKey(plan.fieldType, CanonicalKey(plan.fieldType, cs[j].value), cs);
    WithKeyFirst(plan.fieldType, cs, j);
    UniqueMembers(Map(ProvenanceOf, same));
    forall p ensures p in Map(ProvenanceOf, same) <==> Contributed(plan.fieldType, cs, cs[j], p) {
      ContributedMapped(plan.fieldType, cs, cs[j], p);
    }
    hide WithKey, Contributed;
  }

  lemma ContributedMapped(typeName: string, cs: seq<Contribution>, c: Contribution, p: Provenance)
    ensures p in Map(ProvenanceOf, WithKey(typeName, CanonicalKey(typeName, c.value), cs)) <==>
            Contributed(typeName, cs, c, p)
  {
    var key := CanonicalKey(typeName, c.value);
    var same := WithKey(typeName, key, cs);
    hide WithKey;
    if p in Map(ProvenanceOf, same) {
      var m: nat :| m < |same| && Map(ProvenanceOf, same)[m] == p;
      WithKeyMembers(typeName, key, cs, same[m]);
      assert same[m] in same;
      var i: nat :| i < |cs| && cs[i] == same[m];
      assert SameKey(typeName, cs[i], c) && cs[i].provenance == p;
    }
    if i :| 0 <= i < |cs| && SameKey(typeName, cs[i], c) && cs[i].provenance == p {
      WithKeyMembers(typeName, key, cs, cs[i]);
      var m: nat :| m < |same| && same[m] == cs[i];
      assert Map(ProvenanceOf, same)[m] == p;
    }
  }

  // The distinct values are one per key, at its first appearance, with exactly the contributors of that key.
  lemma DistinctExactly(plan: Plan, cs: seq<Contribution>)
    ensures exists at :: DistinctAt(plan, cs, DistinctMatches(plan, cs), at)
  {
    var keys := Map(KeyOf(plan.fieldType), cs);
    var at := UniqueFirsts(keys);
    hide CanonicalKey, Unique;
    forall j ensures FirstIn(keys, j) <==> FirstOfKey(plan.fieldType, cs, j) {}
    hide FirstIn, FirstOfKey;
    forall m | 0 <= m < |at| ensures MatchAt(plan, cs, at[m], DistinctMatches(plan, cs)[m]) {
      assert at[m] in at;
      ContributorsOf(plan, cs, at[m]);
    }
    hide MatchAt, DistinctMatches;
    assert |DistinctMatches(plan, cs)| == |at| by { MatchPerKey(plan, cs); }
    assert DistinctAt(plan, cs, DistinctMatches(plan, cs), at);
  }
}
