/** Which contribution a reduction keeps: the least, the greatest, the earliest or the latest, by their fields. */
module Extremes {
  import opened Common
  import opened Bags
  import opened Sorting
  import opened CanonicalKeys
  import opened Grouping
  import opened GroupingOrder
  import opened Reducers
  import opened Aggregates

  /* ---------- the order of contributions ---------- */

  // By namespace, then name, then UID, then version, then kind.
  predicate ProvenancePrecedes(p: Provenance, q: Provenance) {
    if p.namespace != q.namespace then StringLess(p.namespace, q.namespace)
    else if p.name != q.name then StringLess(p.name, q.name)
    else if p.uid != q.uid then StringLess(p.uid, q.uid)
    else if p.apiVersion != q.apiVersion then StringLess(p.apiVersion, q.apiVersion)
    else StringLess(p.kind, q.kind)
  }

  // Of one resource, by the position of the match.
  predicate Precedes(c: Contribution, d: Contribution) {
    if c.provenance != d.provenance then ProvenancePrecedes(c.provenance, d.provenance) else c.index < d.index
  }

  lemma ProvenanceParts(p: Provenance, q: Provenance)
    ensures PartsLess(ProvenanceKey(p).parts, ProvenanceKey(q).parts) <==> ProvenancePrecedes(p, q)
  {
    FivePartsLess(ProvenanceKey(p).parts, ProvenanceKey(q).parts);
    hide PartsLess, StringLess;
  }

  lemma SameParts(p: Provenance, q: Provenance)
    ensures ProvenanceKey(p).parts == ProvenanceKey(q).parts <==> p == q
  {
    if ProvenanceKey(p).parts == ProvenanceKey(q).parts { ProvenanceKeyInjective(p, q); }
  }

  lemma ContributionOrder(c: Contribution, d: Contribution)
    ensures ByKey(ContributionKey)(c, d) <==> Precedes(c, d)
  {
    ProvenanceParts(c.provenance, d.provenance);
    SameParts(c.provenance, d.provenance);
    assert ByKey(ContributionKey)(c, d) == KeyLess(ContributionKey(c), ContributionKey(d));
    hide PartsLess, ProvenancePrecedes;
  }

  /* ---------- earliest and latest ---------- */

  // The reported match is this contribution's.
  predicate Keeps(plan: Plan, r: Reduced, c: Contribution) {
    r == Values(plan.fieldType, [ReducedMatch(Kept(c.value), [])])
  }

  // No other contribution of the group precedes it; or it precedes no other.
  ghost predicate EndsGroup(g: Group, first: bool, c: Contribution) {
    && c in g.contributions
    && forall d :: d in g.contributions && d != c ==> if first then !Precedes(d, c) else !Precedes(c, d)
  }

  lemma SettledEnds(g: Group)
    ensures var cs := Tidied(g).contributions;
            && (forall c :: c in cs <==> c in g.contributions) && (cs == [] <==> g.contributions == [])
            && (forall i, j :: 0 <= i < j < |cs| ==> !Precedes(cs[j], cs[i]))
  {
    var cs := Tidied(g).contributions;
    ByKeyWeakOrder(ContributionKey);
    SortSorted(ByKey(ContributionKey), g.contributions);
    assert |cs| == |multiset(cs)| == |g.contributions|;
    forall c ensures c in cs <==> c in g.contributions { SortMembers(ByKey(ContributionKey), g.contributions, c); }
    hide Precedes, Sort;
    forall i, j | 0 <= i < j < |cs| ensures !Precedes(cs[j], cs[i]) { ContributionOrder(cs[j], cs[i]); }
  }

  // The first value of a group is that of a contribution that no other precedes, the last value that of one that
  // precedes no other; an empty group has neither.
  lemma EndsOfGroup(order: Order, plan: Plan, g: Group, r: Reduced)
    requires ValidContributions(Tidied(g).contributions) && (plan.reducer.First? || plan.reducer.Last?)
    requires Reduces(order, plan, Tidied(g).contributions, r)
    ensures g.contributions == [] <==> r == NoValue(plan.fieldType)
    ensures g.contributions != [] ==> exists c :: Keeps(plan, r, c) && EndsGroup(g, plan.reducer.First?, c)
  {
    SettledEnds(g);
    var cs := Tidied(g).contributions;
    hide Precedes, Tidied, ValidContributions, DistinctMatches;
    if g.contributions != [] {
      assert g.contributions[0] in cs;
      var c := if plan.reducer.First? then cs[0] else cs[|cs| - 1];
      assert c in cs && Keeps(plan, r, c) && EndsGroup(g, plan.reducer.First?, c);
    }
  }

  // Counting a group gives the number of its contributions; collecting it gives each one's match, in their order, with
  // its contributor if provenance is asked for.
  lemma WholeGroup(order: Order, plan: Plan, g: Group, r: Reduced)
    requires ValidContributions(Tidied(g).contributions) && (plan.reducer.Count? || plan.reducer.Collect?)
    requires Reduces(order, plan, Tidied(g).contributions, r)
    ensures plan.reducer.Count? ==> r == Values("integer", [ReducedMatch(Whole(|g.contributions|), [])])
    ensures plan.reducer.Collect? ==>
              && r.Values? && r.typeName == plan.fieldType && |r.matches| == |g.contributions|
              && forall i :: 0 <= i < |r.matches| ==>
                   r.matches[i] == ReducedMatch(Kept(Tidied(g).contributions[i].value),
                       if plan.includeProvenance then [Tidied(g).contributions[i].provenance] else [])
  {
    var cs := Tidied(g).contributions;
    assert |cs| == |multiset(cs)| == |g.contributions|;
    hide Sort, ValidContributions;
  }

  /* ---------- least and greatest ---------- */

  // Where the value stands in the order of its type.
  predicate StandsAt(order: Order, m: Match, x: real) {
    m.Value? && m.payload.Some? && order(m.typeName, m.payload.value) == x
  }

  // At the lowest, or the highest, position of all, and the first there.
  ghost predicate IsExtreme(order: Order, least: bool, cs: seq<Contribution>, k: int)
    requires 0 <= k < |cs|
  {
    forall j, x, y ::
      0 <= j < |cs| && j != k && StandsAt(order, cs[k].value, x) && StandsAt(order, cs[j].value, y) ==>
        if least then (if j < k then x < y else x <= y) else if j < k then x > y else x >= y
  }

  // The least value of a group is that of its first contribution at the lowest position in the order of its type, the
  // greatest that of the first at the highest; values that cannot be compared are an error.
  lemma ExtremeOfGroup(order: Order, plan: Plan, cs: seq<Contribution>, r: Reduced)
    requires ValidContributions(cs) && cs != [] && (plan.reducer.Min? || plan.reducer.Max?)
    requires Reduces(order, plan, cs, r)
    ensures r == Failed(BadInput) <==> exists j :: 0 < j < |cs| && !Comparable(cs[j].value, cs[0].value)
    ensures r != Failed(BadInput) ==>
              exists k :: 0 <= k < |cs| && Keeps(plan, r, cs[k]) && IsExtreme(order, plan.reducer.Min?, cs, k)
  {
    var least := plan.reducer.Min?;
    if !exists j :: 0 < j < |cs| && !Comparable(cs[j].value, cs[0].value) {
      var k: nat :| FirstExtremum(order, least, cs, k)
                    && r == Values(plan.fieldType, [ReducedMatch(Kept(cs[k].value), [])]);
      assert Keeps(plan, r, cs[k]);
    }
  }

  /* ---------- the order of groups ---------- */

  // At the first position where they differ: by type, then by the place of the value among those of its type; and a
  // tuple precedes those it begins.
  ghost predicate RanksPrecede(a: seq<Rank>, b: seq<Rank>) {
    exists k :: DiffersAt(a, b, k)
  }

  ghost predicate DiffersAt(a: seq<Rank>, b: seq<Rank>, k: int) {
    && 0 <= k <= |a| && k < |b| && a[..k] == b[..k]
    && (k == |a|
        || (a[k] != b[k]
            && if a[k].typeName != b[k].typeName then StringLess(a[k].typeName, b[k].typeName)
               else a[k].position < b[k].position))
  }

  lemma {:induction false} TupleOrder(a: seq<Rank>, b: seq<Rank>)
    ensures TupleLess(a, b) <==> RanksPrecede(a, b)
  {
    if b == [] {
    } else if a == [] {
      assert DiffersAt(a, b, 0);
    } else if a[0] != b[0] {
      assert RankLess(a[0], b[0]) ==> DiffersAt(a, b, 0);
      forall k | DiffersAt(a, b, k) ensures k == 0 || a[0] == b[0] { SharedHead(a, b, k); }
    } else {
      TupleOrder(a[1..], b[1..]);
      RankNotLess(a[0]);
      forall k | DiffersAt(a, b, k) ensures DiffersAt(a[1..], b[1..], k - 1) {
        assert a[1..][..k - 1] == a[..k][1..] && b[1..][..k - 1] == b[..k][1..];
      }
      forall k | DiffersAt(a[1..], b[1..], k) ensures DiffersAt(a, b, k + 1) {
        assert a[..k + 1] == [a[0]] + a[1..][..k] && b[..k + 1] == [b[0]] + b[1..][..k];
      }
    }
  }

  lemma SharedHead(a: seq<Rank>, b: seq<Rank>, k: int)
    requires DiffersAt(a, b, k)
    ensures k == 0 || a[0] == b[0]
  {
    if k > 0 { assert a[..k][0] == b[..k][0]; }
  }

  lemma RankNotLess(a: Rank)
    ensures !RankLess(a, a)
  {
  }

  lemma GroupWeakOrder(order: Order)
    ensures WeakOrder(GroupLess(order))
  {
    NormalWeakOrder(order);
    hide TupleLess, RanksOf, Identity;
    var less, under := GroupLess(order), NormalLess(order);
    forall g, h ensures less(g, h) == under(Normalized(g), Normalized(h)) {}
  }

  // In a result the groups stand in the order of their key values, every group's contributions and contributors and
  // the failures in the order of their provenance; nothing is added or lost.
  lemma FinishedInOrder(order: Order, st: State)
    ensures var done := Finished(order, st);
            && multiset(done.groups) == multiset(Map(Tidied, st.groups))
            && multiset(done.failures) == multiset(st.failures)
            && (forall i, j :: 0 <= i < j < |done.groups| ==>
                  !RanksPrecede(RanksOf(order, Identity(done.groups[j].keys)),
                                RanksOf(order, Identity(done.groups[i].keys))))
            && (forall i, j :: 0 <= i < j < |done.failures| ==>
                  !ProvenancePrecedes(done.failures[j].provenance, done.failures[i].provenance))
  {
    var done := Finished(order, st);
    GroupWeakOrder(order);
    ByKeyWeakOrder(FailureKey);
    SortSorted(GroupLess(order), Map(Tidied, st.groups));
    SortSorted(ByKey(FailureKey), st.failures);
    hide Sort, RanksPrecede, ProvenancePrecedes;
    forall i, j | 0 <= i < j < |done.groups|
      ensures !RanksPrecede(RanksOf(order, Identity(done.groups[j].keys)),
                            RanksOf(order, Identity(done.groups[i].keys)))
    {
      TupleOrder(RanksOf(order, Identity(done.groups[j].keys)), RanksOf(order, Identity(done.groups[i].keys)));
      assert !GroupLess(order)(done.groups[j], done.groups[i]);
    }
    forall i, j | 0 <= i < j < |done.failures|
      ensures !ProvenancePrecedes(done.failures[j].provenance, done.failures[i].provenance)
    {
      var f, g := done.failures[j], done.failures[i];
      ProvenanceParts(f.provenance, g.provenance);
      ProvenanceParts(g.provenance, f.provenance);
      assert !ByKey(FailureKey)(f, g);
      FailureOrder(f, g);
    }
  }

  lemma FailureOrder(f: Failure, g: Failure)
    ensures ByKey(FailureKey)(f, g) <==> PartsLess(ProvenanceKey(f.provenance).parts, ProvenanceKey(g.provenance).parts)
  {
    PartsTotal(ProvenanceKey(f.provenance).parts, ProvenanceKey(g.provenance).parts);
    assert ByKey(FailureKey)(f, g) == KeyLess(FailureKey(f), FailureKey(g));
  }
}
