/** The order in which resources arrive does not show in the result of grouping. */
module GroupingOrder {
  import opened Common
  import opened Bags
  import opened Sorting
  import opened CanonicalKeys
  import opened Grouping
  import opened GroupingLaws

  // Complete provenance, and every UID only once.
  ghost predicate Identified(resources: seq<Resource>) {
    && (forall i :: 0 <= i < |resources| ==> Complete(resources[i].provenance))
    && forall i, j :: 0 <= i < j < |resources| ==> resources[i].provenance.uid != resources[j].provenance.uid
  }

  // Values of one type compare as equal only when their canonical payloads are equal.
  ghost predicate Agrees(order: Order) {
    forall typeName, p, q :: order(typeName, p) == order(typeName, q) ==> p == q
  }

  /* ---------- the items of identified resources ---------- */

  function ItemsFn(plan: Plan): Resource -> seq<Item> { (r: Resource) => ItemsFor(plan, r) }

  lemma {:induction false} NothingSkipped(plan: Plan, seen: set<string>, resources: seq<Resource>)
    requires Identified(resources) && forall i :: 0 <= i < |resources| ==> resources[i].provenance.uid !in seen
    ensures ItemsOf(plan, seen, resources) == FlatMap(ItemsFn(plan), resources)
    decreases |resources|
  {
    hide ItemsFor, Complete;
    if resources != [] {
      NothingSkipped(plan, Marked(seen, resources[0]), resources[1..]);
    }
  }

  lemma SameResource(resources: seq<Resource>, i: nat, j: nat)
    requires Identified(resources) && i < |resources| && j < |resources|
    requires resources[i].provenance == resources[j].provenance
    ensures i == j
  {
  }

  lemma ProvenanceKeyInjective(p: Provenance, q: Provenance)
    requires ProvenanceKey(p).parts == ProvenanceKey(q).parts
    ensures p == q
  {
    var x, y := ProvenanceKey(p).parts, ProvenanceKey(q).parts;
    assert x[0] == y[0] && x[1] == y[1] && x[2] == y[2] && x[3] == y[3] && x[4] == y[4];
  }

  lemma ItemAt(plan: Plan, resources: seq<Resource>, item: Item) returns (i: nat)
    requires item in FlatMap(ItemsFn(plan), resources)
    ensures i < |resources| && item in ItemsFor(plan, resources[i])
  {
    i := FlatMapMember(ItemsFn(plan), resources, item);
  }

  lemma EntryAt(items: seq<Item>, e: Entry) returns (j: nat)
    requires e in Entries(items)
    ensures j < |items| && items[j] == Put(e)
  {
    j := FlatMapMember(EntryOf, items, e);
  }

  lemma FailureAt(items: seq<Item>, f: Failure) returns (j: nat)
    requires f in Failures(items)
    ensures j < |items| && items[j] == Fail(f)
  {
    j := FlatMapMember(FailureOf, items, f);
  }

  // Each failure has its own place in the order.
  lemma FailuresSeparate(plan: Plan, resources: seq<Resource>, f: Failure, g: Failure)
    requires Identified(resources) && FailureKey(f) == FailureKey(g)
    requires f in Failures(FlatMap(ItemsFn(plan), resources)) && g in Failures(FlatMap(ItemsFn(plan), resources))
    ensures f == g
  {
    hide ItemsFor, Failures, Identified, FlatMap, Read;
    var items := FlatMap(ItemsFn(plan), resources);
    var a := FailureAt(items, f);
    var b := FailureAt(items, g);
    var i := ItemAt(plan, resources, items[a]);
    var j := ItemAt(plan, resources, items[b]);
    ItemOrigin(plan, resources[i], items[a]);
    ItemOrigin(plan, resources[j], items[b]);
    ProvenanceKeyInjective(f.provenance, g.provenance);
    SameResource(resources, i, j);
  }

  // Each contribution has its own place in the order.
  lemma ContributionsSeparate(plan: Plan, resources: seq<Resource>, c: Entry, d: Entry)
    requires Identified(resources) && ContributionKey(c.contribution) == ContributionKey(d.contribution)
    requires c in Entries(FlatMap(ItemsFn(plan), resources)) && d in Entries(FlatMap(ItemsFn(plan), resources))
    ensures c == d
  {
    hide ItemsFor, Entries, Identified, FlatMap, Read;
    var items := FlatMap(ItemsFn(plan), resources);
    var a := EntryAt(items, c);
    var b := EntryAt(items, d);
    var i := ItemAt(plan, resources, items[a]);
    var j := ItemAt(plan, resources, items[b]);
    ItemOrigin(plan, resources[i], items[a]);
    ItemOrigin(plan, resources[j], items[b]);
    ProvenanceKeyInjective(c.contribution.provenance, d.contribution.provenance);
    SameResource(resources, i, j);
  }

  lemma ChosenFrom(entries: seq<Entry>, tags: seq<Tag>, c: Contribution) returns (e: Entry)
    requires c in Chosen(entries, tags)
    ensures e in entries && e.contribution == c && Identity(e.keys) == tags
  {
    var i := FlatMapMember(Choose(tags), entries, c);
    e := entries[i];
  }

  /* ---------- the order of groups ---------- */

  lemma RankOrder(a: Rank, b: Rank, c: Rank)
    ensures !RankLess(a, a)
    ensures RankLess(a, b) || RankLess(b, a) || a == b
    ensures RankLess(a, b) && RankLess(b, c) ==> RankLess(a, c)
  {
    StringLessTotal(a.typeName, b.typeName);
    StringLessTotal(b.typeName, c.typeName);
    StringLessTotal(a.typeName, c.typeName);
    StringLessTotal(a.typeName, a.typeName);
    if StringLess(a.typeName, b.typeName) && StringLess(b.typeName, c.typeName) {
      StringLessTransitive(a.typeName, b.typeName, c.typeName);
    }
  }

  lemma {:induction false} TupleTotal(a: seq<Rank>, b: seq<Rank>)
    ensures TupleLess(a, b) || TupleLess(b, a) || a == b
    ensures a == b ==> !TupleLess(a, b)
  {
    hide RankLess;
    if a != [] && b != [] {
      RankOrder(a[0], b[0], a[0]);
      if a[0] == b[0] {
        TupleTotal(a[1..], b[1..]);
        HeadAndTail(a, b);
      }
    }
  }

  lemma {:induction false} TupleTransitive(a: seq<Rank>, b: seq<Rank>, c: seq<Rank>)
    requires TupleLess(a, b) && TupleLess(b, c)
    ensures TupleLess(a, c)
  {
    hide RankLess;
    if a != [] {
      RankOrder(a[0], b[0], c[0]);
      RankOrder(c[0], a[0], b[0]);
      if a[0] == b[0] == c[0] { TupleTransitive(a[1..], b[1..], c[1..]); }
    }
  }

  // A group as far as it is determined: its identity rather than the matches first seen for it.
  datatype Normal = Normal(identity: seq<Tag>, contributions: seq<Contribution>, contributors: seq<Provenance>)

  function Normalized(g: Group): Normal { Normal(Identity(g.keys), g.contributions, g.contributors) }

  function NormalLess(order: Order): (Normal, Normal) -> bool {
    (x: Normal, y: Normal) => TupleLess(RanksOf(order, x.identity), RanksOf(order, y.identity))
  }

  lemma NormalWeakOrder(order: Order)
    ensures WeakOrder(NormalLess(order))
  {
    hide TupleLess, RanksOf;
    var less := NormalLess(order);
    forall x, y, z
      ensures !less(x, x)
      ensures less(x, y) && less(y, z) ==> less(x, z)
      ensures less(x, z) ==> less(x, y) || less(y, z)
    {
      var a, b, c := RanksOf(order, x.identity), RanksOf(order, y.identity), RanksOf(order, z.identity);
      TupleTotal(a, a);
      TupleTotal(a, b);
      TupleTotal(b, c);
      if TupleLess(a, b) && TupleLess(b, c) { TupleTransitive(a, b, c); }
      if TupleLess(b, a) && TupleLess(a, c) { TupleTransitive(b, a, c); }
    }
  }

  lemma RanksInjective(order: Order, s: seq<Tag>, t: seq<Tag>)
    requires Agrees(order) && RanksOf(order, s) == RanksOf(order, t)
    ensures s == t
  {
    forall i | 0 <= i < |s| ensures s[i] == t[i] { assert RanksOf(order, s)[i] == RanksOf(order, t)[i]; }
  }

  /* ---------- what an identity determines ---------- */

  // The finished group of an identity.
  function Settled(entries: seq<Entry>): seq<Tag> -> Normal {
    (tags: seq<Tag>) =>
      Normal(tags, Sort(ByKey(ContributionKey), Chosen(entries, tags)),
             Sort(ByKey(ProvenanceKey), Unique(Map(ProvenanceOf, Chosen(entries, tags)))))
  }

  lemma SettledGroup(g: Group, entries: seq<Entry>)
    requires Gathers(g, entries)
    ensures Normalized(Tidied(g)) == Settled(entries)(Identity(g.keys))
  {
  }

  lemma SettledAlike(plan: Plan, a: seq<Resource>, b: seq<Resource>, tags: seq<Tag>)
    requires Identified(a) && multiset(a) == multiset(b)
    ensures var x, y := Entries(FlatMap(ItemsFn(plan), a)), Entries(FlatMap(ItemsFn(plan), b));
            Settled(x)(tags) == Settled(y)(tags)
  {
    var x, y := Entries(FlatMap(ItemsFn(plan), a)), Entries(FlatMap(ItemsFn(plan), b));
    EntriesAlike(plan, a, b);
    FlatMapPermutation(Choose(tags), x, y);
    var s, t := Chosen(x, tags), Chosen(y, tags);
    hide Entries, FlatMap, Chosen, Identified;
    ByKeyWeakOrder(ContributionKey);
    forall c, d | c in multiset(s) && d in multiset(s) && c != d
      ensures ByKey(ContributionKey)(c, d) || ByKey(ContributionKey)(d, c)
    {
      var e := ChosenFrom(x, tags, c);
      var f := ChosenFrom(x, tags, d);
      if ContributionKey(c) == ContributionKey(d) { ContributionsSeparate(plan, a, e, f); }
      KeyOrder(ContributionKey(c), ContributionKey(d), ContributionKey(c));
    }
    SortOfPermutation(ByKey(ContributionKey), s, t);
    MapPermutation(ProvenanceOf, s, t);
    ProvenancesAlike(Map(ProvenanceOf, s), Map(ProvenanceOf, t));
  }

  lemma ProvenancesAlike(s: seq<Provenance>, t: seq<Provenance>)
    requires multiset(s) == multiset(t)
    ensures Sort(ByKey(ProvenanceKey), Unique(s)) == Sort(ByKey(ProvenanceKey), Unique(t))
  {
    UniquePermutation(s, t);
    ByKeyWeakOrder(ProvenanceKey);
    forall p: Provenance, q: Provenance | p != q ensures ByKey(ProvenanceKey)(p, q) || ByKey(ProvenanceKey)(q, p) {
      if ProvenanceKey(p) == ProvenanceKey(q) { ProvenanceKeyInjective(p, q); }
      KeyOrder(ProvenanceKey(p), ProvenanceKey(q), ProvenanceKey(p));
    }
    SortOfPermutation(ByKey(ProvenanceKey), Unique(s), Unique(t));
  }

  lemma EntriesAlike(plan: Plan, a: seq<Resource>, b: seq<Resource>)
    requires multiset(a) == multiset(b)
    ensures var x, y := FlatMap(ItemsFn(plan), a), FlatMap(ItemsFn(plan), b);
            && multiset(x) == multiset(y) && multiset(Entries(x)) == multiset(Entries(y))
            && multiset(Failures(x)) == multiset(Failures(y))
  {
    FlatMapPermutation(ItemsFn(plan), a, b);
    var x, y := FlatMap(ItemsFn(plan), a), FlatMap(ItemsFn(plan), b);
    FlatMapPermutation(EntryOf, x, y);
    FlatMapPermutation(FailureOf, x, y);
  }

  lemma SameMembers<T>(s: seq<T>, t: seq<T>)
    requires multiset(s) == multiset(t)
    ensures |s| == |t| && forall x :: x in s <==> x in t
  {
    assert |multiset(s)| == |s| && |multiset(t)| == |t|;
    forall x ensures x in s <==> x in t {
      assert x in s <==> x in multiset(s);
      assert x in t <==> x in multiset(t);
    }
  }

  lemma LimitsAlike(plan: Plan, x: seq<Entry>, y: seq<Entry>)
    requires multiset(x) == multiset(y)
    ensures |x| == |y| && KeySet(x) == KeySet(y) && (Exceeding(plan, x) <==> Exceeding(plan, y))
  {
    SameMembers(x, y);
  }

  lemma IdentitiesAlike(plan: Plan, g: seq<Group>, h: seq<Group>, x: seq<Item>, y: seq<Item>)
    requires Partition(g, Entries(x)) && OnlyKnown(plan, g, x) && Partition(h, Entries(y)) && OnlyKnown(plan, h, y)
    requires multiset(x) == multiset(y) && KeySet(Entries(x)) == KeySet(Entries(y))
    ensures multiset(Identities(g)) == multiset(Identities(h))
  {
    hide Entries, KeySet, Gathers;
    SameMembers(x, y);
    SameMembersSameBag(Identities(g), Identities(h));
  }

  lemma FailuresAlike(plan: Plan, a: seq<Resource>, b: seq<Resource>)
    requires Identified(a) && multiset(a) == multiset(b)
    ensures var x, y := Failures(FlatMap(ItemsFn(plan), a)), Failures(FlatMap(ItemsFn(plan), b));
            Sort(ByKey(FailureKey), x) == Sort(ByKey(FailureKey), y)
  {
    EntriesAlike(plan, a, b);
    hide Failures, FlatMap, Identified, Entries;
    var x, y := Failures(FlatMap(ItemsFn(plan), a)), Failures(FlatMap(ItemsFn(plan), b));
    ByKeyWeakOrder(FailureKey);
    forall f, g | f in multiset(x) && g in multiset(x) && f != g
      ensures ByKey(FailureKey)(f, g) || ByKey(FailureKey)(g, f)
    {
      if FailureKey(f) == FailureKey(g) { FailuresSeparate(plan, a, f, g); }
      KeyOrder(FailureKey(f), FailureKey(g), FailureKey(f));
    }
    SortOfPermutation(ByKey(FailureKey), x, y);
  }

  lemma {:induction false} NormalizedTidied(groups: seq<Group>, entries: seq<Entry>)
    requires forall i :: 0 <= i < |groups| ==> Gathers(groups[i], entries)
    ensures Map(Normalized, Map(Tidied, groups)) == Map(Settled(entries), Identities(groups))
  {
    hide Gathers, Settled, Normalized, Tidied;
    forall i | 0 <= i < |groups|
      ensures Map(Normalized, Map(Tidied, groups))[i] == Map(Settled(entries), Identities(groups))[i]
    {
      SettledGroup(groups[i], entries);
    }
  }

  // The finished groups, normalized, are the sorted settled identities.
  lemma FinishedNormal(order: Order, groups: seq<Group>, entries: seq<Entry>)
    requires forall i :: 0 <= i < |groups| ==> Gathers(groups[i], entries)
    ensures Map(Normalized, Sort(GroupLess(order), Map(Tidied, groups)))
         == Sort(NormalLess(order), Map(Settled(entries), Identities(groups)))
  {
    NormalizedTidied(groups, entries);
    MapSort(Normalized, GroupLess(order), NormalLess(order), Map(Tidied, groups));
  }

  lemma FinishedFrom(order: Order, groups: seq<Group>, i: nat) returns (j: nat)
    requires i < |Sort(GroupLess(order), Map(Tidied, groups))|
    ensures j < |groups| && Sort(GroupLess(order), Map(Tidied, groups))[i] == Tidied(groups[j])
  {
    var tidied := Map(Tidied, groups);
    SortMember(GroupLess(order), tidied, i);
    hide Sort, GroupLess;
    j :| j < |tidied| && tidied[j] == Sort(GroupLess(order), tidied)[i];
  }

  lemma IdentitiesSeparate(order: Order, x: Normal, y: Normal)
    requires Agrees(order) && x.identity != y.identity
    ensures NormalLess(order)(x, y) || NormalLess(order)(y, x)
  {
    hide Agrees, RanksOf, TupleLess;
    if RanksOf(order, x.identity) == RanksOf(order, y.identity) { RanksInjective(order, x.identity, y.identity); }
    TupleTotal(RanksOf(order, x.identity), RanksOf(order, y.identity));
  }

  lemma SettledAt(entries: seq<Entry>, ids: seq<seq<Tag>>, n: Normal) returns (i: nat)
    requires n in multiset(Map(Settled(entries), ids))
    ensures i < |ids| && n == Settled(entries)(ids[i]) && n.identity == ids[i]
  {
    i :| i < |ids| && Map(Settled(entries), ids)[i] == n;
  }

  lemma SettledSeparate(order: Order, entries: seq<Entry>, ids: seq<seq<Tag>>)
    requires Agrees(order)
    ensures Separates(NormalLess(order), multiset(Map(Settled(entries), ids)))
  {
    hide Agrees, Map, Settled, NormalLess;
    var ns := multiset(Map(Settled(entries), ids));
    forall x, y | x in ns && y in ns && x != y ensures NormalLess(order)(x, y) || NormalLess(order)(y, x) {
      var i := SettledAt(entries, ids, x);
      var j := SettledAt(entries, ids, y);
      IdentitiesSeparate(order, x, y);
    }
  }

  lemma SettledIdsAlike(plan: Plan, a: seq<Resource>, b: seq<Resource>, s: seq<seq<Tag>>, t: seq<seq<Tag>>)
    requires Identified(a) && multiset(a) == multiset(b) && multiset(s) == multiset(t)
    ensures var x, y := Entries(FlatMap(ItemsFn(plan), a)), Entries(FlatMap(ItemsFn(plan), b));
            multiset(Map(Settled(x), s)) == multiset(Map(Settled(y), t))
  {
    hide Entries, FlatMap, Settled, Identified;
    var x, y := Entries(FlatMap(ItemsFn(plan), a)), Entries(FlatMap(ItemsFn(plan), b));
    MapPermutation(Settled(x), s, t);
    forall i | 0 <= i < |t| ensures Map(Settled(x), t)[i] == Map(Settled(y), t)[i] { SettledAlike(plan, a, b, t[i]); }
    assert Map(Settled(x), t) == Map(Settled(y), t);
  }

  // The groups of two arrival orders, once finished, are alike.
  lemma GroupsAlike(order: Order, plan: Plan, a: seq<Resource>, b: seq<Resource>, g: seq<Group>, h: seq<Group>)
    requires Agrees(order) && Identified(a) && multiset(a) == multiset(b)
    requires var x, y := FlatMap(ItemsFn(plan), a), FlatMap(ItemsFn(plan), b);
             && Partition(g, Entries(x)) && OnlyKnown(plan, g, x) && Partition(h, Entries(y)) && OnlyKnown(plan, h, y)
    ensures Map(Normalized, Sort(GroupLess(order), Map(Tidied, g)))
        == Map(Normalized, Sort(GroupLess(order), Map(Tidied, h)))
  {
    var x, y := FlatMap(ItemsFn(plan), a), FlatMap(ItemsFn(plan), b);
    assert forall i :: 0 <= i < |g| ==> Gathers(g[i], Entries(x));
    assert forall i :: 0 <= i < |h| ==> Gathers(h[i], Entries(y));
    hide Entries, FlatMap, Settled, Identified, Agrees, Partition, OnlyKnown, Gathers, Sort, Map;
    EntriesAlike(plan, a, b);
    LimitsAlike(plan, Entries(x), Entries(y));
    IdentitiesAlike(plan, g, h, x, y);
    FinishedNormal(order, g, Entries(x));
    FinishedNormal(order, h, Entries(y));
    SettledIdsAlike(plan, a, b, Identities(g), Identities(h));
    NormalWeakOrder(order);
    SettledSeparate(order, Entries(x), Identities(g));
    SortOfPermutation(NormalLess(order), Map(Settled(Entries(x)), Identities(g)),
        Map(Settled(Entries(y)), Identities(h)));
  }

  // Permuting identified resources changes neither the failures nor, up to key identity, the groups, their order,
  // their contributions and contributors; and a limit is exceeded in one order exactly when it is in the other.
  lemma OrderIndependent(order: Order, plan: Plan, a: seq<Resource>, b: seq<Resource>)
    requires Agrees(order) && PositiveLimits(plan.limits) && Identified(a) && Identified(b)
        && multiset(a) == multiset(b)
    ensures match (Result(order, plan, a), Result(order, plan, b))
            case (Exceeded(_), Exceeded(_)) => true
            case (Forming(s), Forming(t)) =>
              Map(Normalized, s.groups) == Map(Normalized, t.groups) && s.failures == t.failures
                  && s.contributions == t.contributions
            case _ => false
  {
    var x, y := FlatMap(ItemsFn(plan), a), FlatMap(ItemsFn(plan), b);
    NothingSkipped(plan, {}, a);
    NothingSkipped(plan, {}, b);
    GroupingIsPartition(plan, a);
    GroupingIsPartition(plan, b);
    EntriesAlike(plan, a, b);
    LimitsAlike(plan, Entries(x), Entries(y));
    match (Form(plan, a), Form(plan, b))
    case (Forming(s), Forming(t)) =>
      hide Partition, OnlyKnown, Entries, FlatMap, Failures, Identified, Agrees, Form, Exceeding;
      GroupsAlike(order, plan, a, b, s.groups, t.groups);
      FailuresAlike(plan, a, b);
    case _ =>
  }

  /* ---------- where each match lands ---------- */

  lemma {:induction false} PutHeld(keys: seq<GroupKey>, p: Provenance, matches: seq<Match>, from: nat, k: nat)
    requires from <= k < |matches| && !matches[k].Null?
    ensures Put(Entry(keys, Contribution(matches[k], p, k))) in Puts(keys, p, matches, from)
    decreases k - from
  {
    if from < k { PutHeld(keys, p, matches, from + 1, k); }
  }

  lemma FedEntry(plan: Plan, resources: seq<Resource>, i: nat, k: nat)
    requires i < |resources| && Read(plan, resources[i]).Feeds?
    requires k < |Read(plan, resources[i]).matches| && !Read(plan, resources[i]).matches[k].Null?
    ensures var r, f := resources[i], Read(plan, resources[i]);
            Entry(f.keys, Contribution(f.matches[k], r.provenance, k)) in Entries(FlatMap(ItemsFn(plan), resources))
  {
    var r, f := resources[i], Read(plan, resources[i]);
    hide Read;
    PutHeld(f.keys, r.provenance, f.matches, 0, k);
    var e := Entry(f.keys, Contribution(f.matches[k], r.provenance, k));
    FlatMapHolds(ItemsFn(plan), resources, i, Put(e));
    var items := FlatMap(ItemsFn(plan), resources);
    var j: nat :| j < |items| && items[j] == Put(e);
    FlatMapHolds(EntryOf, items, j, e);
  }

  // Each non-null match of each usable resource lands, with its index, in exactly one group: that of its keys.
  lemma EachMatchLands(plan: Plan, resources: seq<Resource>, st: State, i: nat, k: nat)
    requires PositiveLimits(plan.limits) && Identified(resources) && Form(plan, resources) == Forming(st)
    requires i < |resources| && Read(plan, resources[i]).Feeds?
    requires k < |Read(plan, resources[i]).matches| && !Read(plan, resources[i]).matches[k].Null?
    ensures var r, f := resources[i], Read(plan, resources[i]);
            && Different(Identities(st.groups)) && Identity(f.keys) in Identities(st.groups)
            && forall g :: 0 <= g < |st.groups| ==>
                 (Contribution(f.matches[k], r.provenance, k) in st.groups[g].contributions
                  <==> Identity(st.groups[g].keys) == Identity(f.keys))
  {
    NothingSkipped(plan, {}, resources);
    GroupingIsPartition(plan, resources);
    FedEntry(plan, resources, i, k);
    var r, f := resources[i], Read(plan, resources[i]);
    var e := Entry(f.keys, Contribution(f.matches[k], r.provenance, k));
    var entries := Entries(FlatMap(ItemsFn(plan), resources));
    hide Entries, FlatMap, Identified, Read, OnlyKnown, Exceeding, Form, ItemsOf;
    assert Partition(st.groups, entries);
    forall g | 0 <= g < |st.groups|
      ensures e.contribution in st.groups[g].contributions <==> Identity(st.groups[g].keys) == Identity(e.keys)
    {
      assert Gathers(st.groups[g], entries);
      LandsIn(plan, resources, st.groups[g], e);
    }
  }

  lemma LandsIn(plan: Plan, resources: seq<Resource>, g: Group, e: Entry)
    requires Identified(resources)
    requires var entries := Entries(FlatMap(ItemsFn(plan), resources)); Gathers(g, entries) && e in entries
    ensures e.contribution in g.contributions <==> Identity(g.keys) == Identity(e.keys)
  {
    var entries := Entries(FlatMap(ItemsFn(plan), resources));
    hide Entries, Identified;
    var tags := Identity(g.keys);
    if e.contribution in g.contributions {
      var d := ChosenFrom(entries, tags, e.contribution);
      ContributionsSeparate(plan, resources, d, e);
    }
    if tags == Identity(e.keys) {
      var j: nat :| j < |entries| && entries[j] == e;
      FlatMapHolds(Choose(tags), entries, j, e.contribution);
    }
  }

  // Two resources share a group exactly when their grouping values agree in type and payload, key by key.
  lemma SharedGroup(plan: Plan, resources: seq<Resource>, st: State, g: nat, i: nat, k: nat, j: nat, m: nat)
    requires PositiveLimits(plan.limits) && Identified(resources) && Form(plan, resources) == Forming(st)
        && g < |st.groups|
    requires i < |resources| && Read(plan, resources[i]).Feeds?
    requires k < |Read(plan, resources[i]).matches| && !Read(plan, resources[i]).matches[k].Null?
    requires j < |resources| && Read(plan, resources[j]).Feeds?
    requires m < |Read(plan, resources[j]).matches| && !Read(plan, resources[j]).matches[m].Null?
    requires Contribution(Read(plan, resources[i]).matches[k], resources[i].provenance, k) in st.groups[g].contributions
    ensures Contribution(Read(plan, resources[j]).matches[m], resources[j].provenance, m) in st.groups[g].contributions
            <==> Identity(Read(plan, resources[i]).keys) == Identity(Read(plan, resources[j]).keys)
  {
    hide Read, Form, Identified, Identity, Identities;
    EachMatchLands(plan, resources, st, i, k);
    EachMatchLands(plan, resources, st, j, m);
  }
}
