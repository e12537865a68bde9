/** What grouping computes: a partition of the contributions by key identity, and when a limit stops it. */
module GroupingLaws {
  import opened Common
  import opened Bags
  import opened Sorting
  import opened CanonicalKeys
  import opened Grouping

  /* ---------- the contributions of a history ---------- */

  function EntryOf(item: Item): seq<Entry> { if item.Put? then [item.entry] else [] }

  function FailureOf(item: Item): seq<Failure> { if item.Fail? then [item.failure] else [] }

  function Entries(items: seq<Item>): seq<Entry> { FlatMap(EntryOf, items) }

  function Failures(items: seq<Item>): seq<Failure> { FlatMap(FailureOf, items) }

  function Choose(tags: seq<Tag>): Entry -> seq<Contribution> {
    (e: Entry) => if Identity(e.keys) == tags then [e.contribution] else []
  }

  // The contributions under one identity, in order.
  function Chosen(entries: seq<Entry>, tags: seq<Tag>): seq<Contribution> { FlatMap(Choose(tags), entries) }

  function ProvenanceOf(c: Contribution): Provenance { c.provenance }

  function GroupIdentity(g: Group): seq<Tag> { Identity(g.keys) }

  function Identities(groups: seq<Group>): seq<seq<Tag>> { Map(GroupIdentity, groups) }

  function KeySet(entries: seq<Entry>): set<seq<Tag>> { set e | e in entries :: Identity(e.keys) }

  // The group holds exactly the contributions of its identity, each contributor once.
  ghost predicate Gathers(g: Group, entries: seq<Entry>) {
    && AllWellMade(g.keys)
    && g.contributions == Chosen(entries, Identity(g.keys))
    && g.contributors == Unique(Map(ProvenanceOf, g.contributions))
  }

  // Groups with pairwise different identities, gathering everything.
  ghost predicate Partition(groups: seq<Group>, entries: seq<Entry>) {
    && Different(Identities(groups))
    && (forall i :: 0 <= i < |groups| ==> Gathers(groups[i], entries))
    && (forall e :: e in entries ==> Identity(e.keys) in Identities(groups))
  }

  ghost predicate EntriesFit(plan: Plan, entries: seq<Entry>) {
    forall e :: e in entries ==> AllWellMade(e.keys) && |e.keys| == |plan.groupBy|
  }

  /* ---------- placing one contribution ---------- */

  lemma ChosenMore(entries: seq<Entry>, e: Entry, tags: seq<Tag>)
    ensures Chosen(entries + [e], tags) == Chosen(entries, tags)
        + (if Identity(e.keys) == tags then [e.contribution] else [])
  {
    FlatMapConcat(Choose(tags), entries, [e]);
    FlatMapOne(Choose(tags), e);
  }

  lemma GathersMore(g: Group, entries: seq<Entry>, e: Entry)
    requires Gathers(g, entries)
    ensures var h := if Identity(e.keys) == Identity(g.keys) then WithContribution(g, e.contribution) else g;
            Gathers(h, entries + [e])
  {
    hide AllWellMade, Identity;
    ChosenMore(entries, e, Identity(g.keys));
    var c := e.contribution;
    var ps := Map(ProvenanceOf, g.contributions);
    MapAppend(ProvenanceOf, g.contributions, c);
    assert (ps + [c.provenance])[..|ps|] == ps;
  }

  lemma NewGathers(entries: seq<Entry>, e: Entry)
    requires AllWellMade(e.keys) && forall x :: x in entries ==> Identity(x.keys) != Identity(e.keys)
    ensures Gathers(WithContribution(Group(e.keys, [], []), e.contribution), entries + [e])
  {
    hide AllWellMade, Identity;
    NoneChosen(entries, Identity(e.keys));
    assert Gathers(Group(e.keys, [], []), entries);
    GathersMore(Group(e.keys, [], []), entries, e);
  }

  lemma {:induction false} NoneChosen(entries: seq<Entry>, tags: seq<Tag>)
    requires forall x :: x in entries ==> Identity(x.keys) != tags
    ensures Chosen(entries, tags) == []
  {
    if entries != [] { NoneChosen(entries[1..], tags); }
  }

  lemma FoundIsIdentity(groups: seq<Group>, entries: seq<Entry>, keys: seq<GroupKey>)
    requires AllWellMade(keys) && forall i :: 0 <= i < |groups| ==> AllWellMade(groups[i].keys)
    ensures var i := FindGroup(groups, keys);
            if i < |groups| then Identity(groups[i].keys) == Identity(keys) else Identity(keys) !in Identities(groups)
  {
    forall j | 0 <= j < |groups|
      ensures EqualTuples(groups[j].keys, keys) <==> Identity(groups[j].keys) == Identity(keys)
    {
      EqualTuplesAreIdentities(groups[j].keys, keys);
    }
  }

  lemma PlaceIdentities(groups: seq<Group>, e: Entry)
    ensures var i := FindGroup(groups, e.keys);
            Identities(Place(groups, e)) == if i < |groups| then Identities(groups)
                else Identities(groups) + [Identity(e.keys)]
  {
    hide Identity, FindGroup;
  }

  // Placing a contribution keeps the partition.
  lemma PlacePartitions(groups: seq<Group>, entries: seq<Entry>, e: Entry)
    requires Partition(groups, entries) && AllWellMade(e.keys)
    ensures Partition(Place(groups, e), entries + [e])
  {
    hide AllWellMade, Identity, Place, FindGroup, WithContribution;
    assert forall i :: 0 <= i < |groups| ==> AllWellMade(groups[i].keys);
    FoundIsIdentity(groups, entries, e.keys);
    PlaceIdentities(groups, e);
    var placed := Place(groups, e);
    forall j | 0 <= j < |placed| ensures Gathers(placed[j], entries + [e]) { PlaceGathers(groups, entries, e, j); }
    PlaceCovers(groups, entries, e);
  }

  lemma PlaceGathers(groups: seq<Group>, entries: seq<Entry>, e: Entry, j: nat)
    requires Partition(groups, entries) && AllWellMade(e.keys) && j < |Place(groups, e)|
    ensures Gathers(Place(groups, e)[j], entries + [e])
  {
    hide AllWellMade, Identity, Gathers, WithContribution;
    assert forall i :: 0 <= i < |groups| ==> AllWellMade(groups[i].keys) by { GathersMade(groups, entries); }
    FoundIsIdentity(groups, entries, e.keys);
    var i := FindGroup(groups, e.keys);
    if j < |groups| {
      GathersMore(groups[j], entries, e);
      assert Identities(groups)[j] == Identity(groups[j].keys);
      if i < |groups| { assert Identities(groups)[i] == Identity(groups[i].keys); }
    } else {
      forall x | x in entries ensures Identity(x.keys) != Identity(e.keys) {}
      NewGathers(entries, e);
    }
  }

  lemma GathersMade(groups: seq<Group>, entries: seq<Entry>)
    requires Partition(groups, entries)
    ensures forall i :: 0 <= i < |groups| ==> AllWellMade(groups[i].keys)
  {
  }

  lemma PlaceCovers(groups: seq<Group>, entries: seq<Entry>, e: Entry)
    requires Partition(groups, entries) && AllWellMade(e.keys)
    ensures Different(Identities(Place(groups, e)))
    ensures forall x :: x in entries + [e] ==> Identity(x.keys) in Identities(Place(groups, e))
  {
    hide AllWellMade, Identity, Gathers, Place;
    GathersMade(groups, entries);
    FoundIsIdentity(groups, entries, e.keys);
    PlaceIdentities(groups, e);
    var i := FindGroup(groups, e.keys);
    if i < |groups| { assert Identities(groups)[i] == Identity(groups[i].keys); }
  }

  /* ---------- the whole fold ---------- */

  predicate Touched(items: seq<Item>) { Touch in items }

  // The identities of the groups, and no others: those of the contributions, and the global group when asked for.
  ghost predicate OnlyKnown(plan: Plan, groups: seq<Group>, items: seq<Item>) {
    forall tags :: tags in Identities(groups) <==>
      tags in KeySet(Entries(items)) || (plan.groupBy == [] && Touched(items) && tags == [])
  }

  ghost predicate Represents(plan: Plan, st: State, items: seq<Item>) {
    && Partition(st.groups, Entries(items)) && OnlyKnown(plan, st.groups, items)
    && st.failures == Failures(items) && st.contributions == |Entries(items)| <= plan.limits.maxContributions
    && |st.groups| <= plan.limits.maxGroups
  }

  // More contributions, or more different keys, than the limits allow.
  ghost predicate Exceeding(plan: Plan, entries: seq<Entry>) {
    |entries| > plan.limits.maxContributions || |KeySet(entries)| > plan.limits.maxGroups
  }

  lemma ItemsMore(items: seq<Item>, item: Item)
    ensures Entries(items + [item]) == Entries(items) + EntryOf(item)
    ensures Failures(items + [item]) == Failures(items) + FailureOf(item)
  {
    FlatMapConcat(EntryOf, items, [item]);
    FlatMapOne(EntryOf, item);
    FlatMapConcat(FailureOf, items, [item]);
    FlatMapOne(FailureOf, item);
  }

  lemma PutRepresents(plan: Plan, st: State, items: seq<Item>, e: Entry)
    requires Represents(plan, st, items) && EntriesFit(plan, [e])
    requires AddItem(plan, st, Put(e)).Forming?
    ensures Represents(plan, AddItem(plan, st, Put(e)).state, items + [Put(e)])
  {
    hide Partition, OnlyKnown, Entries, Failures, AllWellMade, FindGroup, Place;
    assert e in [e];
    ItemsMore(items, Put(e));
    PlacePartitions(st.groups, Entries(items), e);
    assert Failures(items) + [] == Failures(items);
    PlaceKnown(plan, st.groups, items, e);
    PlaceSize(st.groups, e);
  }

  lemma PlaceSize(groups: seq<Group>, e: Entry)
    ensures |Place(groups, e)| == if FindGroup(groups, e.keys) < |groups| then |groups| else |groups| + 1
  {
  }

  lemma PlaceKnown(plan: Plan, groups: seq<Group>, items: seq<Item>, e: Entry)
    requires Partition(groups, Entries(items)) && OnlyKnown(plan, groups, items) && AllWellMade(e.keys)
    ensures OnlyKnown(plan, Place(groups, e), items + [Put(e)])
  {
    hide AllWellMade, Identity, Partition, Place, Entries, FindGroup, KeySet, Identities;
    FoundKnown(groups, Entries(items), e);
    PlaceIdentities(groups, e);
    ItemsMore(items, Put(e));
    KeySetMore(Entries(items), e);
    assert Touched(items + [Put(e)]) == Touched(items);
  }

  lemma FoundKnown(groups: seq<Group>, entries: seq<Entry>, e: Entry)
    requires Partition(groups, entries) && AllWellMade(e.keys)
    ensures FindGroup(groups, e.keys) < |groups| ==> Identity(e.keys) in Identities(groups)
  {
    hide AllWellMade, Identity, Gathers, FindGroup;
    GathersMade(groups, entries);
    FoundIsIdentity(groups, entries, e.keys);
    var i := FindGroup(groups, e.keys);
    if i < |groups| { assert Identities(groups)[i] == Identity(e.keys); }
  }

  lemma KeySetMore(entries: seq<Entry>, e: Entry)
    ensures KeySet(entries + [e]) == KeySet(entries) + {Identity(e.keys)}
  {
    forall x | x in entries + [e] ensures x in entries || x == e {}
    assert e in entries + [e];
    forall x | x in entries ensures x in entries + [e] {}
  }

  lemma TouchRepresents(plan: Plan, st: State, items: seq<Item>)
    requires Represents(plan, st, items) && PositiveLimits(plan.limits) && EntriesFit(plan, Entries(items))
    ensures AddItem(plan, st, Touch).Forming? && Represents(plan, AddItem(plan, st, Touch).state, items + [Touch])
  {
    hide Entries, Failures, Partition, OnlyKnown, EntriesFit;
    ItemsMore(items, Touch);
    assert Entries(items) + [] == Entries(items) && Failures(items) + [] == Failures(items);
    if plan.groupBy == [] && st.groups == [] {
      GlobalPartition(Entries(items));
      GlobalKnown(plan, items);
    } else {
      if plan.groupBy == [] { GlobalOnly(plan, st.groups, items); }
      TouchKnown(plan, st.groups, items);
    }
  }

  lemma TouchKnown(plan: Plan, groups: seq<Group>, items: seq<Item>)
    requires OnlyKnown(plan, groups, items) && (plan.groupBy == [] ==> [] in Identities(groups))
    ensures OnlyKnown(plan, groups, items + [Touch])
  {
    hide Entries, Identities;
    ItemsMore(items, Touch);
    assert Entries(items) + [] == Entries(items);
    assert (items + [Touch])[|items|] == Touch;
  }

  lemma GlobalKnown(plan: Plan, items: seq<Item>)
    requires plan.groupBy == [] && OnlyKnown(plan, [], items)
    ensures OnlyKnown(plan, [Group([], [], [])], items + [Touch])
  {
    hide Entries;
    ItemsMore(items, Touch);
    assert Entries(items) + [] == Entries(items);
    assert (items + [Touch])[|items|] == Touch;
    assert Identities([]) == [];
    assert Identities([Group([], [], [])]) == [Identity([])] && Identity([]) == [];
  }

  lemma GlobalPartition(entries: seq<Entry>)
    requires Partition([], entries)
    ensures entries == [] && Partition([Group([], [], [])], entries)
  {
    FirstIsMember(entries);
    assert Identity([]) == [];
  }

  lemma FirstIsMember<T>(s: seq<T>)
    ensures s != [] ==> s[0] in s
  {
  }

  lemma GlobalOnly(plan: Plan, groups: seq<Group>, items: seq<Item>)
    requires plan.groupBy == [] && groups != [] && OnlyKnown(plan, groups, items)
    requires EntriesFit(plan, Entries(items))
    ensures [] in Identities(groups)
  {
    var tags := Identities(groups)[0];
    assert tags in Identities(groups);
    if tags in KeySet(Entries(items)) {
      var e :| e in Entries(items) && Identity(e.keys) == tags;
      assert |e.keys| == 0;
      assert Identity(e.keys) == [];
    }
  }

  lemma FailRepresents(plan: Plan, st: State, items: seq<Item>, f: Failure)
    requires Represents(plan, st, items)
    ensures Represents(plan, AddItem(plan, st, Fail(f)).state, items + [Fail(f)])
  {
    hide Entries, Failures, Partition, OnlyKnown;
    ItemsMore(items, Fail(f));
    assert Entries(items) + [] == Entries(items);
    FailKnown(plan, st.groups, items, f);
  }

  lemma FailKnown(plan: Plan, groups: seq<Group>, items: seq<Item>, f: Failure)
    requires OnlyKnown(plan, groups, items)
    ensures OnlyKnown(plan, groups, items + [Fail(f)])
  {
    hide Entries, Identities;
    ItemsMore(items, Fail(f));
    assert Entries(items) + [] == Entries(items);
    assert Touched(items + [Fail(f)]) == Touched(items);
  }

  // The limits stop a contribution only when it takes the history beyond them.
  lemma StopsBeyond(plan: Plan, st: State, items: seq<Item>, e: Entry)
    requires Represents(plan, st, items) && PositiveLimits(plan.limits)
    requires EntriesFit(plan, Entries(items)) && EntriesFit(plan, [e]) && AddItem(plan, st, Put(e)).Exceeded?
    ensures Exceeding(plan, Entries(items) + [e])
  {
    hide Entries, AllWellMade, Identity, Gathers;
    assert e in [e];
    assert plan.groupBy == [] ==> Identity(e.keys) == [];
    if st.contributions < plan.limits.maxContributions {
      var entries := Entries(items);
      GathersMade(st.groups, entries);
      FoundIsIdentity(st.groups, entries, e.keys);
      KeySetMore(entries, e);
      if plan.groupBy == [] && st.groups != [] {
        GlobalOnly(plan, st.groups, items);
      }
      if plan.groupBy != [] {
        KnownSize(plan, st.groups, items);
      }
    }
  }

  lemma KnownSize(plan: Plan, groups: seq<Group>, items: seq<Item>)
    requires plan.groupBy != [] && OnlyKnown(plan, groups, items) && Different(Identities(groups))
    ensures |KeySet(Entries(items))| == |groups|
  {
    hide Entries;
    DifferentSize(Identities(groups));
    assert KeySet(Entries(items)) == Elements(Identities(groups));
  }

  lemma WithinLimits(plan: Plan, st: State, items: seq<Item>)
    requires Represents(plan, st, items)
    ensures !Exceeding(plan, Entries(items))
  {
    hide Entries, Gathers;
    var ids := Identities(st.groups);
    DifferentSize(ids);
    assert KeySet(Entries(items)) <= Elements(ids);
    SubsetSize(KeySet(Entries(items)), Elements(ids));
  }

  lemma ExceedingMore(plan: Plan, entries: seq<Entry>, more: seq<Entry>)
    requires Exceeding(plan, entries)
    ensures Exceeding(plan, entries + more)
  {
    forall e | e in entries ensures e in entries + more {}
    SubsetSize(KeySet(entries), KeySet(entries + more));
  }

  // A whole history either is represented, or goes beyond the limits.
  lemma {:induction false} FoldRepresents(plan: Plan, st: State, before: seq<Item>, items: seq<Item>)
    requires Represents(plan, st, before) && PositiveLimits(plan.limits)
    requires EntriesFit(plan, Entries(before + items))
    ensures match Fold(plan, st, items)
            case Forming(end) => Represents(plan, end, before + items) && !Exceeding(plan, Entries(before + items))
            case Exceeded(_) => Exceeding(plan, Entries(before + items))
    decreases |items|
  {
    hide Represents, Exceeding, Entries, AddItem, EntriesFit;
    if items == [] {
      assert before + items == before;
      WithinLimits(plan, st, before);
    } else {
      var item, rest := items[0], items[1..];
      assert before + items == (before + [item]) + rest;
      EntriesSplit(plan, before, item, rest);
      match AddItem(plan, st, item)
      case Exceeded(_) =>
        ExceedsAt(plan, st, before, item, rest);
      case Forming(next) =>
        StepRepresents(plan, st, before, item);
        FoldRepresents(plan, next, before + [item], rest);
    }
  }

  lemma EntriesSplit(plan: Plan, before: seq<Item>, item: Item, rest: seq<Item>)
    requires EntriesFit(plan, Entries((before + [item]) + rest))
    ensures Entries((before + [item]) + rest) == Entries(before) + EntryOf(item) + Entries(rest)
    ensures EntriesFit(plan, Entries(before)) && (item.Put? ==> EntriesFit(plan, [item.entry]))
  {
    FlatMapConcat(EntryOf, before + [item], rest);
    ItemsMore(before, item);
    var all := Entries(before) + EntryOf(item) + Entries(rest);
    assert Entries((before + [item]) + rest) == all;
    hide Entries;
    forall e | e in Entries(before) ensures e in all {}
    if item.Put? { assert all[|Entries(before)|] == item.entry; }
  }

  lemma StepRepresents(plan: Plan, st: State, before: seq<Item>, item: Item)
    requires Represents(plan, st, before) && PositiveLimits(plan.limits) && AddItem(plan, st, item).Forming?
    requires EntriesFit(plan, Entries(before)) && (item.Put? ==> EntriesFit(plan, [item.entry]))
    ensures Represents(plan, AddItem(plan, st, item).state, before + [item])
  {
    hide Represents, AddItem, Entries, EntriesFit;
    match item
    case Put(e) => PutRepresents(plan, st, before, e);
    case Touch => TouchRepresents(plan, st, before);
    case Fail(f) => FailRepresents(plan, st, before, f);
  }

  lemma ExceedsAt(plan: Plan, st: State, before: seq<Item>, item: Item, rest: seq<Item>)
    requires Represents(plan, st, before) && PositiveLimits(plan.limits) && AddItem(plan, st, item).Exceeded?
    requires EntriesFit(plan, Entries(before)) && (item.Put? ==> EntriesFit(plan, [item.entry]))
    ensures Exceeding(plan, Entries(before) + EntryOf(item) + Entries(rest))
  {
    assert item.Put?;
    hide Represents, Exceeding, Entries, AddItem, EntriesFit;
    StopsBeyond(plan, st, before, item.entry);
    ExceedingMore(plan, Entries(before) + [item.entry], Entries(rest));
  }

  /* ---------- every entry fits ---------- */

  lemma {:induction false} KeysFit(groupBy: seq<GroupField>, fields: seq<Field>)
    ensures match GroupingKeys(groupBy, fields)
            case Keys(keys) => |keys| == |groupBy| && AllWellMade(keys)
            case BadKey(_) => true
  {
    if groupBy != [] { KeysFit(groupBy[1..], fields); }
  }

  lemma {:induction false} PutsHold(keys: seq<GroupKey>, p: Provenance, matches: seq<Match>, from: nat, item: Item)
    requires from <= |matches| && item in Puts(keys, p, matches, from)
    ensures item.Put? && item.entry.keys == keys && item.entry.contribution.provenance == p
    ensures var c := item.entry.contribution;
            from <= c.index < |matches| && c.value == matches[c.index] && !c.value.Null?
    decreases |matches| - from
  {
    if item in Puts(keys, p, matches, from + 1) { PutsHold(keys, p, matches, from + 1, item); }
  }

  // The contributions of an item come from the resource it was read from.
  lemma ItemOrigin(plan: Plan, r: Resource, item: Item)
    requires item in ItemsFor(plan, r)
    ensures item.Fail? ==> Read(plan, r) == Fails(item.failure) && item.failure.provenance == r.provenance
    ensures item.Put? ==>
              var c := item.entry.contribution;
              && Read(plan, r).Feeds? && item.entry.keys == Read(plan, r).keys && c.provenance == r.provenance
              && c.index < |Read(plan, r).matches| && c.value == Read(plan, r).matches[c.index] && !c.value.Null?
  {
    match Read(plan, r)
    case Ignored =>
    case Fails(_) =>
    case Feeds(keys, matches) =>
      if item.Put? { PutsHold(keys, r.provenance, matches, 0, item); }
      if item.Fail? {
        assert item in Puts(keys, r.provenance, matches, 0);
        PutsHold(keys, r.provenance, matches, 0, item);
      }
  }

  lemma ReadFits(plan: Plan, r: Resource)
    ensures Read(plan, r).Feeds? ==> |Read(plan, r).keys| == |plan.groupBy| && AllWellMade(Read(plan, r).keys)
  {
    KeysFit(plan.groupBy, r.fields);
  }

  lemma {:induction false} ItemFrom(plan: Plan, seen: set<string>, resources: seq<Resource>, item: Item)
    returns (i: nat)
    requires item in ItemsOf(plan, seen, resources)
    ensures i < |resources| && item in ItemsFor(plan, resources[i])
    decreases |resources|
  {
    hide ItemsFor;
    if item in ItemsOf(plan, Marked(seen, resources[0]), resources[1..]) {
      var j := ItemFrom(plan, Marked(seen, resources[0]), resources[1..], item);
      i := j + 1;
    } else {
      i := 0;
    }
  }

  lemma AllFit(plan: Plan, seen: set<string>, resources: seq<Resource>)
    ensures EntriesFit(plan, Entries(ItemsOf(plan, seen, resources)))
  {
    hide ItemsOf, ItemsFor, AllWellMade, Read;
    var items := ItemsOf(plan, seen, resources);
    forall e | e in Entries(items) ensures AllWellMade(e.keys) && |e.keys| == |plan.groupBy| {
      var j := FlatMapMember(EntryOf, items, e);
      var i := ItemFrom(plan, seen, resources, items[j]);
      ItemOrigin(plan, resources[i], items[j]);
      ReadFits(plan, resources[i]);
    }
  }

  lemma EmptyRepresents(plan: Plan)
    requires PositiveLimits(plan.limits)
    ensures Represents(plan, EMPTY, [])
  {
    assert Entries([]) == [] && Failures([]) == [];
    assert KeySet([]) == {};
  }

  // For every input: the groups are the partition of the contributions by key identity; or the contributions, or
  // their different keys, are more than the limits allow. The order of the resources does not decide which.
  lemma GroupingIsPartition(plan: Plan, resources: seq<Resource>)
    requires PositiveLimits(plan.limits)
    ensures var items := ItemsOf(plan, {}, resources);
            match Form(plan, resources)
            case Forming(st) => Represents(plan, st, items) && !Exceeding(plan, Entries(items))
            case Exceeded(_) => Exceeding(plan, Entries(items))
  {
    hide ItemsOf, Represents, Exceeding, Entries;
    EmptyRepresents(plan);
    var items := ItemsOf(plan, {}, resources);
    AllFit(plan, {}, resources);
    assert [] + items == items;
    FoldRepresents(plan, EMPTY, [], items);
  }

  /* ---------- which limit stops it ---------- */

  // The contributions before position k are within both limits, and the one there goes beyond: beyond the number of
  // contributions, or, that one still allowing it, beyond the number of groups.
  ghost predicate StoppedAt(plan: Plan, entries: seq<Entry>, kind: LimitKind, k: int) {
    && 0 <= k < |entries| && !Exceeding(plan, entries[..k])
    && match kind
       case TooManyContributions => k == plan.limits.maxContributions
       case TooManyGroups => k < plan.limits.maxContributions && |KeySet(entries[..k + 1])| > plan.limits.maxGroups
  }

  lemma StopKind(plan: Plan, st: State, before: seq<Item>, e: Entry, rest: seq<Item>)
    requires Represents(plan, st, before) && PositiveLimits(plan.limits)
    requires EntriesFit(plan, Entries(before)) && EntriesFit(plan, [e]) && AddItem(plan, st, Put(e)).Exceeded?
    ensures StoppedAt(plan, Entries(before) + [e] + Entries(rest), AddItem(plan, st, Put(e)).kind, |Entries(before)|)
  {
    WithinLimits(plan, st, before);
    StopsBeyond(plan, st, before, e);
    hide Entries, Partition, OnlyKnown, FindGroup, Place, EntriesFit;
    var es, all := Entries(before), Entries(before) + [e] + Entries(rest);
    assert all[..|es|] == es && all[..|es| + 1] == es + [e];
    hide KeySet;
  }

  lemma {:induction false} FoldStops(plan: Plan, st: State, before: seq<Item>, items: seq<Item>)
    requires Represents(plan, st, before) && PositiveLimits(plan.limits)
    requires EntriesFit(plan, Entries(before + items)) && Fold(plan, st, items).Exceeded?
    ensures exists k :: StoppedAt(plan, Entries(before + items), Fold(plan, st, items).kind, k)
    decreases |items|
  {
    hide Represents, Exceeding, Entries, AddItem, EntriesFit, StoppedAt;
    var item, rest := items[0], items[1..];
    assert before + items == (before + [item]) + rest;
    EntriesSplit(plan, before, item, rest);
    match AddItem(plan, st, item)
    case Exceeded(_) =>
      StopsPut(plan, st, item);
      StopKind(plan, st, before, item.entry, rest);
    case Forming(next) =>
      StepRepresents(plan, st, before, item);
      FoldStops(plan, next, before + [item], rest);
  }

  lemma StopsPut(plan: Plan, st: State, item: Item)
    requires AddItem(plan, st, item).Exceeded?
    ensures item.Put? && EntryOf(item) == [item.entry]
  {
  }

  // The limit that stops the grouping is the one that the first contribution beyond them breaks.
  lemma StoppedByFirst(plan: Plan, resources: seq<Resource>)
    requires PositiveLimits(plan.limits) && Form(plan, resources).Exceeded?
    ensures exists k :: StoppedAt(plan, Entries(ItemsOf(plan, {}, resources)), Form(plan, resources).kind, k)
  {
    hide ItemsOf, Represents, Entries, StoppedAt;
    EmptyRepresents(plan);
    var items := ItemsOf(plan, {}, resources);
    AllFit(plan, {}, resources);
    assert [] + items == items;
    FoldStops(plan, EMPTY, [], items);
  }
}
