/** Which of several equal keys a group shows: the first that arrived, so the order of arrival can show. */
module ShownKeys {
  import opened Common
  import opened Bags
  import opened Sorting
  import opened CanonicalKeys
  import opened Rounding
  import opened Grouping
  import opened GroupingLaws
  import opened GroupingOrder

  // The keys of the first contribution under an identity.
  function FirstKeys(entries: seq<Entry>, tags: seq<Tag>): seq<GroupKey> {
    if entries == [] then []
    else if Identity(entries[0].keys) == tags then entries[0].keys
    else FirstKeys(entries[1..], tags)
  }

  lemma {:induction false} FirstKeysMore(entries: seq<Entry>, e: Entry, tags: seq<Tag>)
    ensures FirstKeys(entries + [e], tags) ==
            if tags in KeySet(entries) then FirstKeys(entries, tags)
            else if Identity(e.keys) == tags then e.keys else []
  {
    if entries == [] {
      assert entries + [e] == [e] && [e][1..] == [];
    } else {
      assert (entries + [e])[1..] == entries[1..] + [e];
      FirstKeysMore(entries[1..], e, tags);
      KeySetFirst(entries);
    }
  }

  lemma KeySetFirst(entries: seq<Entry>)
    requires entries != []
    ensures KeySet(entries) == {Identity(entries[0].keys)} + KeySet(entries[1..])
  {
    assert entries == [entries[0]] + entries[1..];
    assert forall e :: e in entries <==> e == entries[0] || e in entries[1..];
  }

  lemma {:induction false} FirstKeysFound(entries: seq<Entry>, tags: seq<Tag>)
    ensures if tags in KeySet(entries)
            then exists e :: e in entries && e.keys == FirstKeys(entries, tags) && Identity(e.keys) == tags
            else FirstKeys(entries, tags) == []
  {
    if entries != [] {
      KeySetFirst(entries);
      FirstKeysFound(entries[1..], tags);
    }
  }

  ghost predicate ShowsFirst(g: Group, entries: seq<Entry>) { g.keys == FirstKeys(entries, Identity(g.keys)) }

  ghost predicate AllShowFirst(groups: seq<Group>, entries: seq<Entry>) {
    forall i :: 0 <= i < |groups| ==> ShowsFirst(groups[i], entries)
  }

  lemma EmptyIdentity(entries: seq<Entry>)
    ensures FirstKeys(entries, []) == []
  {
    FirstKeysFound(entries, []);
  }

  lemma StillFirst(g: Group, entries: seq<Entry>, e: Entry)
    requires ShowsFirst(g, entries) && (Identity(g.keys) in KeySet(entries) || Identity(g.keys) == [])
    ensures ShowsFirst(g, entries + [e])
  {
    FirstKeysMore(entries, e, Identity(g.keys));
    EmptyIdentity(entries);
    EmptyIdentity(entries + [e]);
  }

  lemma PutShowsFirst(plan: Plan, groups: seq<Group>, items: seq<Item>, e: Entry)
    requires Partition(groups, Entries(items)) && OnlyKnown(plan, groups, items) && AllShowFirst(groups, Entries(items))
    requires AllWellMade(e.keys)
    ensures AllShowFirst(Place(groups, e), Entries(items) + [e])
  {
    var entries := Entries(items);
    hide AllWellMade, Entries, Gathers, FirstKeys;
    GathersMade(groups, entries);
    FoundIsIdentity(groups, entries, e.keys);
    FirstKeysMore(entries, e, Identity(e.keys));
    forall j | 0 <= j < |groups| ensures ShowsFirst(groups[j], entries + [e]) {
      assert Identities(groups)[j] == Identity(groups[j].keys);
      StillFirst(groups[j], entries, e);
    }
  }

  lemma TouchShowsFirst(plan: Plan, st: State, entries: seq<Entry>)
    requires AllShowFirst(st.groups, entries)
    ensures AddItem(plan, st, Touch).Forming? && AllShowFirst(AddItem(plan, st, Touch).state.groups, entries)
  {
    hide FirstKeys;
    EmptyIdentity(entries);
    assert Identity([]) == [];
  }

  lemma StepShowsFirst(plan: Plan, st: State, items: seq<Item>, item: Item)
    requires Represents(plan, st, items) && AllShowFirst(st.groups, Entries(items)) && AddItem(plan, st, item).Forming?
    requires item.Put? ==> EntriesFit(plan, [item.entry])
    ensures AllShowFirst(AddItem(plan, st, item).state.groups, Entries(items + [item]))
  {
    ItemsMore(items, item);
    assert Entries(items) + [] == Entries(items);
    hide Entries, Failures, Partition, OnlyKnown, Place, AllShowFirst;
    match item
    case Put(e) =>
      assert e in [e];
      PutShowsFirst(plan, st.groups, items, e);
    case Touch => TouchShowsFirst(plan, st, Entries(items));
    case Fail(_) =>
  }

  lemma {:induction false} FoldShowsFirst(plan: Plan, st: State, before: seq<Item>, items: seq<Item>)
    requires Represents(plan, st, before) && PositiveLimits(plan.limits) && AllShowFirst(st.groups, Entries(before))
    requires EntriesFit(plan, Entries(before + items)) && Fold(plan, st, items).Forming?
    ensures AllShowFirst(Fold(plan, st, items).state.groups, Entries(before + items))
    decreases |items|
  {
    hide Represents, Entries, AddItem, EntriesFit, AllShowFirst;
    if items == [] {
      assert before + items == before;
    } else {
      var item, rest := items[0], items[1..];
      assert before + items == (before + [item]) + rest;
      EntriesSplit(plan, before, item, rest);
      var next := AddItem(plan, st, item).state;
      StepRepresents(plan, st, before, item);
      StepShowsFirst(plan, st, before, item);
      FoldShowsFirst(plan, next, before + [item], rest);
    }
  }

  // Every formed group shows the keys that arrived first under its identity.
  lemma FirstKeyShown(plan: Plan, resources: seq<Resource>)
    requires PositiveLimits(plan.limits) && Form(plan, resources).Forming?
    ensures AllShowFirst(Form(plan, resources).state.groups, Entries(ItemsOf(plan, {}, resources)))
  {
    hide ItemsOf, Represents, Entries, FirstKeys;
    var items := ItemsOf(plan, {}, resources);
    EmptyRepresents(plan);
    AllFit(plan, {}, resources);
    assert [] + items == items;
    FoldShowsFirst(plan, EMPTY, [], items);
  }

  /* ---------- in the result ---------- */

  // The contributions of identified resources.
  function EntriesFrom(plan: Plan, resources: seq<Resource>): seq<Entry> { Entries(FlatMap(ItemsFn(plan), resources)) }

  lemma ResultShowsFirst(order: Order, plan: Plan, resources: seq<Resource>, s: State)
    requires PositiveLimits(plan.limits) && Identified(resources) && Result(order, plan, resources) == Forming(s)
    ensures AllShowFirst(s.groups, EntriesFrom(plan, resources))
  {
    FirstKeyShown(plan, resources);
    NothingSkipped(plan, {}, resources);
    hide Entries, FlatMap, Identified, ItemsOf, Form, Sort, GroupLess, FirstKeys;
    var groups := Form(plan, resources).state.groups;
    forall i | 0 <= i < |s.groups| ensures ShowsFirst(s.groups[i], EntriesFrom(plan, resources)) {
      var j := FinishedFrom(order, groups, i);
    }
  }

  // The result has a group for each contribution.
  lemma GroupFound(order: Order, plan: Plan, resources: seq<Resource>, s: State, e: Entry) returns (n: nat)
    requires PositiveLimits(plan.limits) && Identified(resources) && Result(order, plan, resources) == Forming(s)
    requires e in EntriesFrom(plan, resources)
    ensures n < |s.groups| && Identity(s.groups[n].keys) == Identity(e.keys)
  {
    NothingSkipped(plan, {}, resources);
    GroupingIsPartition(plan, resources);
    var groups := Form(plan, resources).state.groups;
    hide Entries, FlatMap, Identified, ItemsOf, Form, Gathers, OnlyKnown, Failures, Sort, GroupLess;
    assert Identity(e.keys) in Identities(groups);
    var m: nat :| m < |groups| && Identities(groups)[m] == Identity(e.keys);
    var tidied := Map(Tidied, groups);
    assert tidied[m] == Tidied(groups[m]);
    SortMembers(GroupLess(order), tidied, tidied[m]);
    n :| n < |s.groups| && s.groups[n] == tidied[m];
  }

  /* ---------- when the shown keys do not depend on the order ---------- */

  // Contributions with equal identities carry equal keys.
  ghost predicate KeysAgree(entries: seq<Entry>) {
    forall e, f :: e in entries && f in entries && Identity(e.keys) == Identity(f.keys) ==> e.keys == f.keys
  }

  function KeysOf(g: Group): seq<GroupKey> { g.keys }

  // Both orders show the same keys, group by group.
  ghost predicate ShowAlike(order: Order, plan: Plan, a: seq<Resource>, b: seq<Resource>) {
    match (Result(order, plan, a), Result(order, plan, b))
    case (Forming(s), Forming(t)) => Map(KeysOf, s.groups) == Map(KeysOf, t.groups)
    case _ => false
  }

  lemma AgreedFirst(x: seq<Entry>, y: seq<Entry>, tags: seq<Tag>)
    requires KeysAgree(x) && multiset(x) == multiset(y)
    ensures FirstKeys(x, tags) == FirstKeys(y, tags)
  {
    SameMembers(x, y);
    FirstKeysFound(x, tags);
    FirstKeysFound(y, tags);
    assert tags in KeySet(x) <==> tags in KeySet(y);
  }

  lemma AgreeingKeysShowAlike(order: Order, plan: Plan, a: seq<Resource>, b: seq<Resource>)
    requires Agrees(order) && PositiveLimits(plan.limits) && Identified(a) && Identified(b)
        && multiset(a) == multiset(b)
    requires Result(order, plan, a).Forming? && KeysAgree(EntriesFrom(plan, a))
    ensures ShowAlike(order, plan, a, b)
  {
    OrderIndependent(order, plan, a, b);
    var s, t := Result(order, plan, a).state, Result(order, plan, b).state;
    ResultShowsFirst(order, plan, a, s);
    ResultShowsFirst(order, plan, b, t);
    EntriesAlike(plan, a, b);
    var x, y := EntriesFrom(plan, a), EntriesFrom(plan, b);
    hide EntriesFrom, Result, Identified, Agrees, FirstKeys, KeysAgree, Identity;
    assert |Map(Normalized, s.groups)| == |s.groups| && |Map(Normalized, t.groups)| == |t.groups|;
    forall i | 0 <= i < |s.groups| ensures s.groups[i].keys == t.groups[i].keys {
      assert Map(Normalized, s.groups)[i] == Map(Normalized, t.groups)[i];
      assert ShowsFirst(s.groups[i], x) && ShowsFirst(t.groups[i], y);
      AgreedFirst(x, y, Identity(s.groups[i].keys));
    }
    hide Map;
    assert Map(KeysOf, s.groups) == Map(KeysOf, t.groups);
  }

  // The resource contributes a match, under these keys.
  ghost predicate Contributes(plan: Plan, r: Resource) {
    Read(plan, r).Feeds? && exists k :: 0 <= k < |Read(plan, r).matches| && !Read(plan, r).matches[k].Null?
  }

  function KeysRead(plan: Plan, r: Resource): seq<GroupKey> {
    match Read(plan, r) case Feeds(keys, _) => keys case _ => []
  }

  // Whoever arrives first has its keys shown.
  lemma FrontFirst(plan: Plan, r: Resource, rest: seq<Resource>) returns (e: Entry)
    requires Contributes(plan, r)
    ensures var keys := KeysRead(plan, r);
            FirstKeys(EntriesFrom(plan, [r] + rest), Identity(keys)) == keys
            && e in EntriesFrom(plan, [r] + rest) && e.keys == keys
  {
    var here := Entries(ItemsFor(plan, r));
    FrontEntries(plan, r, rest);
    hide Contributes, KeysRead, ItemsFor, Entries, Identity;
    e := FedHere(plan, r);
    FirstOfItems(plan, r);
    assert EntriesFrom(plan, [r] + rest)[0] == here[0];
    var i :| 0 <= i < |here| && here[i] == e;
    assert EntriesFrom(plan, [r] + rest)[i] == e;
  }

  lemma FrontEntries(plan: Plan, r: Resource, rest: seq<Resource>)
    ensures EntriesFrom(plan, [r] + rest) == Entries(ItemsFor(plan, r)) + EntriesFrom(plan, rest)
  {
    FlatMapConcat(ItemsFn(plan), [r], rest);
    FlatMapOne(ItemsFn(plan), r);
    FlatMapConcat(EntryOf, ItemsFor(plan, r), FlatMap(ItemsFn(plan), rest));
  }

  lemma FedHere(plan: Plan, r: Resource) returns (e: Entry)
    requires Contributes(plan, r)
    ensures e in Entries(ItemsFor(plan, r)) && e.keys == KeysRead(plan, r)
  {
    var f := Read(plan, r);
    var k :| 0 <= k < |f.matches| && !f.matches[k].Null?;
    e := Entry(f.keys, Contribution(f.matches[k], r.provenance, k));
    PutHeld(f.keys, r.provenance, f.matches, 0, k);
    var items := ItemsFor(plan, r);
    assert Put(e) in items;
    var j: nat :| j < |items| && items[j] == Put(e);
    FlatMapHolds(EntryOf, items, j, e);
  }

  lemma FirstOfItems(plan: Plan, r: Resource)
    ensures forall e :: e in Entries(ItemsFor(plan, r)) ==> e.keys == KeysRead(plan, r)
  {
    hide ItemsFor;
    forall e | e in Entries(ItemsFor(plan, r)) ensures e.keys == KeysRead(plan, r) {
      var j := EntryAt(ItemsFor(plan, r), e);
      ItemOrigin(plan, r, ItemsFor(plan, r)[j]);
    }
  }

  lemma FrontShown(order: Order, plan: Plan, r: Resource, rest: seq<Resource>, s: State) returns (n: nat)
    requires PositiveLimits(plan.limits) && Identified([r] + rest) && Contributes(plan, r)
    requires Result(order, plan, [r] + rest) == Forming(s)
    ensures n < |s.groups| && s.groups[n].keys == KeysRead(plan, r)
    ensures forall m :: 0 <= m < |s.groups| && Identity(s.groups[m].keys) == Identity(KeysRead(plan, r)) ==>
              s.groups[m].keys == KeysRead(plan, r)
  {
    hide EntriesFrom, Contributes, KeysRead, Identity, Identified, Result, FirstKeys;
    var e := FrontFirst(plan, r, rest);
    ResultShowsFirst(order, plan, [r] + rest, s);
    n := GroupFound(order, plan, [r] + rest, s, e);
    assert forall m :: 0 <= m < |s.groups| ==> ShowsFirst(s.groups[m], EntriesFrom(plan, [r] + rest));
  }

  // Two orders that start with equal but differently written keys show different keys.
  lemma FrontsDiffer(order: Order, plan: Plan, r: Resource, x: seq<Resource>, q: Resource, y: seq<Resource>)
    requires PositiveLimits(plan.limits) && Identified([r] + x) && Identified([q] + y)
    requires Contributes(plan, r) && Contributes(plan, q)
    requires Identity(KeysRead(plan, r)) == Identity(KeysRead(plan, q)) && KeysRead(plan, r) != KeysRead(plan, q)
    ensures !ShowAlike(order, plan, [r] + x, [q] + y)
  {
    hide KeysRead, Identified, Contributes, Result, Identity;
    match (Result(order, plan, [r] + x), Result(order, plan, [q] + y))
    case (Forming(s), Forming(t)) =>
      var n := FrontShown(order, plan, r, x, s);
      var m := FrontShown(order, plan, q, y, t);
      if Map(KeysOf, s.groups) == Map(KeysOf, t.groups) { SameShown(s.groups, t.groups, n); }
    case _ =>
  }

  lemma SameShown(g: seq<Group>, h: seq<Group>, n: nat)
    requires Map(KeysOf, g) == Map(KeysOf, h) && n < |g|
    ensures n < |h| && g[n].keys == h[n].keys
  {
    assert |Map(KeysOf, g)| == |g| && |Map(KeysOf, h)| == |h|;
    assert Map(KeysOf, g)[n] == g[n].keys && Map(KeysOf, h)[n] == h[n].keys;
  }

  lemma IdentifiedPermutation(a: seq<Resource>, b: seq<Resource>)
    requires Identified(a) && multiset(a) == multiset(b)
    ensures Identified(b)
  {
    hide Complete;
    SameMembers(a, b);
    forall i | 0 <= i < |b| ensures Complete(b[i].provenance) { assert b[i] in a; }
    forall i, j | 0 <= i < j < |b| ensures b[i].provenance.uid != b[j].provenance.uid {
      assert b[i] in a && b[j] in a;
      if b[i] == b[j] {
        CountedTwice(b, i, j);
        OnceEach(a, b[i]);
      }
    }
  }

  lemma MovedFirst(a: seq<Resource>, i: nat)
    requires i < |a|
    ensures multiset([a[i]] + (a[..i] + a[i + 1..])) == multiset(a)
  {
    RemoveAt(a, i);
  }

  // A contribution is some resource's, under that resource's keys.
  lemma Contributor(plan: Plan, resources: seq<Resource>, e: Entry) returns (i: nat)
    requires e in EntriesFrom(plan, resources)
    ensures i < |resources| && Contributes(plan, resources[i]) && e.keys == KeysRead(plan, resources[i])
  {
    var items := FlatMap(ItemsFn(plan), resources);
    var j := EntryAt(items, e);
    i := ItemAt(plan, resources, items[j]);
    hide Read, Entries, FlatMap, ItemsFor;
    ItemOrigin(plan, resources[i], items[j]);
  }

  // Every order shows the same keys.
  ghost predicate AlwaysAlike(order: Order, plan: Plan, a: seq<Resource>) {
    forall b: seq<Resource> :: multiset(b) == multiset(a) ==> ShowAlike(order, plan, a, b)
  }

  lemma OrdersAlike(order: Order, plan: Plan, a: seq<Resource>, x: seq<Resource>, y: seq<Resource>)
    requires AlwaysAlike(order, plan, a) && multiset(x) == multiset(a) && multiset(y) == multiset(a)
    ensures ShowAlike(order, plan, x, y)
  {
    assert ShowAlike(order, plan, a, x) && ShowAlike(order, plan, a, y);
    hide Result, Map;
  }

  lemma DisagreeingKeysShow(order: Order, plan: Plan, a: seq<Resource>, e: Entry, f: Entry)
    requires PositiveLimits(plan.limits) && Identified(a) && AlwaysAlike(order, plan, a)
    requires e in EntriesFrom(plan, a) && f in EntriesFrom(plan, a) && Identity(e.keys) == Identity(f.keys)
    ensures e.keys == f.keys
  {
    var i := Contributor(plan, a, e);
    var j := Contributor(plan, a, f);
    hide EntriesFrom, KeysRead, Contributes, Identity, Identified, AlwaysAlike, ShowAlike;
    var x, y := a[..i] + a[i + 1..], a[..j] + a[j + 1..];
    MovedFirst(a, i);
    MovedFirst(a, j);
    IdentifiedPermutation(a, [a[i]] + x);
    IdentifiedPermutation(a, [a[j]] + y);
    OrdersAlike(order, plan, a, [a[i]] + x, [a[j]] + y);
    if e.keys != f.keys { FrontsDiffer(order, plan, a[i], x, a[j], y); }
  }

  // Every order shows the same keys exactly when contributions with equal identities carry equal keys.
  lemma ShownKeysExactly(order: Order, plan: Plan, a: seq<Resource>)
    requires Agrees(order) && PositiveLimits(plan.limits) && Identified(a) && Result(order, plan, a).Forming?
    ensures AlwaysAlike(order, plan, a) <==> KeysAgree(EntriesFrom(plan, a))
  {
    hide EntriesFrom, Identity, Identified, Result, Agrees, ShowAlike;
    if KeysAgree(EntriesFrom(plan, a)) {
      forall b: seq<Resource> | multiset(b) == multiset(a) ensures ShowAlike(order, plan, a, b) {
        IdentifiedPermutation(a, b);
        AgreeingKeysShowAlike(order, plan, a, b);
      }
    }
    if AlwaysAlike(order, plan, a) {
      var entries := EntriesFrom(plan, a);
      forall e, f | e in entries && f in entries && Identity(e.keys) == Identity(f.keys) ensures e.keys == f.keys {
        DisagreeingKeysShow(order, plan, a, e, f);
      }
    }
  }

  /* ---------- two orders that show ---------- */

  // A resource whose only field is a quantity of 2^30 bytes, written in some way.
  function Volume(uid: string, text: string): Resource {
    var size := Value("quantity", Some("1073741824"), Rational(1073741824, 1), text);
    Resource(Accepted, Provenance("v1", "Volume", "", "volume", uid), [Field("size", Present, [size])])
  }

  function BySize(reducer: Function, mode: Mode): Plan {
    Plan(reducer, "size", "quantity", [GroupField("size", "quantity")], false, 0, mode, Limits(2, 2, 2, 2, 2))
  }

  lemma VolumeRead(plan: Plan, uid: string, text: string)
    requires plan.field == "size" && plan.groupBy == [GroupField("size", "quantity")] && uid != ""
    ensures Contributes(plan, Volume(uid, text))
    ensures var keys := KeysRead(plan, Volume(uid, text));
            && |keys| == 1 && keys[0].value == Volume(uid, text).fields[0].matches[0]
            && Identity(keys) == [Tag("quantity", "1073741824")]
  {
    var r := Volume(uid, text);
    var m := r.fields[0].matches[0];
    assert GroupingKeys(plan.groupBy[1..], r.fields) == Keys([]);
    assert CanonicalKey("quantity", m).Some?;
    assert FindField(r.fields, "size") == Some(r.fields[0]);
    assert Read(plan, r).Feeds? && Read(plan, r).matches[0] == m;
  }

  lemma VolumeEntries(plan: Plan, uid: string, text: string)
    requires plan.field == "size" && plan.groupBy == [GroupField("size", "quantity")] && uid != ""
    ensures |Entries(ItemsFor(plan, Volume(uid, text)))| == 1
  {
    var r := Volume(uid, text);
    VolumeRead(plan, uid, text);
    var m := r.fields[0].matches[0];
    assert FindField(r.fields, "size") == Some(r.fields[0]);
    var f := Read(plan, r);
    assert f.Feeds? && f.matches == [m];
    var put := Put(Entry(f.keys, Contribution(m, r.provenance, 0)));
    assert Puts(f.keys, r.provenance, f.matches, 1) == [];
    assert ItemsFor(plan, r) == [put] + [Touch];
    hide Read, ItemsFor;
    FlatMapConcat(EntryOf, [put], [Touch]);
    FlatMapOne(EntryOf, put);
    FlatMapOne(EntryOf, Touch);
  }

  // "1Gi" and "1024Mi" are equal keys: the group shows the one that arrived first.
  lemma ShownKeyWitness(order: Order, reducer: Function, mode: Mode)
    ensures var plan := BySize(reducer, mode);
            var x, y := Volume("1", "1Gi"), Volume("2", "1024Mi");
            && Identified([x, y]) && multiset([x, y]) == multiset([y, x])
            && Result(order, plan, [x, y]).Forming? && Result(order, plan, [y, x]).Forming?
            && !ShowAlike(order, plan, [x, y], [y, x])
  {
    var plan := BySize(reducer, mode);
    var x, y := Volume("1", "1Gi"), Volume("2", "1024Mi");
    VolumeRead(plan, "1", "1Gi");
    VolumeRead(plan, "2", "1024Mi");
    VolumeEntries(plan, "1", "1Gi");
    VolumeEntries(plan, "2", "1024Mi");
    VolumesIdentified("1", "1Gi", "2", "1024Mi");
    assert "1Gi" != "1024Mi";
    assert KeysRead(plan, x) != KeysRead(plan, y);
    hide *;
    TwoOrders(order, plan, x, y);
  }

  lemma VolumesIdentified(p: string, s: string, q: string, t: string)
    requires p != "" && q != "" && p != q
    ensures Identified([Volume(p, s), Volume(q, t)])
  {
  }

  lemma TwoOrders(order: Order, plan: Plan, x: Resource, y: Resource)
    requires PositiveLimits(plan.limits) && plan.limits.maxContributions >= 2 && plan.limits.maxGroups >= 2
    requires Identified([x, y]) && Contributes(plan, x) && Contributes(plan, y)
    requires Identity(KeysRead(plan, x)) == Identity(KeysRead(plan, y)) && KeysRead(plan, x) != KeysRead(plan, y)
    requires |Entries(ItemsFor(plan, x))| <= 1 && |Entries(ItemsFor(plan, y))| <= 1
    ensures multiset([x, y]) == multiset([y, x])
    ensures Result(order, plan, [x, y]).Forming? && Result(order, plan, [y, x]).Forming?
    ensures !ShowAlike(order, plan, [x, y], [y, x])
  {
    IdentifiedPermutation([x, y], [y, x]);
    hide KeysRead, Contributes, Identity, Identified, Entries, ItemsFor, Form, ShowAlike;
    assert [x, y] == [x] + [y] && [y, x] == [y] + [x];
    FrontsDiffer(order, plan, x, [y], y, [x]);
    TwoFit(plan, x, y);
    TwoFit(plan, y, x);
  }

  // Two resources with one contribution each stay within limits of two.
  lemma TwoFit(plan: Plan, x: Resource, y: Resource)
    requires PositiveLimits(plan.limits) && plan.limits.maxContributions >= 2 && plan.limits.maxGroups >= 2
    requires Identified([x, y]) && |Entries(ItemsFor(plan, x))| <= 1 && |Entries(ItemsFor(plan, y))| <= 1
    ensures Form(plan, [x, y]).Forming?
  {
    NothingSkipped(plan, {}, [x, y]);
    GroupingIsPartition(plan, [x, y]);
    FrontEntries(plan, x, [y]);
    FrontEntries(plan, y, []);
    assert [x] + [y] == [x, y] && [y] + [] == [y];
    hide ItemsFor, Form, Represents, ItemsOf, Identified, Entries;
    FewKeys(EntriesFrom(plan, [x, y]));
  }

  lemma FewKeys(entries: seq<Entry>)
    requires |entries| <= 2
    ensures |KeySet(entries)| <= 2
  {
    assert KeySet(entries) == (set i | 0 <= i < |entries| :: Identity(entries[i].keys));
    if |entries| == 0 {
      assert KeySet(entries) == {};
    } else if |entries| == 1 {
      assert KeySet(entries) == {Identity(entries[0].keys)};
    } else {
      assert KeySet(entries) == {Identity(entries[0].keys), Identity(entries[1].keys)};
    }
  }
}
