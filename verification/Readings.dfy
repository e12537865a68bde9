/** What the resources bring to a grouping, told from their states and fields alone. */
module Readings {
  import opened Common
  import opened Bags
  import opened CanonicalKeys
  import opened Grouping
  import opened GroupingLaws

  // The first field of this name.
  ghost predicate FirstNamed(fields: seq<Field>, name: string, k: int) {
    0 <= k < |fields| && fields[k].name == name && forall j :: 0 <= j < k ==> fields[j].name != name
  }

  // The grouping field is present with one match, not null, that has a key of the declared type: this one.
  ghost predicate GivesKey(g: GroupField, fields: seq<Field>, key: GroupKey) {
    exists k ::
      && FirstNamed(fields, g.name, k) && fields[k].state.Present? && |fields[k].matches| == 1
      && !fields[k].matches[0].Null? && CanonicalKey(g.typeName, fields[k].matches[0]) == Some(key.canonical)
      && key == GroupKey(g.name, g.typeName, fields[k].matches[0], key.canonical)
  }

  ghost predicate NoKey(g: GroupField, fields: seq<Field>) { forall key :: !GivesKey(g, fields, key) }

  ghost predicate GivesKeys(groupBy: seq<GroupField>, fields: seq<Field>, keys: seq<GroupKey>) {
    |keys| == |groupBy| && forall i :: 0 <= i < |keys| ==> GivesKey(groupBy[i], fields, keys[i])
  }

  // The first grouping field without a key.
  ghost predicate FirstKeyless(groupBy: seq<GroupField>, fields: seq<Field>, i: int) {
    0 <= i < |groupBy| && NoKey(groupBy[i], fields) && forall j :: 0 <= j < i ==> !NoKey(groupBy[j], fields)
  }

  // The target field is there and not erroneous, with these matches; an absent one has none.
  ghost predicate TargetMatches(plan: Plan, fields: seq<Field>, matches: seq<Match>) {
    exists k ::
      && FirstNamed(fields, plan.field, k) && !fields[k].state.Erroneous?
      && matches == if fields[k].state.Absent? then [] else fields[k].matches
  }

  ghost predicate Usable(plan: Plan, r: Resource, keys: seq<GroupKey>, matches: seq<Match>) {
    r.state.Accepted? && Complete(r.provenance) && GivesKeys(plan.groupBy, r.fields, keys)
    && TargetMatches(plan, r.fields, matches)
  }

  // The failure that the resource is reported with: for its state, its provenance, the first grouping field without a
  // key, or its target field, in this order.
  ghost predicate ReportedAs(plan: Plan, r: Resource, f: Failure) {
    && f.provenance == r.provenance
    && match r.state
       case Rejected => false
       case UnknownState => f.field == plan.field && f.reason == InvalidInput
       case Unsuccessful(reason) =>
         f.field == plan.field && f.reason == if reason.None? then InvalidInput else OperatorReason(reason.value)
       case Accepted =>
         || (!Complete(r.provenance) && f.field == plan.field && f.reason == InvalidInput)
         || (Complete(r.provenance) && f.reason == InvalidGroupKey
             && exists i :: FirstKeyless(plan.groupBy, r.fields, i) && f.field == plan.groupBy[i].name)
         || (Complete(r.provenance) && f.reason == TargetFieldError && f.field == plan.field
             && (exists keys :: GivesKeys(plan.groupBy, r.fields, keys))
             && forall matches :: !TargetMatches(plan, r.fields, matches))
  }

  /* ---------- one resource ---------- */

  lemma {:induction false} FieldFound(fields: seq<Field>, name: string, k: int)
    ensures FirstNamed(fields, name, k) ==> FindField(fields, name) == Some(fields[k])
    ensures FindField(fields, name) == None ==> !FirstNamed(fields, name, k)
  {
    if fields != [] && fields[0].name != name {
      FieldFound(fields[1..], name, k - 1);
      if FirstNamed(fields, name, k) {
        assert fields[1..][k - 1] == fields[k];
        assert forall j :: 0 <= j < k - 1 ==> fields[1..][j] == fields[j + 1];
      }
    }
  }

  lemma {:induction false} FieldAt(fields: seq<Field>, name: string) returns (k: nat)
    requires FindField(fields, name).Some?
    ensures FirstNamed(fields, name, k) && FindField(fields, name) == Some(fields[k])
  {
    if fields[0].name == name {
      k := 0;
    } else {
      var j := FieldAt(fields[1..], name);
      k := j + 1;
    }
  }

  lemma KeyRead(g: GroupField, fields: seq<Field>)
    ensures forall key :: GivesKey(g, fields, key) <==> KeyFor(g, fields) == Some(key)
    ensures NoKey(g, fields) <==> KeyFor(g, fields) == None
  {
    hide CanonicalKey;
    forall k ensures FirstNamed(fields, g.name, k) ==> FindField(fields, g.name) == Some(fields[k]) {
      FieldFound(fields, g.name, k);
    }
    if FindField(fields, g.name).Some? {
      var k := FieldAt(fields, g.name);
      hide FindField, FirstNamed;
      forall key ensures GivesKey(g, fields, key) <==> KeyFor(g, fields) == Some(key) {}
    } else {
      forall k ensures !FirstNamed(fields, g.name, k) { FieldFound(fields, g.name, k); }
      hide FindField, FirstNamed;
    }
    if KeyFor(g, fields).Some? { assert GivesKey(g, fields, KeyFor(g, fields).value); }
  }

  lemma TargetRead(plan: Plan, fields: seq<Field>)
    ensures var found := FindField(fields, plan.field);
            forall matches :: TargetMatches(plan, fields, matches) <==>
              found.Some? && !found.value.state.Erroneous?
              && matches == if found.value.state.Absent? then [] else found.value.matches
  {
    forall k
      ensures FirstNamed(fields, plan.field, k) ==> FindField(fields, plan.field) == Some(fields[k])
      ensures FindField(fields, plan.field) == None ==> !FirstNamed(fields, plan.field, k)
    {
      FieldFound(fields, plan.field, k);
    }
    if FindField(fields, plan.field).Some? { var k := FieldAt(fields, plan.field); }
    hide FindField, FirstNamed;
  }

  lemma GivesMore(groupBy: seq<GroupField>, fields: seq<Field>)
    requires groupBy != []
    ensures forall keys :: GivesKeys(groupBy, fields, keys) <==>
              keys != [] && GivesKey(groupBy[0], fields, keys[0]) && GivesKeys(groupBy[1..], fields, keys[1..])
    ensures forall i :: FirstKeyless(groupBy, fields, i) <==>
              if NoKey(groupBy[0], fields) then i == 0 else i > 0 && FirstKeyless(groupBy[1..], fields, i - 1)
  {
    hide GivesKey, NoKey;
    forall keys
      ensures GivesKeys(groupBy, fields, keys) <==>
              keys != [] && GivesKey(groupBy[0], fields, keys[0]) && GivesKeys(groupBy[1..], fields, keys[1..])
    {
      if keys != [] && |keys| == |groupBy| {
        assert forall i :: 0 < i < |keys| ==> groupBy[i] == groupBy[1..][i - 1] && keys[i] == keys[1..][i - 1];
        assert forall i :: 0 <= i < |keys| - 1 ==> groupBy[1..][i] == groupBy[i + 1] && keys[1..][i] == keys[i + 1];
      }
    }
    forall i
      ensures FirstKeyless(groupBy, fields, i) <==>
              if NoKey(groupBy[0], fields) then i == 0 else i > 0 && FirstKeyless(groupBy[1..], fields, i - 1)
    {
      if 0 < i < |groupBy| {
        assert groupBy[i] == groupBy[1..][i - 1];
        assert forall j :: 0 < j < i ==> groupBy[j] == groupBy[1..][j - 1];
        assert forall j :: 0 <= j < i - 1 ==> groupBy[1..][j] == groupBy[j + 1];
      }
    }
  }

  lemma {:induction false} KeysRead(groupBy: seq<GroupField>, fields: seq<Field>)
    ensures forall keys :: GivesKeys(groupBy, fields, keys) <==> GroupingKeys(groupBy, fields) == Keys(keys)
    ensures forall i :: FirstKeyless(groupBy, fields, i) ==>
              GroupingKeys(groupBy, fields) == BadKey(groupBy[i].name)
    ensures GroupingKeys(groupBy, fields).BadKey? ==> exists i :: FirstKeyless(groupBy, fields, i)
  {
    if groupBy != [] {
      GivesMore(groupBy, fields);
      KeyRead(groupBy[0], fields);
      KeysRead(groupBy[1..], fields);
      hide GivesKey, NoKey, GivesKeys, FirstKeyless, KeyFor;
      KeysMore(groupBy, fields);
    }
  }

  lemma KeysMore(groupBy: seq<GroupField>, fields: seq<Field>)
    requires groupBy != []
    requires forall keys :: GivesKeys(groupBy, fields, keys) <==>
              keys != [] && GivesKey(groupBy[0], fields, keys[0]) && GivesKeys(groupBy[1..], fields, keys[1..])
    requires forall i :: FirstKeyless(groupBy, fields, i) <==>
              if NoKey(groupBy[0], fields) then i == 0 else i > 0 && FirstKeyless(groupBy[1..], fields, i - 1)
    requires forall key :: GivesKey(groupBy[0], fields, key) <==> KeyFor(groupBy[0], fields) == Some(key)
    requires NoKey(groupBy[0], fields) <==> KeyFor(groupBy[0], fields) == None
    requires forall keys ::
               GivesKeys(groupBy[1..], fields, keys) <==> GroupingKeys(groupBy[1..], fields) == Keys(keys)
    requires forall i :: FirstKeyless(groupBy[1..], fields, i) ==>
               GroupingKeys(groupBy[1..], fields) == BadKey(groupBy[1..][i].name)
    requires GroupingKeys(groupBy[1..], fields).BadKey? ==> exists i :: FirstKeyless(groupBy[1..], fields, i)
    ensures forall keys :: GivesKeys(groupBy, fields, keys) <==> GroupingKeys(groupBy, fields) == Keys(keys)
    ensures forall i :: FirstKeyless(groupBy, fields, i) ==>
              GroupingKeys(groupBy, fields) == BadKey(groupBy[i].name)
    ensures GroupingKeys(groupBy, fields).BadKey? ==> exists i :: FirstKeyless(groupBy, fields, i)
  {
    hide GivesKey, NoKey, GivesKeys, KeyFor;
    if NoKey(groupBy[0], fields) {
      assert FirstKeyless(groupBy, fields, 0);
    } else if i :| FirstKeyless(groupBy[1..], fields, i) {
      assert FirstKeyless(groupBy, fields, i + 1);
    }
  }

  // A resource is read as a failure exactly when it is to be reported as that one, and as feeding these matches to
  // these keys exactly when it gives them.
  lemma ReadExactly(plan: Plan, r: Resource)
    ensures forall f :: Read(plan, r) == Fails(f) <==> ReportedAs(plan, r, f)
    ensures forall keys, matches :: Read(plan, r) == Feeds(keys, matches) <==> Usable(plan, r, keys, matches)
  {
    KeysRead(plan.groupBy, r.fields);
    TargetRead(plan, r.fields);
    KeysOrKeyless(plan, r);
    hide GivesKeys, FirstKeyless, TargetMatches, GroupingKeys, FindField, Complete;
    var found := FindField(r.fields, plan.field);
    if found.Some? && !found.value.state.Erroneous? {
      assert TargetMatches(plan, r.fields, if found.value.state.Absent? then [] else found.value.matches);
    }
    if GroupingKeys(plan.groupBy, r.fields).Keys? {
      assert GivesKeys(plan.groupBy, r.fields, GroupingKeys(plan.groupBy, r.fields).keys);
    }
  }

  lemma KeysOrKeyless(plan: Plan, r: Resource)
    ensures GroupingKeys(plan.groupBy, r.fields).Keys? ==> forall i :: !FirstKeyless(plan.groupBy, r.fields, i)
  {
    KeysRead(plan.groupBy, r.fields);
    hide FirstKeyless, GroupingKeys;
  }

  /* ---------- all resources ---------- */

  // An accepted resource with complete provenance takes its UID, and so does an unsuccessful one that has a UID.
  predicate TakesUid(r: Resource) {
    (r.state.Accepted? && Complete(r.provenance)) || (r.state.Unsuccessful? && r.provenance.uid != "")
  }

  // The resource is not a repetition of an earlier one that took its UID.
  ghost predicate Counted(seen: set<string>, resources: seq<Resource>, i: int) {
    && 0 <= i < |resources|
    && (TakesUid(resources[i]) ==>
         && resources[i].provenance.uid !in seen
         && forall j :: 0 <= j < i && TakesUid(resources[j]) ==>
              resources[j].provenance.uid != resources[i].provenance.uid)
  }

  lemma MarksTakes()
    ensures forall r :: Marks(r) <==> TakesUid(r)
  {
  }

  lemma CountedOn(seen: set<string>, resources: seq<Resource>)
    requires resources != []
    ensures Counted(seen, resources, 0) <==> !(Marks(resources[0]) && resources[0].provenance.uid in seen)
    ensures forall i :: Counted(Marked(seen, resources[0]), resources[1..], i) <==>
              i >= 0 && Counted(seen, resources, i + 1)
  {
    MarksTakes();
    hide Marks, TakesUid;
    forall i
      ensures Counted(Marked(seen, resources[0]), resources[1..], i) <==> i >= 0 && Counted(seen, resources, i + 1)
    {
      if 0 <= i < |resources| - 1 {
        assert resources[1..][i] == resources[i + 1];
        assert forall j :: 0 <= j < i ==> resources[1..][j] == resources[j + 1];
        assert forall j :: 0 < j < i + 1 ==> resources[j] == resources[1..][j - 1];
      }
    }
  }

  ghost predicate Brings(plan: Plan, seen: set<string>, resources: seq<Resource>, item: Item, i: int) {
    Counted(seen, resources, i) && item in ItemsFor(plan, resources[i])
  }

  lemma {:induction false} ItemsExactly(plan: Plan, seen: set<string>, resources: seq<Resource>, item: Item)
    ensures item in ItemsOf(plan, seen, resources) <==> exists i :: Brings(plan, seen, resources, item, i)
    decreases |resources|
  {
    hide ItemsFor, Marked, Counted;
    if resources == [] {
      NoneCounted(seen, resources);
    } else {
      var r, marked := resources[0], Marked(seen, resources[0]);
      ItemsExactly(plan, marked, resources[1..], item);
      CountedOn(seen, resources);
      CountedInside(seen, resources);
      CountedInside(marked, resources[1..]);
      if i :| Brings(plan, marked, resources[1..], item, i) {
        assert resources[1..][i] == resources[i + 1];
        assert Brings(plan, seen, resources, item, i + 1);
      }
      if i :| Brings(plan, seen, resources, item, i) {
        if i == 0 {
          assert Brings(plan, seen, resources, item, 0);
        } else {
          assert resources[1..][i - 1] == resources[i];
          assert Brings(plan, marked, resources[1..], item, i - 1);
        }
      }
      if !(Marks(r) && r.provenance.uid in seen) && item in ItemsFor(plan, r) {
        assert Brings(plan, seen, resources, item, 0);
      }
    }
  }

  lemma CountedInside(seen: set<string>, resources: seq<Resource>)
    ensures forall i :: Counted(seen, resources, i) ==> 0 <= i < |resources|
  {
  }

  lemma NoneCounted(seen: set<string>, resources: seq<Resource>)
    requires resources == []
    ensures forall i :: !Counted(seen, resources, i)
  {
  }

  // A resource that counts brings this contribution under these keys.
  ghost predicate Contributes(plan: Plan, resources: seq<Resource>, i: int, keys: seq<GroupKey>, c: Contribution) {
    && Counted({}, resources, i)
    && exists matches: seq<Match> ::
         Usable(plan, resources[i], keys, matches) && c.index < |matches| && !matches[c.index].Null?
         && c == Contribution(matches[c.index], resources[i].provenance, c.index)
  }

  lemma {:induction false} PutsExactly(keys: seq<GroupKey>, p: Provenance, matches: seq<Match>, from: nat, item: Item)
    requires from <= |matches|
    ensures item in Puts(keys, p, matches, from) <==>
            exists k :: from <= k < |matches| && !matches[k].Null?
                        && item == Put(Entry(keys, Contribution(matches[k], p, k)))
    decreases |matches| - from
  {
    if from < |matches| { PutsExactly(keys, p, matches, from + 1, item); }
  }

  lemma EntriesExactly(plan: Plan, resources: seq<Resource>, e: Entry)
    ensures e in Entries(ItemsOf(plan, {}, resources)) <==>
            exists i :: Contributes(plan, resources, i, e.keys, e.contribution)
  {
    ItemsExactly(plan, {}, resources, Put(e));
    var items := ItemsOf(plan, {}, resources);
    hide ItemsOf, Contributes;
    if e in Entries(items) {
      var j := FlatMapMember(EntryOf, items, e);
      assert items[j] == Put(e);
    }
    if Put(e) in items {
      var j: nat :| j < |items| && items[j] == Put(e);
      FlatMapHolds(EntryOf, items, j, e);
    }
    forall i
      ensures Brings(plan, {}, resources, Put(e), i) <==> Contributes(plan, resources, i, e.keys, e.contribution)
    {
      BroughtExactly(plan, resources, i, e);
    }
  }

  lemma BroughtExactly(plan: Plan, resources: seq<Resource>, i: int, e: Entry)
    ensures Brings(plan, {}, resources, Put(e), i) <==> Contributes(plan, resources, i, e.keys, e.contribution)
  {
    if 0 <= i < |resources| {
      var r := resources[i];
      ReadExactly(plan, r);
      hide Usable, Read, Counted, ReportedAs;
      match Read(plan, r)
      case Feeds(keys, matches) => PutsExactly(keys, r.provenance, matches, 0, Put(e));
      case _ =>
    }
  }

  // Some resource that counts is to be reported as this failure.
  ghost predicate ToReport(plan: Plan, resources: seq<Resource>, f: Failure) {
    exists i :: Counted({}, resources, i) && ReportedAs(plan, resources[i], f)
  }

  lemma FailuresExactly(plan: Plan, resources: seq<Resource>, f: Failure)
    ensures f in Failures(ItemsOf(plan, {}, resources)) <==>
            ToReport(plan, resources, f)
  {
    ItemsExactly(plan, {}, resources, Fail(f));
    var items := ItemsOf(plan, {}, resources);
    hide ItemsOf, Counted;
    if f in Failures(items) {
      var j := FlatMapMember(FailureOf, items, f);
      assert items[j] == Fail(f);
    }
    if Fail(f) in items {
      var j: nat :| j < |items| && items[j] == Fail(f);
      FlatMapHolds(FailureOf, items, j, f);
    }
    CountedInside({}, resources);
    forall i | 0 <= i < |resources|
      ensures Fail(f) in ItemsFor(plan, resources[i]) <==> ReportedAs(plan, resources[i], f)
    {
      FailureRead(plan, resources[i], f);
    }
    hide ItemsFor, ReportedAs;
    forall i ensures Brings(plan, {}, resources, Fail(f), i) <==>
                     Counted({}, resources, i) && ReportedAs(plan, resources[i], f) {}
  }

  lemma FailureRead(plan: Plan, r: Resource, f: Failure)
    ensures Fail(f) in ItemsFor(plan, r) <==> ReportedAs(plan, r, f)
  {
    ReadExactly(plan, r);
    hide Usable, Read, ReportedAs;
    match Read(plan, r)
    case Feeds(keys, matches) => PutsExactly(keys, r.provenance, matches, 0, Fail(f));
    case _ =>
  }

  /* ---------- the theorem ---------- */

  // Within the limits the failures are exactly those of the resources that count, and every group holds exactly the
  // contributions that those bring under its identity; none is left out.
  lemma FormedExactly(plan: Plan, resources: seq<Resource>, st: State)
    requires PositiveLimits(plan.limits) && Form(plan, resources) == Forming(st)
    ensures forall f :: f in st.failures <==>
              ToReport(plan, resources, f)
    ensures forall g, c :: 0 <= g < |st.groups| ==>
              (c in st.groups[g].contributions <==>
               exists i, keys ::
                   Contributes(plan, resources, i, keys, c) && Identity(keys) == Identity(st.groups[g].keys))
    ensures forall i, keys, c :: Contributes(plan, resources, i, keys, c) ==> Identity(keys) in Identities(st.groups)
  {
    GroupingIsPartition(plan, resources);
    var entries := Entries(ItemsOf(plan, {}, resources));
    hide Form, ItemsOf, Entries, Failures, Contributes, ToReport, Exceeding, OnlyKnown, Identity;
    forall f
      ensures f in st.failures <==> ToReport(plan, resources, f)
    {
      FailuresExactly(plan, resources, f);
    }
    forall i, keys, c | Contributes(plan, resources, i, keys, c) ensures Identity(keys) in Identities(st.groups) {
      EntriesExactly(plan, resources, Entry(keys, c));
      assert Entry(keys, c) in entries;
    }
    forall g, c | 0 <= g < |st.groups|
      ensures c in st.groups[g].contributions <==>
              exists i, keys ::
                  Contributes(plan, resources, i, keys, c) && Identity(keys) == Identity(st.groups[g].keys)
    {
      assert Gathers(st.groups[g], entries);
      HeldExactly(plan, resources, st.groups[g], c);
    }
  }

  lemma HeldExactly(plan: Plan, resources: seq<Resource>, g: Group, c: Contribution)
    requires Gathers(g, Entries(ItemsOf(plan, {}, resources)))
    ensures c in g.contributions <==>
            exists i, keys :: Contributes(plan, resources, i, keys, c) && Identity(keys) == Identity(g.keys)
  {
    var entries, tags := Entries(ItemsOf(plan, {}, resources)), Identity(g.keys);
    hide ItemsOf, Entries, Contributes;
    if c in g.contributions {
      var j := FlatMapMember(Choose(tags), entries, c);
      EntriesExactly(plan, resources, entries[j]);
      assert entries[j] in entries && entries[j].contribution == c;
    }
    if i, keys :| Contributes(plan, resources, i, keys, c) && Identity(keys) == tags {
      EntriesExactly(plan, resources, Entry(keys, c));
      var j: nat :| j < |entries| && entries[j] == Entry(keys, c);
      FlatMapHolds(Choose(tags), entries, j, c);
    }
  }
}
