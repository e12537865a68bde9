/** Grouping accepted resources: contributions gathered under equal keys, within limits, then put in order. */
module Grouping {
  import opened Common
  import opened Bags
  import opened Sorting
  import opened Rounding
  import opened CanonicalKeys

  datatype GroupField = GroupField(name: string, typeName: string)

  datatype Limits = Limits(
    maxGroups: int, maxContributions: int, maxCollectedValues: int, maxDistinctValues: int, maxProvenanceEntries: int)

  datatype Function = Collect | Count | Sum | Average | Min | Max | First | Last | Distinct
      | UnknownFunction(text: string)

  datatype Plan = Plan(
    reducer: Function, field: string, fieldType: string, groupBy: seq<GroupField>, includeProvenance: bool,
    precision: int, roundingMode: Mode, limits: Limits)

  // Every limit of a plan is normalized to a positive number.
  predicate PositiveLimits(l: Limits) {
    l.maxGroups > 0 && l.maxContributions > 0 && l.maxCollectedValues > 0 && l.maxDistinctValues > 0
        && l.maxProvenanceEntries > 0
  }

  datatype FieldState = Present | Absent | Erroneous
  datatype Field = Field(name: string, state: FieldState, matches: seq<Match>)

  datatype ResourceState = Rejected | Unsuccessful(reason: Option<string>) | Accepted | UnknownState
  datatype Resource = Resource(state: ResourceState, provenance: Provenance, fields: seq<Field>)

  datatype Reason = InvalidInput | InvalidGroupKey | TargetFieldError | OperatorReason(text: string)
  datatype Failure = Failure(provenance: Provenance, field: string, reason: Reason)

  datatype Contribution = Contribution(value: Match, provenance: Provenance, index: nat)
  datatype Group = Group(keys: seq<GroupKey>, contributions: seq<Contribution>, contributors: seq<Provenance>)

  datatype LimitKind = TooManyContributions | TooManyGroups

  /* ---------- reading one resource ---------- */

  function FindField(fields: seq<Field>, name: string): Option<Field> {
    if fields == [] then None else if fields[0].name == name then Some(fields[0]) else FindField(fields[1..], name)
  }

  function KeyFor(g: GroupField, fields: seq<Field>): Option<GroupKey> {
    match FindField(fields, g.name)
    case None => None
    case Some(f) =>
      if !f.state.Present? || |f.matches| != 1 || f.matches[0].Null? then None
      else match CanonicalKey(g.typeName, f.matches[0])
        case None => None
        case Some(canonical) => Some(GroupKey(g.name, g.typeName, f.matches[0], canonical))
  }

  datatype KeysRead = Keys(keys: seq<GroupKey>) | BadKey(field: string)

  function GroupingKeys(groupBy: seq<GroupField>, fields: seq<Field>): KeysRead {
    if groupBy == [] then Keys([])
    else match KeyFor(groupBy[0], fields)
      case None => BadKey(groupBy[0].name)
      case Some(k) =>
        match GroupingKeys(groupBy[1..], fields)
        case BadKey(field) => BadKey(field)
        case Keys(keys) => Keys([k] + keys)
  }

  predicate Complete(p: Provenance) { p.apiVersion != "" && p.kind != "" && p.name != "" && p.uid != "" }

  // What a resource brings: nothing, a failure, or the matches it feeds to the group with these keys.
  datatype Reading = Ignored | Fails(failure: Failure) | Feeds(keys: seq<GroupKey>, matches: seq<Match>)

  function Read(plan: Plan, r: Resource): Reading {
    match r.state
    case Rejected => Ignored
    case UnknownState => Fails(Failure(r.provenance, plan.field, InvalidInput))
    case Unsuccessful(reason) =>
      Fails(Failure(r.provenance, plan.field, if reason.None? then InvalidInput else OperatorReason(reason.value)))
    case Accepted =>
      if !Complete(r.provenance) then Fails(Failure(r.provenance, plan.field, InvalidInput))
      else match GroupingKeys(plan.groupBy, r.fields)
        case BadKey(field) => Fails(Failure(r.provenance, field, InvalidGroupKey))
        case Keys(keys) =>
          match FindField(r.fields, plan.field)
          case None => Fails(Failure(r.provenance, plan.field, TargetFieldError))
          case Some(f) =>
            if f.state.Erroneous? then Fails(Failure(r.provenance, plan.field, TargetFieldError))
            else Feeds(keys, if f.state.Absent? then [] else f.matches)
  }

  // The UIDs of these resources are taken once.
  predicate Marks(r: Resource) {
    match r.state
    case Accepted => Complete(r.provenance)
    case Unsuccessful(_) => r.provenance.uid != ""
    case _ => false
  }

  datatype Entry = Entry(keys: seq<GroupKey>, contribution: Contribution)

  // What happens to the result, one after another. `Touch` asks for the global group.
  datatype Item = Put(entry: Entry) | Touch | Fail(failure: Failure)

  function Puts(keys: seq<GroupKey>, p: Provenance, matches: seq<Match>, from: nat): seq<Item>
    requires from <= |matches|
    decreases |matches| - from
  {
    if from == |matches| then []
    else
      var put := Put(Entry(keys, Contribution(matches[from], p, from)));
      (if matches[from].Null? then [] else [put]) + Puts(keys, p, matches, from + 1)
  }

  function ItemsFor(plan: Plan, r: Resource): seq<Item> {
    match Read(plan, r)
    case Ignored => []
    case Fails(failure) => [Fail(failure)]
    case Feeds(keys, matches) => Puts(keys, r.provenance, matches, 0) + [Touch]
  }

  function Marked(seen: set<string>, r: Resource): set<string> {
    if Marks(r) then seen + {r.provenance.uid} else seen
  }

  function ItemsOf(plan: Plan, seen: set<string>, resources: seq<Resource>): seq<Item>
    decreases |resources|
  {
    if resources == [] then []
    else
      var r := resources[0];
      (if Marks(r) && r.provenance.uid in seen then [] else ItemsFor(plan, r))
          + ItemsOf(plan, Marked(seen, r), resources[1..])
  }

  /* ---------- forming the groups ---------- */

  datatype State = State(groups: seq<Group>, failures: seq<Failure>, contributions: nat)
  datatype Formed = Forming(state: State) | Exceeded(kind: LimitKind)

  function FindGroup(groups: seq<Group>, keys: seq<GroupKey>): (i: nat)
    ensures i <= |groups|
    ensures i < |groups| ==> EqualTuples(groups[i].keys, keys)
    ensures forall j :: 0 <= j < i ==> !EqualTuples(groups[j].keys, keys)
  {
    if groups == [] || EqualTuples(groups[0].keys, keys) then 0
    else
      var i := FindGroup(groups[1..], keys);
      assert forall j :: 0 < j < i + 1 ==> groups[j] == groups[1..][j - 1];
      i + 1
  }

  function AppendUnique(ps: seq<Provenance>, p: Provenance): seq<Provenance> {
    if p in ps then ps else ps + [p]
  }

  function WithContribution(g: Group, c: Contribution): Group {
    Group(g.keys, g.contributions + [c], AppendUnique(g.contributors, c.provenance))
  }

  function Place(groups: seq<Group>, e: Entry): seq<Group> {
    var i := FindGroup(groups, e.keys);
    if i < |groups| then groups[i := WithContribution(groups[i], e.contribution)]
    else groups + [WithContribution(Group(e.keys, [], []), e.contribution)]
  }

  function AddItem(plan: Plan, st: State, item: Item): Formed {
    match item
    case Fail(failure) => Forming(st.(failures := st.failures + [failure]))
    case Touch =>
      if plan.groupBy == [] && st.groups == [] then Forming(st.(groups := [Group([], [], [])])) else Forming(st)
    case Put(e) =>
      if st.contributions >= plan.limits.maxContributions then Exceeded(TooManyContributions)
      else if FindGroup(st.groups, e.keys) == |st.groups| && |st.groups| >= plan.limits.maxGroups
      then Exceeded(TooManyGroups)
      else Forming(State(Place(st.groups, e), st.failures, st.contributions + 1))
  }

  function Fold(plan: Plan, st: State, items: seq<Item>): Formed
    decreases |items|
  {
    if items == [] then Forming(st)
    else match AddItem(plan, st, items[0])
      case Exceeded(kind) => Exceeded(kind)
      case Forming(next) => Fold(plan, next, items[1..])
  }

  const EMPTY := State([], [], 0)

  function Form(plan: Plan, resources: seq<Resource>): Formed {
    Fold(plan, EMPTY, ItemsOf(plan, {}, resources))
  }

  /* ---------- the final order ---------- */

  // Where a value stands among the values of its type; CompareMatches orders by it.
  type Order = (string, string) -> real

  datatype Rank = Rank(typeName: string, position: real)

  function RankOf(order: Order, t: Tag): Rank { Rank(t.typeName, order(t.typeName, t.payload)) }

  function RanksOf(order: Order, tags: seq<Tag>): seq<Rank> {
    seq(|tags|, i requires 0 <= i < |tags| => RankOf(order, tags[i]))
  }

  predicate RankLess(a: Rank, b: Rank) {
    if a.typeName != b.typeName then StringLess(a.typeName, b.typeName) else a.position < b.position
  }

  // Position by position; a proper prefix comes first.
  predicate TupleLess(a: seq<Rank>, b: seq<Rank>) {
    if b == [] then false
    else if a == [] then true
    else if a[0] != b[0] then RankLess(a[0], b[0])
    else TupleLess(a[1..], b[1..])
  }

  function GroupLess(order: Order): (Group, Group) -> bool {
    (g: Group, h: Group) => TupleLess(RanksOf(order, Identity(g.keys)), RanksOf(order, Identity(h.keys)))
  }

  function ProvenanceKey(p: Provenance): SortKey { SortKey([p.namespace, p.name, p.uid, p.apiVersion, p.kind], 0) }

  function ContributionKey(c: Contribution): SortKey { ProvenanceKey(c.provenance).(index := c.index) }

  function FailureKey(f: Failure): SortKey { ProvenanceKey(f.provenance) }

  function Tidied(g: Group): Group {
    Group(g.keys, Sort(ByKey(ContributionKey), g.contributions), Sort(ByKey(ProvenanceKey), g.contributors))
  }

  function Finished(order: Order, st: State): State {
    State(Sort(GroupLess(order), Map(Tidied, st.groups)), Sort(ByKey(FailureKey), st.failures), st.contributions)
  }

  function Result(order: Order, plan: Plan, resources: seq<Resource>): Formed {
    match Form(plan, resources)
    case Exceeded(kind) => Exceeded(kind)
    case Forming(st) => Forming(Finished(order, st))
  }

  /* ---------- the loops ---------- */

  lemma {:induction false} FoldConcat(plan: Plan, st: State, a: seq<Item>, b: seq<Item>)
    ensures Fold(plan, st, a + b)
        == match Fold(plan, st, a) case Exceeded(kind) => Exceeded(kind) case Forming(next) => Fold(plan, next, b)
    decreases |a|
  {
    hide AddItem;
    if a == [] {
      assert a + b == b;
    } else {
      assert (a + b)[1..] == a[1..] + b;
      match AddItem(plan, st, a[0])
      case Exceeded(_) =>
      case Forming(next) => FoldConcat(plan, next, a[1..], b);
    }
  }

  method FindGroupIndex(groups: seq<Group>, keys: seq<GroupKey>) returns (i: nat)
    ensures i == FindGroup(groups, keys)
  {
    i := 0;
    while i < |groups|
      invariant i <= |groups| && FindGroup(groups, keys) == i + FindGroup(groups[i..], keys)
    {
      assert groups[i..][1..] == groups[i + 1..];
      var equal := EqualKeyTuples(groups[i].keys, keys);
      if equal { return; }
      i := i + 1;
    }
  }

  method AppendUniqueProvenance(values: seq<Provenance>, candidate: Provenance) returns (r: seq<Provenance>)
    ensures r == AppendUnique(values, candidate)
  {
    for i := 0 to |values|
      invariant candidate !in values[..i]
    {
      if values[i] == candidate { return values; }
    }
    return values + [candidate];
  }

  // Feeds one resource's matches to its group.
  method AddMatches(plan: Plan, start: State, keys: seq<GroupKey>, p: Provenance, matches: seq<Match>)
    returns (f: Formed)
    ensures f == Fold(plan, start, Puts(keys, p, matches, 0))
  {
    hide FindGroup;
    var groups: seq<Group>, contributions: nat := start.groups, start.contributions;
    for index := 0 to |matches|
      invariant Fold(plan, start, Puts(keys, p, matches, 0))
             == Fold(plan, State(groups, start.failures, contributions), Puts(keys, p, matches, index))
    {
      if matches[index].Null? {
        assert [] + Puts(keys, p, matches, index + 1) == Puts(keys, p, matches, index + 1);
        continue;
      }
      var c := Contribution(matches[index], p, index);
      PutNext(plan, State(groups, start.failures, contributions), keys, p, matches, index);
      if contributions >= plan.limits.maxContributions { return Exceeded(TooManyContributions); }
      var i := FindGroupIndex(groups, keys);
      ghost var before := groups;
      if i == |groups| {
        if |groups| >= plan.limits.maxGroups { return Exceeded(TooManyGroups); }
        groups := groups + [Group(keys, [], [])];
      }
      var contributors := AppendUniqueProvenance(groups[i].contributors, p);
      groups := groups[i := Group(groups[i].keys, groups[i].contributions + [c], contributors)];
      contributions := contributions + 1;
      assert groups == Place(before, Entry(keys, c));
    }
    return Forming(State(groups, start.failures, contributions));
  }

  lemma PutNext(plan: Plan, st: State, keys: seq<GroupKey>, p: Provenance, matches: seq<Match>, index: nat)
    requires index < |matches| && !matches[index].Null?
    ensures Fold(plan, st, Puts(keys, p, matches, index)) ==
            match AddItem(plan, st, Put(Entry(keys, Contribution(matches[index], p, index))))
            case Exceeded(kind) => Exceeded(kind)
            case Forming(next) => Fold(plan, next, Puts(keys, p, matches, index + 1))
  {
    var items := Puts(keys, p, matches, index);
    assert items[1..] == Puts(keys, p, matches, index + 1);
  }

  // One resource that is not a repetition.
  method AddResource(plan: Plan, start: State, r: Resource) returns (f: Formed)
    ensures f == Fold(plan, start, ItemsFor(plan, r))
  {
    hide Read, Puts;
    match Read(plan, r)
    case Ignored =>
      f := Forming(start);
    case Fails(failure) =>
      assert [Fail(failure)][1..] == [];
      f := Forming(start.(failures := start.failures + [failure]));
    case Feeds(keys, matches) =>
      FoldConcat(plan, start, Puts(keys, r.provenance, matches, 0), [Touch]);
      assert [Touch][1..] == [];
      f := AddMatches(plan, start, keys, r.provenance, matches);
      if f.Forming? && plan.groupBy == [] && f.state.groups == [] {
        f := Forming(f.state.(groups := [Group([], [], [])]));
      }
  }

  method Tidy(groups: seq<Group>) returns (tidied: seq<Group>)
    ensures tidied == Map(Tidied, groups)
  {
    hide Map, Sort, ByKey;
    tidied := [];
    for i := 0 to |groups|
      invariant tidied == Map(Tidied, groups[..i])
    {
      var g := groups[i];
      MapAppend(Tidied, groups[..i], g);
      assert groups[..i + 1] == groups[..i] + [g];
      tidied := tidied
          + [Group(g.keys, Sort(ByKey(ContributionKey), g.contributions), Sort(ByKey(ProvenanceKey), g.contributors))];
    }
    assert groups[..|groups|] == groups;
  }

  method FormGroups(order: Order, plan: Plan, resources: seq<Resource>) returns (f: Formed)
    ensures f == Result(order, plan, resources)
  {
    hide ItemsFor, Fold, GroupLess, FailureKey;
    var st := EMPTY;
    var seen: set<string> := {};
    for i := 0 to |resources|
      invariant Fold(plan, st, ItemsOf(plan, seen, resources[i..])) == Form(plan, resources)
    {
      var r := resources[i];
      ghost var rest := ItemsOf(plan, Marked(seen, r), resources[i + 1..]);
      assert resources[i..][0] == r && resources[i..][1..] == resources[i + 1..];
      if Marks(r) && r.provenance.uid in seen {
        assert Marked(seen, r) == seen;
        assert [] + rest == rest;
        continue;
      }
      FoldConcat(plan, st, ItemsFor(plan, r), rest);
      seen := Marked(seen, r);
      var added := AddResource(plan, st, r);
      if added.Exceeded? { return added; }
      st := added.state;
    }
    FoldNothing(plan, st, seen, resources);
    var groups := Tidy(st.groups);
    return Forming(State(Sort(GroupLess(order), groups), Sort(ByKey(FailureKey), st.failures), st.contributions));
  }

  lemma FoldNothing(plan: Plan, st: State, seen: set<string>, resources: seq<Resource>)
    ensures Fold(plan, st, ItemsOf(plan, seen, resources[|resources|..])) == Forming(st)
  {
  }

  lemma MapAppend<A, B>(f: A -> B, s: seq<A>, x: A)
    ensures Map(f, s + [x]) == Map(f, s) + [f(x)]
  {
  }
}
