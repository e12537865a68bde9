/** From resources to report: limits and arrival order, end to end. */
module AggregateLaws {
  import opened Common
  import opened Bags
  import opened Sorting
  import opened CanonicalKeys
  import opened Grouping
  import opened GroupingLaws
  import opened GroupingOrder
  import opened Readings
  import opened Reducers
  import opened Aggregates
  import opened AggregateLimits

  /* ---------- what holds of every contribution ---------- */

  lemma {:induction false} ItemsOutside(plan: Plan, seen: set<string>, resources: seq<Resource>, item: Item)
    requires item in ItemsOf(plan, seen, resources) && item.Put?
    ensures item.entry.contribution.provenance.uid !in seen
    decreases |resources|
  {
    var r := resources[0];
    hide ItemsFor;
    if item in ItemsOf(plan, Marked(seen, r), resources[1..]) {
      ItemsOutside(plan, Marked(seen, r), resources[1..], item);
    } else {
      ItemOrigin(plan, r, item);
      FedIsMarked(plan, r);
    }
  }

  lemma FedIsMarked(plan: Plan, r: Resource)
    ensures Read(plan, r).Feeds? ==> Marks(r)
  {
  }

  // A UID contributes through one resource only.
  lemma {:induction false} OneProvenance(plan: Plan, seen: set<string>, resources: seq<Resource>, a: Item, b: Item)
    requires a in ItemsOf(plan, seen, resources) && a.Put? && b in ItemsOf(plan, seen, resources) && b.Put?
    requires a.entry.contribution.provenance.uid == b.entry.contribution.provenance.uid
    ensures a.entry.contribution.provenance == b.entry.contribution.provenance
    decreases |resources|
  {
    var r := resources[0];
    var here := if Marks(r) && r.provenance.uid in seen then [] else ItemsFor(plan, r);
    var rest := ItemsOf(plan, Marked(seen, r), resources[1..]);
    assert ItemsOf(plan, seen, resources) == here + rest;
    hide ItemsFor, Read, ItemsOf;
    FedIsMarked(plan, r);
    if a in here { ItemOrigin(plan, r, a); }
    if b in here { ItemOrigin(plan, r, b); }
    if a in rest { ItemsOutside(plan, Marked(seen, r), resources[1..], a); }
    if b in rest { ItemsOutside(plan, Marked(seen, r), resources[1..], b); }
    if a in rest && b in rest { OneProvenance(plan, Marked(seen, r), resources[1..], a, b); }
  }

  // Every match of every field is a possible value of its type.
  ghost predicate ValidInput(resources: seq<Resource>) {
    forall i, j, k ::
        0 <= i < |resources| && 0 <= j < |resources[i].fields| && 0 <= k < |resources[i].fields[j].matches| ==>
      ValidMatch(resources[i].fields[j].matches[k])
  }

  ghost predicate ValidFields(fields: seq<Field>) {
    forall j, k :: 0 <= j < |fields| && 0 <= k < |fields[j].matches| ==> ValidMatch(fields[j].matches[k])
  }

  lemma {:induction false} FoundIsField(fields: seq<Field>, name: string)
    ensures FindField(fields, name).Some? ==> FindField(fields, name).value in fields
  {
    if fields != [] && fields[0].name != name { FoundIsField(fields[1..], name); }
  }

  lemma ReadIsValid(plan: Plan, r: Resource, k: nat)
    requires ValidFields(r.fields) && Read(plan, r).Feeds? && k < |Read(plan, r).matches|
    ensures ValidMatch(Read(plan, r).matches[k])
  {
    FoundIsField(r.fields, plan.field);
    var f := FindField(r.fields, plan.field).value;
    var j: nat :| j < |r.fields| && r.fields[j] == f;
  }

  lemma EntryIsValid(plan: Plan, resources: seq<Resource>, e: Entry)
    requires ValidInput(resources) && e in Entries(ItemsOf(plan, {}, resources))
    ensures ValidMatch(e.contribution.value) && !e.contribution.value.Null?
  {
    hide Read, ItemsFor, ItemsOf, Entries, ValidMatch;
    var items := ItemsOf(plan, {}, resources);
    var j := EntryAt(items, e);
    var i := ItemFrom(plan, {}, resources, items[j]);
    ItemOrigin(plan, resources[i], items[j]);
    ReadIsValid(plan, resources[i], e.contribution.index);
  }

  // The contributions of a formed group, before and after they are put in order.
  lemma FormedGroup(plan: Plan, resources: seq<Resource>, g: Group)
    requires Gathers(g, Entries(ItemsOf(plan, {}, resources)))
    ensures UidsDetermine(g.contributions)
    ensures ValidInput(resources) ==> ValidContributions(g.contributions)
  {
    var items := ItemsOf(plan, {}, resources);
    var entries := Entries(items);
    var tags, cs := Identity(g.keys), g.contributions;
    assert cs == Chosen(entries, tags);
    hide ItemsOf, Entries, Gathers, Chosen, Identity, ValidMatch;
    forall i, j | 0 <= i < |cs| && 0 <= j < |cs| && cs[i].provenance.uid == cs[j].provenance.uid
      ensures cs[i].provenance == cs[j].provenance
    {
      var e := ChosenFrom(entries, tags, cs[i]);
      var f := ChosenFrom(entries, tags, cs[j]);
      var a := EntryAt(items, e);
      var b := EntryAt(items, f);
      OneProvenance(plan, {}, resources, items[a], items[b]);
    }
    if ValidInput(resources) {
      forall i | 0 <= i < |cs| ensures ValidMatch(cs[i].value) && !cs[i].value.Null? {
        var e := ChosenFrom(entries, tags, cs[i]);
        EntryIsValid(plan, resources, e);
      }
    }
  }

  lemma TidiedFrom(g: Group, i: nat) returns (j: nat)
    requires i < |Tidied(g).contributions|
    ensures j < |g.contributions| && g.contributions[j] == Tidied(g).contributions[i]
  {
    SortMember(ByKey(ContributionKey), g.contributions, i);
    hide Sort;
    j :| j < |g.contributions| && g.contributions[j] == Tidied(g).contributions[i];
  }

  lemma TidiedGroup(g: Group)
    ensures UidsDetermine(g.contributions) ==> UidsDetermine(Tidied(g).contributions)
    ensures ValidContributions(g.contributions) ==> ValidContributions(Tidied(g).contributions)
  {
    hide Tidied, ValidMatch;
    var sorted := Tidied(g).contributions;
    if UidsDetermine(g.contributions) {
      forall i, j | 0 <= i < |sorted| && 0 <= j < |sorted| && sorted[i].provenance.uid == sorted[j].provenance.uid
        ensures sorted[i].provenance == sorted[j].provenance
      {
        var x := TidiedFrom(g, i);
        var y := TidiedFrom(g, j);
      }
    }
    if ValidContributions(g.contributions) {
      forall i | 0 <= i < |sorted| ensures ValidMatch(sorted[i].value) && !sorted[i].value.Null? {
        var x := TidiedFrom(g, i);
      }
    }
  }

  lemma FinishedGroups(order: Order, plan: Plan, resources: seq<Resource>, st: State)
    requires PositiveLimits(plan.limits) && Result(order, plan, resources) == Forming(st)
    ensures forall i :: 0 <= i < |st.groups| ==> UidsDetermine(st.groups[i].contributions)
    ensures ValidInput(resources) ==> AllValid(st.groups)
  {
    hide Entries, ItemsOf, Form, UidsDetermine, ValidContributions, Sort, GroupLess, Tidied, ValidInput, OnlyKnown,
        FailureKey, ByKey;
    GroupingIsPartition(plan, resources);
    var groups := Form(plan, resources).state.groups;
    assert Partition(groups, Entries(ItemsOf(plan, {}, resources)));
    forall i | 0 <= i < |st.groups|
      ensures UidsDetermine(st.groups[i].contributions)
          && (ValidInput(resources) ==> ValidContributions(st.groups[i].contributions))
    {
      var j := FinishedFrom(order, groups, i);
      hide Gathers;
      FormedGroup(plan, resources, groups[j]);
      TidiedGroup(groups[j]);
    }
  }

  lemma EffectiveKeeps(plan: Plan, groups: seq<Group>)
    requires AllValid(groups) && forall i :: 0 <= i < |groups| ==> UidsDetermine(groups[i].contributions)
    ensures AllValid(Effective(plan, groups))
    ensures forall i :: 0 <= i < |Effective(plan, groups)| ==> UidsDetermine(Effective(plan, groups)[i].contributions)
  {
    NothingIsValid();
  }

  ghost predicate Reports(order: Order, plan: Plan, groups: seq<Group>, reported: seq<AggregateGroup>)
    requires AllValid(Effective(plan, groups))
  {
    var eff := Effective(plan, groups);
    |reported| == |eff| && forall i :: 0 <= i < |eff| ==> ReportOf(order, plan, eff[i], reported[i])
  }

  // End to end: whatever the resources, the check on the formed groups passes exactly when the report stays within the
  // limits on groups, contributions, collected values, distinct values and provenance entries, as it emits them.
  lemma ReportRespectsLimits(order: Order, plan: Plan, resources: seq<Resource>, st: State,
      reported: seq<AggregateGroup>)
    requires PositiveLimits(plan.limits) && ValidInput(resources) && Result(order, plan, resources) == Forming(st)
    requires AllValid(Effective(plan, st.groups)) && Reports(order, plan, st.groups, reported)
    ensures var l, c := plan.limits, EmittedTotal(plan, Effective(plan, st.groups), reported);
            !Refused(order, plan, resources) <==>
            && |reported| <= l.maxGroups && c.contributions <= l.maxContributions
            && c.collected <= l.maxCollectedValues && c.distinct <= l.maxDistinctValues
            && c.entries <= l.maxProvenanceEntries
  {
    FinishedGroups(order, plan, resources, st);
    EffectiveKeeps(plan, st.groups);
    hide ReportOf, UidsDetermine, ValidContributions, TotalCounts, EmittedTotal, Result;
    ReportWithinLimits(order, plan, st.groups, reported);
  }

  /* ---------- arrival order and reports ---------- */

  lemma NormalizedAt(g: seq<Group>, h: seq<Group>, i: nat)
    requires Map(Normalized, g) == Map(Normalized, h) && i < |g|
    ensures |g| == |h| && Normalized(g[i]) == Normalized(h[i])
  {
    assert |Map(Normalized, g)| == |g| && |Map(Normalized, h)| == |h|;
    assert Map(Normalized, g)[i] == Normalized(g[i]) && Map(Normalized, h)[i] == Normalized(h[i]);
  }

  // Two reports agree group by group: same key identity, value and contributors.
  ghost predicate AlikeReports(r: seq<AggregateGroup>, q: seq<AggregateGroup>) {
    |r| == |q| && forall i :: 0 <= i < |r| ==>
      Identity(r[i].keys) == Identity(q[i].keys) && r[i].value == q[i].value && r[i].contributors == q[i].contributors
  }

  // Groups of the same contributions, one by one.
  ghost predicate AlikeGroups(g: seq<Group>, h: seq<Group>) {
    |g| == |h| && forall i :: 0 <= i < |g| ==> Normalized(g[i]) == Normalized(h[i])
  }

  lemma EffectiveAlike(plan: Plan, g: seq<Group>, h: seq<Group>)
    requires Map(Normalized, g) == Map(Normalized, h)
    ensures AlikeGroups(Effective(plan, g), Effective(plan, h))
  {
    assert |Map(Normalized, g)| == |g| && |Map(Normalized, h)| == |h|;
    hide Map, Normalized;
    forall i | 0 <= i < |g| ensures Normalized(g[i]) == Normalized(h[i]) { NormalizedAt(g, h, i); }
  }

  lemma ReportsAlike(order: Order, plan: Plan, x: seq<Group>, y: seq<Group>, r: seq<AggregateGroup>,
      q: seq<AggregateGroup>)
    requires AlikeGroups(x, y) && AllValid(x) && AllValid(y) && |r| == |x| && |q| == |y|
    requires forall i :: 0 <= i < |x| ==> ReportOf(order, plan, x[i], r[i])
    requires forall i :: 0 <= i < |y| ==> ReportOf(order, plan, y[i], q[i])
    ensures AlikeReports(r, q)
  {
    hide Reduces, ValidContributions, Identity;
    forall i | 0 <= i < |r|
      ensures Identity(r[i].keys) == Identity(q[i].keys) && r[i].value == q[i].value
          && r[i].contributors == q[i].contributors
    {
      assert ReportOf(order, plan, x[i], r[i]) && ReportOf(order, plan, y[i], q[i]);
      ReductionUnique(order, plan, x[i].contributions, r[i].value, q[i].value);
    }
  }

  // Some group is the first whose reduction fails, with this error.
  ghost predicate Fails(order: Order, plan: Plan, groups: seq<Group>, e: ReduceError) {
    exists i :: 0 <= i < |groups| && FailsFirst(order, plan, groups, i, e)
  }

  // At most one error is the first, and groups of the same contributions have the same.
  lemma FailuresAgree(order: Order, plan: Plan, x: seq<Group>, y: seq<Group>, e: ReduceError, f: ReduceError)
    requires AlikeGroups(x, y) && Fails(order, plan, x, e) && Fails(order, plan, y, f)
    ensures e == f
  {
    hide Reduces, ValidContributions;
    var i :| 0 <= i < |x| && FailsFirst(order, plan, x, i, e);
    var j :| 0 <= j < |y| && FailsFirst(order, plan, y, j, f);
    if i < j { SuccessNotFailure(order, plan, y[i].contributions, e); }
    if j < i { SuccessNotFailure(order, plan, x[j].contributions, f); }
    assert x[i].contributions == y[i].contributions;
    if i == j { ReductionUnique(order, plan, x[i].contributions, Failed(e), Failed(f)); }
  }

  lemma SuccessNotFailure(order: Order, plan: Plan, cs: seq<Contribution>, e: ReduceError)
    requires ValidContributions(cs) && Succeeds(order, plan, cs)
    ensures !Reduces(order, plan, cs, Failed(e))
  {
    hide Reduces, ValidContributions;
    var v: Reduced :| Reduces(order, plan, cs, v) && !v.Failed?;
    if Reduces(order, plan, cs, Failed(e)) { ReductionUnique(order, plan, cs, v, Failed(e)); }
  }

  // Where one of the two reports, the other cannot fail.
  lemma ReportNotFailure(order: Order, plan: Plan, x: seq<Group>, y: seq<Group>, r: seq<AggregateGroup>, e: ReduceError)
    requires AlikeGroups(x, y) && AllValid(x) && |r| == |x|
    requires forall i :: 0 <= i < |x| ==> ReportOf(order, plan, x[i], r[i])
    ensures !Fails(order, plan, y, e)
  {
    hide Reduces, ValidContributions;
    if Fails(order, plan, y, e) {
      var i :| 0 <= i < |y| && FailsFirst(order, plan, y, i, e);
      assert ReportOf(order, plan, x[i], r[i]) && x[i].contributions == y[i].contributions;
      ReductionUnique(order, plan, x[i].contributions, r[i].value, Failed(e));
    }
  }

  lemma {:induction false} CountsAlike(plan: Plan, g: seq<Group>, h: seq<Group>)
    requires Map(Normalized, g) == Map(Normalized, h)
    ensures |g| == |h| && TotalCounts(plan, g) == TotalCounts(plan, h)
  {
    assert |Map(Normalized, g)| == |g| && |Map(Normalized, h)| == |h|;
    if g != [] {
      hide GroupCounts, Map;
      var n := |g| - 1;
      NormalizedAt(g, h, n);
      NormalizedPrefix(g, h, n);
      CountsAlike(plan, g[..n], h[..n]);
      assert GroupCounts(plan, g[n]) == GroupCounts(plan, h[n]) by { SameCounts(plan, g[n], h[n]); }
    }
  }

  lemma SameCounts(plan: Plan, g: Group, h: Group)
    requires g.contributions == h.contributions && g.contributors == h.contributors
    ensures GroupCounts(plan, g) == GroupCounts(plan, h)
  {
  }

  lemma NormalizedPrefix(g: seq<Group>, h: seq<Group>, n: nat)
    requires Map(Normalized, g) == Map(Normalized, h) && n <= |g| && |g| == |h|
    ensures Map(Normalized, g[..n]) == Map(Normalized, h[..n])
  {
    forall i | 0 <= i < n ensures Map(Normalized, g[..n])[i] == Map(Normalized, h[..n])[i] { NormalizedAt(g, h, i); }
  }

  // Whether the limits allow reducing at all does not depend on the order either.
  lemma PreCheckOrderIndependent(order: Order, plan: Plan, a: seq<Resource>, b: seq<Resource>, s: State, t: State)
    requires Agrees(order) && PositiveLimits(plan.limits) && Identified(a) && Identified(b)
        && multiset(a) == multiset(b)
    requires Result(order, plan, a) == Forming(s) && Result(order, plan, b) == Forming(t)
    ensures Within(plan.limits, |s.groups|, TotalCounts(plan, s.groups)) <==>
        Within(plan.limits, |t.groups|, TotalCounts(plan, t.groups))
  {
    hide Identified, Agrees, TotalCounts;
    OrderIndependent(order, plan, a, b);
    hide Result;
    CountsAlike(plan, s.groups, t.groups);
  }

  /* ---------- one plan, evaluated ---------- */

  datatype Evaluation = Stopped(kind: LimitKind) | OverLimit | Done(aggregate: Aggregate)

  // The groups form, but counting them exceeds a limit.
  ghost predicate Refused(order: Order, plan: Plan, resources: seq<Resource>) {
    match Result(order, plan, resources)
    case Exceeded(_) => false
    case Forming(st) => !Within(plan.limits, |st.groups|, TotalCounts(plan, st.groups))
  }

  // The aggregate reports exactly these groups and failures, within every limit.
  ghost predicate Answers(order: Order, plan: Plan, st: State, a: Aggregate)
    requires a.Reported?
  {
    && AllValid(Effective(plan, st.groups)) && Reports(order, plan, st.groups, a.groups) && a.failures == st.failures
    && Within(plan.limits, |a.groups|, EmittedTotal(plan, Effective(plan, st.groups), a.groups))
  }

  // What the evaluation of a plan can end with.
  ghost predicate Evaluates(order: Order, plan: Plan, resources: seq<Resource>, e: Evaluation) {
    match e
    case Stopped(kind) => Result(order, plan, resources) == Exceeded(kind)
    case OverLimit => Refused(order, plan, resources)
    case Done(a) =>
      && Result(order, plan, resources).Forming? && !Refused(order, plan, resources)
      && Ends(order, plan, Result(order, plan, resources).state, a)
  }

  ghost predicate Ends(order: Order, plan: Plan, st: State, a: Aggregate) {
    match a
    case Reported(_, _, _) => Answers(order, plan, st, a) && a.degraded == (st.failures != [])
    case Errored(error) => Fails(order, plan, Effective(plan, st.groups), error)
  }

  // The same kind of end, and the same error or the same report up to key identity.
  ghost predicate AlikeEvaluations(e: Evaluation, f: Evaluation) {
    match (e, f)
    case (Stopped(_), Stopped(_)) => true
    case (OverLimit, OverLimit) => true
    case (Done(a), Done(b)) => AlikeAggregates(a, b)
    case _ => false
  }

  ghost predicate AlikeAggregates(a: Aggregate, b: Aggregate) {
    match (a, b)
    case (Errored(e), Errored(f)) => e == f
    case (Reported(r, failures, degraded), Reported(q, others, also)) =>
      AlikeReports(r, q) && failures == others && degraded == also
    case _ => false
  }

  lemma EndsAlike(order: Order, plan: Plan, s: State, t: State, a: Aggregate, b: Aggregate)
    requires Map(Normalized, s.groups) == Map(Normalized, t.groups) && s.failures == t.failures
    requires Ends(order, plan, s, a) && Ends(order, plan, t, b)
    ensures AlikeAggregates(a, b)
  {
    EffectiveAlike(plan, s.groups, t.groups);
    hide Map, ReportOf, AllValid, Effective, EmittedTotal, Within, Fails, AlikeGroups;
    var x, y := Effective(plan, s.groups), Effective(plan, t.groups);
    if a.Reported? && b.Reported? {
      ReportsAlike(order, plan, x, y, a.groups, b.groups);
    } else if a.Reported? {
      ReportNotFailure(order, plan, x, y, a.groups, b.error);
    } else if b.Reported? {
      AlikeBackwards(x, y);
      ReportNotFailure(order, plan, y, x, b.groups, a.error);
    } else {
      FailuresAgree(order, plan, x, y, a.error, b.error);
    }
  }

  lemma AlikeBackwards(x: seq<Group>, y: seq<Group>)
    requires AlikeGroups(x, y)
    ensures AlikeGroups(y, x)
  {
  }

  // However the resources are ordered, their evaluation ends alike: stopped, refused, with the same error, or with the
  // same failures and, group by group, the same key identity, value and contributors.
  lemma EvaluationOrderIndependent(order: Order, plan: Plan, a: seq<Resource>, b: seq<Resource>, e: Evaluation,
      f: Evaluation)
    requires Agrees(order) && PositiveLimits(plan.limits) && Identified(a) && Identified(b)
        && multiset(a) == multiset(b)
    requires Evaluates(order, plan, a, e) && Evaluates(order, plan, b, f)
    ensures AlikeEvaluations(e, f)
  {
    OrderIndependent(order, plan, a, b);
    hide Result, Identified, Agrees, Ends, TotalCounts, Within, Normalized, AlikeAggregates;
    match (Result(order, plan, a), Result(order, plan, b))
    case (Forming(s), Forming(t)) =>
      PreCheckOrderIndependent(order, plan, a, b, s, t);
      if e.Done? && f.Done? { EndsAlike(order, plan, s, t, e.aggregate, f.aggregate); }
    case _ =>
  }

  lemma EachLimit(l: Limits, groups: nat, c: Counts)
    ensures Within(l, groups, c) <==>
            && groups <= l.maxGroups && c.contributions <= l.maxContributions && c.collected <= l.maxCollectedValues
            && c.distinct <= l.maxDistinctValues && c.entries <= l.maxProvenanceEntries
  {
  }

  // Forms the groups, checks the counts, and only then reduces.
  method Evaluate(order: Order, plan: Plan, resources: seq<Resource>) returns (e: Evaluation)
    requires PositiveLimits(plan.limits) && ValidInput(resources)
    ensures Evaluates(order, plan, resources, e)
    ensures e.Stopped? <==> Exceeding(plan, Entries(ItemsOf(plan, {}, resources)))
  {
    hide Entries, ItemsOf, TotalCounts, EmittedTotal, ReportOf, Represents, Exceeding, Within, UidsDetermine;
    GroupingIsPartition(plan, resources);
    var formed := FormGroups(order, plan, resources);
    if formed.Exceeded? { return Stopped(formed.kind); }
    var st := formed.state;
    FinishedGroups(order, plan, resources, st);
    EffectiveKeeps(plan, st.groups);
    var over := AggregateLimitFailure(plan, st.groups);
    if over { return OverLimit; }
    hide Result, AllValid;
    var aggregate := ReduceAggregate(order, plan, st.groups, st.failures);
    if aggregate.Reported? {
      ReportRespectsLimits(order, plan, resources, st, aggregate.groups);
      EachLimit(plan.limits, |aggregate.groups|, EmittedTotal(plan, Effective(plan, st.groups), aggregate.groups));
    }
    return Done(aggregate);
  }

  // A report is degraded exactly when some resource that is no repetition is to be reported as a failure.
  lemma DegradedExactly(order: Order, plan: Plan, resources: seq<Resource>, a: Aggregate)
    requires PositiveLimits(plan.limits) && a.Reported? && Evaluates(order, plan, resources, Done(a))
    ensures a.degraded <==> exists f :: ToReport(plan, resources, f)
    ensures forall f :: f in a.failures <==> ToReport(plan, resources, f)
  {
    ReportedEnd(order, plan, resources, a);
    hide Evaluates, Result, Form, Finished, ToReport, Contributes, Identity, Identities;
    var formed := Form(plan, resources).state;
    FormedExactly(plan, resources, formed);
    FailuresSorted(order, formed);
    if a.failures != [] { assert a.failures[0] in a.failures; }
  }

  lemma ReportedEnd(order: Order, plan: Plan, resources: seq<Resource>, a: Aggregate)
    requires a.Reported? && Evaluates(order, plan, resources, Done(a))
    ensures Form(plan, resources).Forming? && a.failures == Finished(order, Form(plan, resources).state).failures
    ensures a.degraded <==> a.failures != []
  {
    hide Form, Refused, Finished, AllValid, Reports, EmittedTotal, Within;
  }

  lemma FailuresSorted(order: Order, st: State)
    ensures forall f :: f in Finished(order, st).failures <==> f in st.failures
  {
    forall f ensures f in Finished(order, st).failures <==> f in st.failures {
      SortMembers(ByKey(FailureKey), st.failures, f);
    }
  }
}
