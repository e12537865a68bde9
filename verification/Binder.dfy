/** Binding a selection plan to authorization outcomes: one allowed, matching capability per exact target. */
module Binder {
  import opened Common
  import opened AccessPolicy
  import opened Authorization

  datatype ResourceName = ResourceName(group: string, version: string, resource: string)
  datatype ReadTarget = ReadTarget(sourceID: string, gvr: ResourceName, kind: string, scope: Scope, namespace: string)
  datatype AuthorizedRead = AuthorizedRead(target: ReadTarget, capability: Capability)

  datatype BindReason = Mismatch | Missing | Denied
  datatype Binding = Bound(permits: seq<AuthorizedRead>) | Unbound(reason: BindReason)

  function RequestForTarget(t: ReadTarget): Request {
    Request(t.sourceID, t.gvr.group, t.kind, t.namespace, t.scope)
  }

  predicate ValidRead(r: AuthorizedRead) {
    !r.target.scope.UnknownScope? && ValidCapability(r.capability) && r.capability.request == RequestForTarget(r.target)
  }

  function TargetRequests(targets: seq<ReadTarget>): seq<Request> {
    seq(|targets|, i requires 0 <= i < |targets| => RequestForTarget(targets[i]))
  }

  function OutcomeRequests(outcomes: seq<DecisionOutcome>): seq<Request> {
    seq(|outcomes|, i requires 0 <= i < |outcomes| => outcomes[i].request)
  }

  predicate Usable(o: DecisionOutcome) {
    o.decision == Decision(true, Allowed) && o.capability.Some?
    && ValidCapability(o.capability.value) && o.capability.value.request == o.request
  }

  // The outcomes are a rearrangement of one usable outcome per distinct target.
  ghost predicate Bindable(targets: seq<ReadTarget>, outcomes: seq<DecisionOutcome>) {
    && Distinct(targets)
    && multiset(OutcomeRequests(outcomes)) == multiset(TargetRequests(targets))
    && (forall j :: 0 <= j < |outcomes| ==> Usable(outcomes[j]))
  }

  /* ---------- the code's decision, branch by branch ---------- */

  // The positions at which a request was decided, below n.
  function Matches(outcomes: seq<DecisionOutcome>, want: Request, n: nat): seq<nat>
    requires n <= |outcomes|
  {
    if n == 0 then []
    else Matches(outcomes, want, n - 1) + if outcomes[n - 1].request == want then [n - 1] else []
  }

  lemma {:induction false} MatchesExactly(outcomes: seq<DecisionOutcome>, want: Request, n: nat)
    requires n <= |outcomes|
    ensures forall m :: m in Matches(outcomes, want, n) <==> 0 <= m < n && outcomes[m].request == want
    ensures |Matches(outcomes, want, n)| == multiset(OutcomeRequests(outcomes[..n]))[want]
  {
    if n > 0 {
      MatchesExactly(outcomes, want, n - 1);
      var earlier, last := OutcomeRequests(outcomes[..n - 1]), outcomes[n - 1].request;
      assert OutcomeRequests(outcomes[..n]) == earlier + [last] by {
        assert outcomes[..n] == outcomes[..n - 1] + [outcomes[n - 1]];
      }
      assert multiset(earlier + [last]) == multiset(earlier) + multiset{last};
    }
  }

  // What is wrong with the only outcome decided for a target.
  function OutcomeIssue(o: DecisionOutcome, want: Request): Option<BindReason> {
    if o.decision != Decision(true, Allowed) then Some(Denied)
    else if o.capability.None? || !ValidCapability(o.capability.value) || o.capability.value.request != want
    then Some(Mismatch)
    else None
  }

  function TargetIssue(outcomes: seq<DecisionOutcome>, want: Request): Option<BindReason> {
    var found := Matches(outcomes, want, |outcomes|);
    if |found| == 0 then Some(Missing)
    else if |found| > 1 then Some(Mismatch)
    else
      MatchesExactly(outcomes, want, |outcomes|);
      assert found[0] in found;
      OutcomeIssue(outcomes[found[0]], want)
  }

  function FirstIssue(targets: seq<ReadTarget>, outcomes: seq<DecisionOutcome>, n: nat): Option<BindReason>
    requires n <= |targets|
  {
    if n == 0 then None
    else match FirstIssue(targets, outcomes, n - 1)
      case Some(reason) => Some(reason)
      case None => TargetIssue(outcomes, RequestForTarget(targets[n - 1]))
  }

  lemma {:induction false} NoIssue(targets: seq<ReadTarget>, outcomes: seq<DecisionOutcome>, n: nat)
    requires n <= |targets|
    ensures FirstIssue(targets, outcomes, n) == None <==>
            forall i :: 0 <= i < n ==> TargetIssue(outcomes, RequestForTarget(targets[i])) == None
  {
    if n > 0 { NoIssue(targets, outcomes, n - 1); }
  }

  // The one outcome for the request.
  ghost predicate OnlyOutcome(outcomes: seq<DecisionOutcome>, want: Request, j: int) {
    0 <= j < |outcomes| && forall i :: 0 <= i < |outcomes| ==> (outcomes[i].request == want <==> i == j)
  }

  ghost predicate NoOutcome(outcomes: seq<DecisionOutcome>, want: Request) {
    forall j :: 0 <= j < |outcomes| ==> outcomes[j].request != want
  }

  ghost predicate SeveralOutcomes(outcomes: seq<DecisionOutcome>, want: Request) {
    exists i, j :: 0 <= i < j < |outcomes| && outcomes[i].request == want == outcomes[j].request
  }

  lemma OutcomesFound(outcomes: seq<DecisionOutcome>, want: Request)
    ensures var found := Matches(outcomes, want, |outcomes|);
            && (|found| == 0 <==> NoOutcome(outcomes, want))
            && (|found| > 1 <==> SeveralOutcomes(outcomes, want))
            && (|found| == 1 ==> OnlyOutcome(outcomes, want, found[0]))
            && (|found| != 1 ==> forall j :: !OnlyOutcome(outcomes, want, j))
  {
    hide Matches;
    MatchesExactly(outcomes, want, |outcomes|);
    MatchesAscend(outcomes, want, |outcomes|);
    FoundMeans(outcomes, want, Matches(outcomes, want, |outcomes|));
  }

  // An ascending list of exactly the positions for the request.
  lemma FoundMeans(outcomes: seq<DecisionOutcome>, want: Request, found: seq<nat>)
    requires forall m :: m in found <==> 0 <= m < |outcomes| && outcomes[m].request == want
    requires forall i, j :: 0 <= i < j < |found| ==> found[i] < found[j]
    ensures |found| == 0 <==> NoOutcome(outcomes, want)
    ensures |found| > 1 <==> SeveralOutcomes(outcomes, want)
    ensures |found| == 1 ==> OnlyOutcome(outcomes, want, found[0])
    ensures |found| != 1 ==> forall j :: !OnlyOutcome(outcomes, want, j)
  {
    if |found| > 1 {
      assert found[0] in found && found[1] in found;
    } else if |found| == 1 {
      assert found[0] in found;
      assert forall m :: m in found ==> m == found[0];
    } else {
      forall j | 0 <= j < |outcomes| ensures outcomes[j].request != want { assert j !in found; }
      forall j ensures !OnlyOutcome(outcomes, want, j) {
        assert 0 <= j < |outcomes| ==> outcomes[j].request != want;
      }
    }
  }

  // What is wrong with a target, told from the outcomes: none for it, several, or one that is denied or carries no
  // capability of its own.
  lemma TargetReasons(outcomes: seq<DecisionOutcome>, want: Request)
    ensures var issue := TargetIssue(outcomes, want);
            && (issue == Some(Missing) <==> NoOutcome(outcomes, want))
            && (issue == Some(Denied) <==>
                  exists j :: OnlyOutcome(outcomes, want, j) && outcomes[j].decision != Decision(true, Allowed))
            && (issue == None <==> exists j :: OnlyOutcome(outcomes, want, j) && Usable(outcomes[j]))
            && (issue == Some(Mismatch) <==>
                  || SeveralOutcomes(outcomes, want)
                  || exists j ::
                       OnlyOutcome(outcomes, want, j) && outcomes[j].decision == Decision(true, Allowed)
                       && !Usable(outcomes[j]))
  {
    OutcomesFound(outcomes, want);
    var found := Matches(outcomes, want, |outcomes|);
    if |found| == 1 {
      OneUsable(outcomes[found[0]], want);
      OnlyOne(outcomes, want, found[0]);
    }
    hide Matches, OnlyOutcome, NoOutcome, SeveralOutcomes, Usable, OutcomeIssue;
  }

  lemma OnlyOne(outcomes: seq<DecisionOutcome>, want: Request, j: int)
    requires OnlyOutcome(outcomes, want, j)
    ensures forall k :: OnlyOutcome(outcomes, want, k) <==> k == j
    ensures outcomes[j].request == want
  {
  }

  lemma OneUsable(o: DecisionOutcome, want: Request)
    requires o.request == want
    ensures OutcomeIssue(o, want) == None <==> Usable(o)
    ensures OutcomeIssue(o, want) == Some(Denied) <==> o.decision != Decision(true, Allowed)
    ensures OutcomeIssue(o, want) != Some(Missing)
  {
  }

  lemma {:induction false} MatchesAscend(outcomes: seq<DecisionOutcome>, want: Request, n: nat)
    requires n <= |outcomes|
    ensures var found := Matches(outcomes, want, n);
            forall i, j :: 0 <= i < j < |found| ==> found[i] < found[j]
  {
    if n > 0 {
      MatchesAscend(outcomes, want, n - 1);
      MatchesExactly(outcomes, want, n - 1);
      var found := Matches(outcomes, want, n - 1);
      forall i | 0 <= i < |found| ensures found[i] < n - 1 { assert found[i] in found; }
    }
  }

  // The reason reported is that of the first target something is wrong with.
  lemma {:induction false} FirstReason(targets: seq<ReadTarget>, outcomes: seq<DecisionOutcome>, n: nat,
                                       reason: BindReason)
    requires n <= |targets|
    ensures FirstIssue(targets, outcomes, n) == Some(reason) <==>
            exists i ::
              && 0 <= i < n && TargetIssue(outcomes, RequestForTarget(targets[i])) == Some(reason)
              && forall k :: 0 <= k < i ==> TargetIssue(outcomes, RequestForTarget(targets[k])) == None
  {
    hide TargetIssue, RequestForTarget;
    if n > 0 {
      FirstReason(targets, outcomes, n - 1, reason);
      NoIssue(targets, outcomes, n - 1);
      if FirstIssue(targets, outcomes, n - 1).Some? {
        FirstReason(targets, outcomes, n - 1, FirstIssue(targets, outcomes, n - 1).value);
      }
    }
  }

  ghost predicate Distinct(targets: seq<ReadTarget>) {
    forall i, j :: 0 <= i < j < |targets| ==> RequestForTarget(targets[i]) != RequestForTarget(targets[j])
  }

  // One of the first n targets asks for this request.
  ghost predicate Wanted(targets: seq<ReadTarget>, q: Request, n: nat)
    requires n <= |targets|
  {
    exists k :: 0 <= k < n && RequestForTarget(targets[k]) == q
  }

  ghost predicate NoStray(targets: seq<ReadTarget>, outcomes: seq<DecisionOutcome>) {
    forall j :: 0 <= j < |outcomes| ==> Wanted(targets, outcomes[j].request, |targets|)
  }

  // The permit is for this target, and carries the capability of one of the outcomes.
  ghost predicate Permits(outcomes: seq<DecisionOutcome>, target: ReadTarget, permit: AuthorizedRead) {
    && permit.target == target && ValidRead(permit)
    && exists j :: 0 <= j < |outcomes| && outcomes[j].capability == Some(permit.capability)
  }

  method CollectTargets(targets: seq<ReadTarget>) returns (keys: Option<set<Request>>)
    ensures keys.Some? <==> Distinct(targets)
    ensures keys.Some? ==> forall q :: q in keys.value <==> Wanted(targets, q, |targets|)
  {
    var targetKeys: set<Request> := {};
    for i := 0 to |targets|
      invariant forall q :: q in targetKeys <==> Wanted(targets, q, i)
      invariant forall k, j :: 0 <= k < j < i ==> RequestForTarget(targets[k]) != RequestForTarget(targets[j])
    {
      var request := RequestForTarget(targets[i]);
      if request in targetKeys { return None; }
      targetKeys := targetKeys + {request};
    }
    return Some(targetKeys);
  }

  method IndexOutcomes(keys: set<Request>, outcomes: seq<DecisionOutcome>)
    returns (indexes: Option<map<Request, seq<nat>>>)
    ensures indexes.Some? <==> forall j :: 0 <= j < |outcomes| ==> outcomes[j].request in keys
    ensures indexes.Some? ==> forall q :: Indexed(indexes.value, q) == Matches(outcomes, q, |outcomes|)
  {
    var found: map<Request, seq<nat>> := map[];
    for i := 0 to |outcomes|
      invariant forall j :: 0 <= j < i ==> outcomes[j].request in keys
      invariant forall q :: Indexed(found, q) == Matches(outcomes, q, i)
    {
      var request := outcomes[i].request;
      if request !in keys { return None; }
      found := found[request := Indexed(found, request) + [i]];
    }
    return Some(found);
  }

  // A missing map entry reads as the empty list.
  function Indexed(indexes: map<Request, seq<nat>>, q: Request): seq<nat> {
    if q in indexes then indexes[q] else []
  }

  method BindTarget(target: ReadTarget, indexes: seq<nat>, outcomes: seq<DecisionOutcome>)
    returns (permit: Option<AuthorizedRead>)
    requires indexes == Matches(outcomes, RequestForTarget(target), |outcomes|)
    ensures permit.Some? <==> TargetIssue(outcomes, RequestForTarget(target)) == None
    ensures permit.Some? ==> Permits(outcomes, target, permit.value)
  {
    var want := RequestForTarget(target);
    MatchesExactly(outcomes, want, |outcomes|);
    if |indexes| != 1 { return None; }
    assert indexes[0] in indexes;
    var o := outcomes[indexes[0]];
    if o.decision != Decision(true, Allowed) { return None; }
    if o.capability.None? || !ValidCapability(o.capability.value) || o.capability.value.request != want { return None; }
    return Some(AuthorizedRead(target, o.capability.value));
  }

  // The first position holding an equal target.
  method FirstPosition(targets: seq<ReadTarget>, target: ReadTarget) returns (index: nat)
    requires target in targets
    ensures index < |targets| && targets[index] == target && forall j :: 0 <= j < index ==> targets[j] != target
  {
    index := 0;
    while targets[index] != target
      invariant index < |targets| && target in targets[index..]
      invariant forall j :: 0 <= j < index ==> targets[j] != target
      decreases |targets| - index
    {
      index := index + 1;
    }
  }

  method BindEach(targets: seq<ReadTarget>, indexes: map<Request, seq<nat>>, outcomes: seq<DecisionOutcome>)
    returns (b: Binding)
    requires Distinct(targets)
    requires forall q :: Indexed(indexes, q) == Matches(outcomes, q, |outcomes|)
    ensures b.Bound? <==> FirstIssue(targets, outcomes, |targets|) == None
    ensures b.Unbound? ==> Some(b.reason) == FirstIssue(targets, outcomes, |targets|)
    ensures b.Bound? ==> |b.permits| == |targets|
    ensures b.Bound? ==> forall i :: 0 <= i < |targets| ==> Permits(outcomes, targets[i], b.permits[i])
  {
    hide Permits, TargetIssue, Matches;
    var permits := new AuthorizedRead[|targets|];
    for i := 0 to |targets|
      invariant FirstIssue(targets, outcomes, i) == None
      invariant forall k :: 0 <= k < i ==> Permits(outcomes, targets[k], permits[k])
    {
      var want := RequestForTarget(targets[i]);
      assert Indexed(indexes, want) == Matches(outcomes, want, |outcomes|);
      var permit := BindTarget(targets[i], Indexed(indexes, want), outcomes);
      if permit.None? {
        IssueSticks(targets, outcomes, i + 1, |targets|);
        return Unbound(TargetIssue(outcomes, want).value);
      }
      var index := FirstPosition(targets, targets[i]);
      assert index == i;
      permits[index] := permit.value;
    }
    return Bound(permits[..]);
  }

  method BindCapabilities(targets: seq<ReadTarget>, outcomes: seq<DecisionOutcome>) returns (b: Binding)
    ensures b.Bound? <==> Bindable(targets, outcomes)
    ensures b.Bound? ==> |b.permits| == |targets|
    ensures b.Bound? ==> forall i :: 0 <= i < |targets| ==> Permits(outcomes, targets[i], b.permits[i])
    ensures b.Unbound? ==>
              Some(b.reason) == if Distinct(targets) && NoStray(targets, outcomes)
                                then FirstIssue(targets, outcomes, |targets|) else Some(Mismatch)
  {
    hide Bindable, Distinct, Permits, FirstIssue, Wanted, Matches;
    var keys := CollectTargets(targets);
    if keys.None? {
      DuplicateUnbindable(targets, outcomes);
      return Unbound(Mismatch);
    }
    var indexes := IndexOutcomes(keys.value, outcomes);
    assert indexes.Some? <==> NoStray(targets, outcomes);
    if indexes.None? {
      StrayUnbindable(targets, outcomes);
      return Unbound(Mismatch);
    }
    IssuesDecide(targets, outcomes);
    b := BindEach(targets, indexes.value, outcomes);
  }

  lemma DuplicateUnbindable(targets: seq<ReadTarget>, outcomes: seq<DecisionOutcome>)
    requires !Distinct(targets)
    ensures !Bindable(targets, outcomes)
  {
  }

  lemma {:induction false} IssueSticks(targets: seq<ReadTarget>, outcomes: seq<DecisionOutcome>, n: nat, m: nat)
    requires n <= m <= |targets| && FirstIssue(targets, outcomes, n).Some?
    ensures FirstIssue(targets, outcomes, m) == FirstIssue(targets, outcomes, n)
  {
    hide TargetIssue;
    if n < m { IssueSticks(targets, outcomes, n, m - 1); }
  }

  lemma WantedListed(targets: seq<ReadTarget>, q: Request)
    ensures q in TargetRequests(targets) <==> Wanted(targets, q, |targets|)
  {
    forall k | 0 <= k < |targets| ensures TargetRequests(targets)[k] == RequestForTarget(targets[k]) {}
  }

  lemma StrayUnbindable(targets: seq<ReadTarget>, outcomes: seq<DecisionOutcome>)
    requires !NoStray(targets, outcomes)
    ensures !Bindable(targets, outcomes)
  {
    hide Usable, Distinct, Wanted;
    var j :| 0 <= j < |outcomes| && !Wanted(targets, outcomes[j].request, |targets|);
    WantedListed(targets, outcomes[j].request);
    assert OutcomeRequests(outcomes)[j] in multiset(OutcomeRequests(outcomes));
  }

  // With distinct targets and no stray outcome, finding no issue is the same as a rearrangement of usable outcomes.
  lemma IssuesDecide(targets: seq<ReadTarget>, outcomes: seq<DecisionOutcome>)
    requires Distinct(targets)
    requires NoStray(targets, outcomes)
    ensures FirstIssue(targets, outcomes, |targets|) == None <==> Bindable(targets, outcomes)
  {
    hide Bindable, FirstIssue, TargetIssue, Distinct, NoStray;
    NoIssue(targets, outcomes, |targets|);
    if FirstIssue(targets, outcomes, |targets|) == None {
      NoIssueBinds(targets, outcomes);
    }
    if Bindable(targets, outcomes) {
      BindsNoIssue(targets, outcomes);
    }
  }

  lemma {:induction false} DistinctCounts(targets: seq<ReadTarget>, q: Request)
    requires Distinct(targets)
    ensures multiset(TargetRequests(targets))[q] == if Wanted(targets, q, |targets|) then 1 else 0
  {
    if targets != [] {
      var n := |targets| - 1;
      assert TargetRequests(targets) == TargetRequests(targets[..n]) + [RequestForTarget(targets[n])];
      DistinctCounts(targets[..n], q);
      assert Wanted(targets, q, |targets|) <==> Wanted(targets[..n], q, n) || RequestForTarget(targets[n]) == q;
    }
  }

  lemma NoIssueBinds(targets: seq<ReadTarget>, outcomes: seq<DecisionOutcome>)
    requires Distinct(targets)
    requires NoStray(targets, outcomes)
    requires forall i :: 0 <= i < |targets| ==> TargetIssue(outcomes, RequestForTarget(targets[i])) == None
    ensures Bindable(targets, outcomes)
  {
    hide TargetIssue, Distinct, NoStray, Usable;
    forall q ensures multiset(OutcomeRequests(outcomes))[q] == multiset(TargetRequests(targets))[q] {
      CountsAgree(targets, outcomes, q);
    }
    forall j | 0 <= j < |outcomes| ensures Usable(outcomes[j]) {
      NoIssueUsable(targets, outcomes, j);
    }
  }

  lemma NoIssueUsable(targets: seq<ReadTarget>, outcomes: seq<DecisionOutcome>, j: nat)
    requires NoStray(targets, outcomes) && j < |outcomes|
    requires forall i :: 0 <= i < |targets| ==> TargetIssue(outcomes, RequestForTarget(targets[i])) == None
    ensures Usable(outcomes[j])
  {
    hide TargetIssue, Usable;
    var q := outcomes[j].request;
    assert Wanted(targets, q, |targets|);
    var i :| 0 <= i < |targets| && RequestForTarget(targets[i]) == q;
    assert TargetIssue(outcomes, q) == None;
    IssueFreeUsable(outcomes, j);
  }

  lemma IssueFreeUsable(outcomes: seq<DecisionOutcome>, j: nat)
    requires j < |outcomes| && TargetIssue(outcomes, outcomes[j].request) == None
    ensures Usable(outcomes[j])
  {
    hide ValidCapability, Matches;
    var q := outcomes[j].request;
    MatchesExactly(outcomes, q, |outcomes|);
    var found := Matches(outcomes, q, |outcomes|);
    assert j in found && |found| == 1;
    assert found[0] == j;
  }

  lemma CountsAgree(targets: seq<ReadTarget>, outcomes: seq<DecisionOutcome>, q: Request)
    requires Distinct(targets) && NoStray(targets, outcomes)
    requires forall i :: 0 <= i < |targets| ==> TargetIssue(outcomes, RequestForTarget(targets[i])) == None
    ensures multiset(OutcomeRequests(outcomes))[q] == multiset(TargetRequests(targets))[q]
  {
    hide ValidCapability;
    assert outcomes[..|outcomes|] == outcomes;
    MatchesExactly(outcomes, q, |outcomes|);
    DistinctCounts(targets, q);
    if Wanted(targets, q, |targets|) {
      var i :| 0 <= i < |targets| && RequestForTarget(targets[i]) == q;
      assert TargetIssue(outcomes, q) == None;
    } else {
      assert q !in OutcomeRequests(outcomes);
    }
  }

  lemma BindsNoIssue(targets: seq<ReadTarget>, outcomes: seq<DecisionOutcome>)
    requires Bindable(targets, outcomes)
    ensures forall i :: 0 <= i < |targets| ==> TargetIssue(outcomes, RequestForTarget(targets[i])) == None
  {
    hide ValidCapability;
    assert outcomes[..|outcomes|] == outcomes;
    forall i | 0 <= i < |targets| ensures TargetIssue(outcomes, RequestForTarget(targets[i])) == None {
      var q := RequestForTarget(targets[i]);
      MatchesExactly(outcomes, q, |outcomes|);
      DistinctCounts(targets, q);
    }
  }

  // From policy to read permit: every read of a bound plan is for a target the declared policy admits,
  // under the subject the decisions were made for.
  lemma BoundReadsAdmitted(p: Policy, c: CompiledPolicy, subject: Subject, requests: seq<Request>,
                           outcomes: seq<DecisionOutcome>, read: AuthorizedRead)
    requires Compiles(p, c) && |outcomes| == |requests|
    requires forall j :: 0 <= j < |requests| ==> MintedFrom(outcomes[j], subject, Ready(c), requests[j])
    requires ValidRead(read) && exists j :: 0 <= j < |outcomes| && outcomes[j].capability == Some(read.capability)
    ensures Admits(p, RequestForTarget(read.target)) && read.capability.subject == subject
  {
    var j :| 0 <= j < |outcomes| && outcomes[j].capability == Some(read.capability);
    EvaluationIsAdmission(p, c, requests[j]);
  }
}
