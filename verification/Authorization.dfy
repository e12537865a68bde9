/** The enforcer: the only place where a read capability is minted. */
module Authorization {
  import opened Common
  import opened AccessPolicy

  datatype Subject = Subject(key: NamespacedName, uid: string, generation: int, policyEpoch: nat)

  predicate ValidSubject(s: Subject) {
    s.key.namespace != "" && s.key.name != "" && s.uid != "" && s.generation > 0
  }

  datatype RecordKind = PolicyDecision | ReadForbidden
  datatype PolicyState = StateReady | StateMissing | StateInvalid | StateUnavailable
  datatype RecordOutcome = OutcomeAllowed | OutcomeDenied | OutcomeUnavailable

  datatype Record = Record(
    kind: RecordKind, subject: Subject, sourceID: string, apiGroup: string, kindName: string, scope: Scope,
    namespace: string,
    state: PolicyState, outcome: RecordOutcome, reason: Reason)

  datatype Capability = Capability(subject: Subject, request: Request, record: Record)

  datatype DecisionOutcome = DecisionOutcome(request: Request, decision: Decision, record: Record,
      capability: Option<Capability>)

  datatype Batch = Evaluated(outcomes: seq<DecisionOutcome>) | InvalidSubject | ContextCanceled

  // The dimensions a capability's request must carry; stricter than the policy's own request check.
  predicate CompleteRequest(r: Request) {
    && r.sourceID != "" && r.kind != "" && !r.scope.UnknownScope?
    && (if r.scope.Namespaced? then r.namespace != "" else r.namespace == "")
  }

  predicate ValidCapability(c: Capability) {
    ValidSubject(c.subject) && CompleteRequest(c.request)
    && c.record.kind == PolicyDecision && c.record.outcome == OutcomeAllowed && c.record.reason == Allowed
  }

  function RecordFor(s: Subject, r: Request, snapshot: Snapshot, d: Decision): Record {
    var state := match snapshot
      case Terminal(PolicyMissing) => StateMissing
      case Terminal(PolicyInvalid) => StateInvalid
      case Terminal(PolicyUnavailable) => StateUnavailable
      case _ => StateReady;
    var outcome :=
      if d.allowed && d.reason == Allowed then OutcomeAllowed
      else if d.reason == PolicyUnavailable then OutcomeUnavailable
      else OutcomeDenied;
    Record(PolicyDecision, s, r.sourceID, r.apiGroup, r.kind, r.scope, r.namespace, state, outcome, d.reason)
  }

  // `live` is the number of context checks that succeed before the context is cancelled.
  method EvaluateBatch(subject: Subject, snapshot: Snapshot, requests: seq<Request>, live: nat) returns (batch: Batch)
    ensures !ValidSubject(subject) ==> batch == InvalidSubject
    ensures ValidSubject(subject) ==> (batch == ContextCanceled <==> live < 1 + |requests|) && batch != InvalidSubject
    ensures batch.Evaluated? ==>
              && |batch.outcomes| == |requests|
              && forall i :: 0 <= i < |requests| ==> MintedFrom(batch.outcomes[i], subject, snapshot, requests[i])
  {
    if !ValidSubject(subject) { return InvalidSubject; }
    if live == 0 { return ContextCanceled; }
    var outcomes: seq<DecisionOutcome> := [];
    for i := 0 to |requests|
      invariant |outcomes| == i && i < live
      invariant forall j :: 0 <= j < i ==> MintedFrom(outcomes[j], subject, snapshot, requests[j])
    {
      if i + 1 >= live { return ContextCanceled; }
      var decision := Evaluate(snapshot, requests[i]);
      var record := RecordFor(subject, requests[i], snapshot, decision);
      var outcome := DecisionOutcome(requests[i], decision, record, None);
      if decision.allowed && decision.reason == Allowed {
        outcome := outcome.(capability := Some(Capability(subject, requests[i], record)));
      }
      outcomes := outcomes + [outcome];
    }
    return Evaluated(outcomes);
  }

  // An outcome reports the snapshot's decision on its request, and holds a capability for exactly that
  // request and subject when, and only when, the decision is allowed.
  ghost predicate MintedFrom(o: DecisionOutcome, subject: Subject, snapshot: Snapshot, r: Request) {
    && o.request == r && o.decision == Evaluate(snapshot, r)
    && o.record == RecordFor(subject, r, snapshot, o.decision)
    && (o.capability.Some? <==> o.decision == Decision(true, Allowed))
    && (o.capability.Some? ==> o.capability.value == Capability(subject, r, o.record))
  }

  // A minted capability exists exactly when the declared policy admits the request; it is valid exactly when
  // the request also names its source and, at cluster scope, carries no namespace.
  lemma MintedCapability(o: DecisionOutcome, subject: Subject, p: Policy, c: CompiledPolicy, r: Request)
    requires Compiles(p, c) && ValidSubject(subject) && MintedFrom(o, subject, Ready(c), r)
    ensures o.capability.Some? <==> Admits(p, r)
    ensures o.capability.Some? && ValidCapability(o.capability.value) <==>
            Admits(p, r) && r.sourceID != "" && (r.scope.ClusterWide? ==> r.namespace == "")
  {
    EvaluationIsAdmission(p, c, r);
  }

  // What the record of a decision tells: whose it is, what was asked, the reason, and which state and outcome.
  lemma RecordTells(o: DecisionOutcome, subject: Subject, s: Snapshot, r: Request)
    requires MintedFrom(o, subject, s, r)
    ensures var record := o.record;
            && record.kind == PolicyDecision && record.subject == subject && record.reason == o.decision.reason
            && Request(record.sourceID, record.apiGroup, record.kindName, record.namespace, record.scope) == r
            && (record.outcome == OutcomeAllowed <==> o.decision == Decision(true, Allowed))
            && (record.outcome == OutcomeUnavailable <==> s == Terminal(PolicyUnavailable))
            && (record.state == StateMissing <==> s == Terminal(PolicyMissing))
            && (record.state == StateInvalid <==> s == Terminal(PolicyInvalid))
            && (record.state == StateUnavailable <==> s == Terminal(PolicyUnavailable))
  {
  }

  // Without a compiled policy nothing is minted.
  lemma DenyAllMintsNothing(o: DecisionOutcome, subject: Subject, s: Snapshot, r: Request)
    requires MintedFrom(o, subject, s, r) && !s.Ready?
    ensures o.capability == None && !o.decision.allowed
  {
  }
}
