/** The installation access policy: compilation of rule lists to lookup sets, and pure evaluation. */
module AccessPolicy {
  import opened Common
  import opened DecimalText

  datatype Scope = Namespaced | ClusterWide | UnknownScope(code: int)

  datatype Request = Request(sourceID: string, apiGroup: string, kind: string, namespace: string, scope: Scope)

  datatype Mode = Explicit | All | AllNonSystem | UnknownMode(text: string)

  datatype Rule = Rule(apiGroups: seq<string>, kinds: seq<string>)

  // `systemNamespaces` is None when the field is absent, which is different from an empty list.
  datatype Policy = Policy(
    name: string, mode: Mode, includes: seq<string>, excludes: seq<string>, systemNamespaces: Option<seq<string>>,
    resources: seq<Rule>, allowClusterScoped: bool)

  const POLICY_NAME := "installation-access-ceiling"
  const DEFAULT_SYSTEM_NAMESPACES: seq<string> := ["kube-system", "kube-public", "kube-node-lease"]

  datatype ResourceKey = ResourceKey(apiGroup: string, kind: string)

  datatype CompiledPolicy = CompiledPolicy(
    mode: Mode, included: set<string>, excluded: set<string>, system: set<string>,
    allowed: set<ResourceKey>, allowClusterScoped: bool)

  datatype Reason =
    | Allowed | PolicyMissing | PolicyInvalid | PolicyUnavailable
    | InvalidRequest | ResourceDenied | ClusterScopeDenied | NamespaceDenied

  datatype Decision = Decision(allowed: bool, reason: Reason)

  // A terminal deny-all state, a compiled policy, or the zero snapshot.
  datatype Snapshot = Terminal(reason: Reason) | Ready(policy: CompiledPolicy) | Unset

  /* ---------- names ---------- */

  predicate Lower(c: char) { 'a' <= c <= 'z' }
  predicate Upper(c: char) { 'A' <= c <= 'Z' }

  // ^[A-Z][A-Za-z0-9]*$
  predicate KindName(s: string) {
    s != "" && Upper(s[0]) && forall i :: 0 <= i < |s| ==> Lower(s[i]) || Upper(s[i]) || Digit(s[i])
  }

  predicate LabelText(s: string) {
    && s != "" && s[0] != '-' && s[|s| - 1] != '-'
    && forall i :: 0 <= i < |s| ==> Lower(s[i]) || Digit(s[i]) || s[i] == '-'
  }

  // A DNS-1123 label, and dot-separated labels.
  predicate DnsLabel(s: string) {
    |s| <= 63 && LabelText(s)
  }

  predicate DnsSubdomain(s: string) {
    |s| <= 253 && DottedLabels(s, "")
  }

  predicate DottedLabels(s: string, current: string)
    decreases |s|
  {
    if s == "" then LabelText(current)
    else if s[0] == '.' then LabelText(current) && DottedLabels(s[1..], "")
    else DottedLabels(s[1..], current + [s[0]])
  }

  /* ---------- compilation ---------- */

  predicate ValidGroup(g: string) { g == "" || DnsSubdomain(g) }

  predicate ValidKind(k: string) { |k| <= 63 && KindName(k) }

  predicate ValidValues(values: seq<string>, valid: string -> bool) {
    Different(values) && forall i :: 0 <= i < |values| ==> valid(values[i])
  }

  predicate WellFormed(p: Policy) {
    && p.name == POLICY_NAME && !p.mode.UnknownMode?
    && ValidValues(p.includes, DnsLabel) && ValidValues(p.excludes, DnsLabel)
    && (p.systemNamespaces.Some? ==> ValidValues(p.systemNamespaces.value, DnsLabel))
    && forall i :: 0 <= i < |p.resources| ==> ValidRule(p.resources[i])
  }

  predicate ValidRule(r: Rule) {
    r.apiGroups != [] && r.kinds != [] && ValidValues(r.apiGroups, ValidGroup) && ValidValues(r.kinds, ValidKind)
  }

  predicate RuleCovers(r: Rule, apiGroup: string, kind: string) {
    apiGroup in r.apiGroups && kind in r.kinds
  }

  ghost predicate Covered(rules: seq<Rule>, key: ResourceKey) {
    exists i :: 0 <= i < |rules| && RuleCovers(rules[i], key.apiGroup, key.kind)
  }

  function SystemNamespaces(p: Policy): seq<string> {
    if p.systemNamespaces.None? then DEFAULT_SYSTEM_NAMESPACES else p.systemNamespaces.value
  }

  ghost predicate Compiles(p: Policy, c: CompiledPolicy) {
    && c.mode == p.mode && c.allowClusterScoped == p.allowClusterScoped
    && (forall n :: n in c.included <==> n in p.includes)
    && (forall n :: n in c.excluded <==> n in p.excludes)
    && (forall n :: n in c.system <==> n in SystemNamespaces(p))
    && (forall key :: key in c.allowed <==> Covered(p.resources, key))
  }

  // Counts the entries that repeat an earlier one or are not valid.
  method CountIssues(values: seq<string>, valid: string -> bool) returns (issues: nat)
    ensures issues == 0 <==> ValidValues(values, valid)
  {
    var seen: map<string, nat> := map[];
    issues := 0;
    for i := 0 to |values|
      invariant forall v :: v in seen <==> v in values[..i]
      invariant issues == 0 <==> ValidValues(values[..i], valid)
    {
      var value := values[i];
      assert values[..i + 1] == values[..i] + [value];
      if value in seen {
        issues := issues + 1;
      } else {
        seen := seen[value := i];
      }
      if !valid(value) { issues := issues + 1; }
    }
    assert values[..|values|] == values;
  }

  method CopyStringSet(values: seq<string>) returns (s: set<string>)
    ensures forall v :: v in s <==> v in values
  {
    s := {};
    for i := 0 to |values|
      invariant forall v :: v in s <==> v in values[..i]
    {
      s := s + {values[i]};
    }
  }

  method ValidatePolicy(p: Policy) returns (issues: nat)
    ensures issues == 0 <==> WellFormed(p)
  {
    issues := if p.name != POLICY_NAME then 1 else 0;
    if p.mode.UnknownMode? { issues := issues + 1; }
    var n := CountIssues(p.includes, DnsLabel);
    var m := CountIssues(p.excludes, DnsLabel);
    issues := issues + n + m;
    if p.systemNamespaces.Some? {
      n := CountIssues(p.systemNamespaces.value, DnsLabel);
      issues := issues + n;
    }
    ghost var before := issues;
    for i := 0 to |p.resources|
      invariant issues >= before
      invariant issues == before <==> forall j :: 0 <= j < i ==> ValidRule(p.resources[j])
    {
      var rule := p.resources[i];
      n, m := 1, 1;
      if rule.apiGroups != [] { n := CountIssues(rule.apiGroups, ValidGroup); }
      if rule.kinds != [] { m := CountIssues(rule.kinds, ValidKind); }
      issues := issues + n + m;
    }
  }

  method Compile(p: Policy) returns (compiled: Option<CompiledPolicy>)
    ensures compiled.Some? <==> WellFormed(p)
    ensures compiled.Some? ==> Compiles(p, compiled.value)
  {
    var issues := ValidatePolicy(p);
    if issues != 0 { return None; }
    var included := CopyStringSet(p.includes);
    var excluded := CopyStringSet(p.excludes);
    var system := CopyStringSet(SystemNamespaces(p));
    var allowed: set<ResourceKey> := {};
    for i := 0 to |p.resources|
      invariant forall key :: key in allowed <==> Covered(p.resources[..i], key)
    {
      var rule := p.resources[i];
      ghost var before := allowed;
      for g := 0 to |rule.apiGroups|
        invariant forall key :: key in allowed <==>
                    key in before || (key.apiGroup in rule.apiGroups[..g] && key.kind in rule.kinds)
      {
        ghost var inner := allowed;
        for k := 0 to |rule.kinds|
          invariant forall key :: key in allowed <==>
                      key in inner || (key.apiGroup == rule.apiGroups[g] && key.kind in rule.kinds[..k])
        {
          allowed := allowed + {ResourceKey(rule.apiGroups[g], rule.kinds[k])};
        }
        assert rule.kinds[..|rule.kinds|] == rule.kinds;
      }
      assert rule.apiGroups[..|rule.apiGroups|] == rule.apiGroups;
      forall key
        ensures Covered(p.resources[..i + 1], key) <==>
            Covered(p.resources[..i], key) || RuleCovers(rule, key.apiGroup, key.kind)
      {
        CoveredExtend(p.resources, i, key);
      }
    }
    assert p.resources[..|p.resources|] == p.resources;
    compiled := Some(CompiledPolicy(p.mode, included, excluded, system, allowed, p.allowClusterScoped));
  }

  lemma CoveredExtend(rules: seq<Rule>, i: nat, key: ResourceKey)
    requires i < |rules|
    ensures Covered(rules[..i + 1], key) <==> Covered(rules[..i], key) || RuleCovers(rules[i], key.apiGroup, key.kind)
  {
    assert rules[..i + 1] == rules[..i] + [rules[i]];
    if Covered(rules[..i], key) {
      var j :| 0 <= j < i && RuleCovers(rules[..i][j], key.apiGroup, key.kind);
      assert RuleCovers(rules[..i + 1][j], key.apiGroup, key.kind);
    }
    if RuleCovers(rules[i], key.apiGroup, key.kind) {
      assert RuleCovers(rules[..i + 1][i], key.apiGroup, key.kind);
    }
  }

  /* ---------- evaluation ---------- */

  predicate ValidRequest(r: Request) {
    && !r.scope.UnknownScope?
    && r.kind != "" && KindName(r.kind) && |r.kind| <= 63
    && (r.apiGroup == "" || DnsSubdomain(r.apiGroup))
    && (r.scope.Namespaced? ==> r.namespace != "" && DnsLabel(r.namespace))
  }

  function Evaluate(s: Snapshot, r: Request): Decision {
    match s
    case Terminal(reason) => Decision(false, reason)
    case Unset => Decision(false, PolicyInvalid)
    case Ready(p) =>
      if !ValidRequest(r) then Decision(false, InvalidRequest)
      else if ResourceKey(r.apiGroup, r.kind) !in p.allowed then Decision(false, ResourceDenied)
      else if r.scope.ClusterWide? then
        if !p.allowClusterScoped then Decision(false, ClusterScopeDenied) else Decision(true, Allowed)
      else if r.namespace in p.excluded then Decision(false, NamespaceDenied)
      else
        var admitted := match p.mode
          case Explicit => r.namespace in p.included
          case All => true
          case AllNonSystem => r.namespace in p.included || r.namespace !in p.system
          case UnknownMode(_) => false;
        if !admitted then Decision(false, NamespaceDenied) else Decision(true, Allowed)
  }

  // The namespace is admitted by the declared lists.
  ghost predicate NamespaceAdmitted(p: Policy, namespace: string) {
    && namespace !in p.excludes
    && (|| p.mode.All?
        || (namespace in p.includes && (p.mode.Explicit? || p.mode.AllNonSystem?))
        || (p.mode.AllNonSystem? && namespace !in SystemNamespaces(p)))
  }

  // What the declared policy admits, read off its rule lists.
  ghost predicate Admits(p: Policy, r: Request) {
    && ValidRequest(r)
    && (exists i :: 0 <= i < |p.resources| && RuleCovers(p.resources[i], r.apiGroup, r.kind))
    && match r.scope
       case ClusterWide => p.allowClusterScoped
       case Namespaced => NamespaceAdmitted(p, r.namespace)
       case UnknownScope(_) => false
  }

  // Evaluating the compiled lookup sets decides exactly what the declared rule lists admit.
  lemma EvaluationIsAdmission(p: Policy, c: CompiledPolicy, r: Request)
    requires Compiles(p, c)
    ensures Evaluate(Ready(c), r).allowed <==> Admits(p, r)
    ensures Evaluate(Ready(c), r).allowed <==> Evaluate(Ready(c), r).reason == Allowed
  {
    var key := ResourceKey(r.apiGroup, r.kind);
    assert key in c.allowed <==> Covered(p.resources, key);
  }

  // Adding exclusions never admits anything new, whatever the mode says.
  lemma ExclusionWins(p: Policy, c: CompiledPolicy, r: Request)
    requires Compiles(p, c) && r.scope.Namespaced? && r.namespace in p.excludes
    ensures !Evaluate(Ready(c), r).allowed
  {
    assert r.namespace in c.excluded;
  }

  // Which reason a decision carries, read off the declared policy: the first of the request, the resource and the
  // scope or namespace that fails.
  lemma DecisionReasons(p: Policy, c: CompiledPolicy, r: Request)
    requires Compiles(p, c)
    ensures var d := Evaluate(Ready(c), r);
            var covered := exists i :: 0 <= i < |p.resources| && RuleCovers(p.resources[i], r.apiGroup, r.kind);
            && (d.reason == InvalidRequest <==> !ValidRequest(r))
            && (d.reason == ResourceDenied <==> ValidRequest(r) && !covered)
            && (d.reason == ClusterScopeDenied <==>
                  ValidRequest(r) && covered && r.scope.ClusterWide? && !p.allowClusterScoped)
            && (d.reason == NamespaceDenied <==>
                  ValidRequest(r) && covered && r.scope.Namespaced? && !NamespaceAdmitted(p, r.namespace))
            && (d.reason == Allowed <==> Admits(p, r))
  {
    var key := ResourceKey(r.apiGroup, r.kind);
    assert key in c.allowed <==> Covered(p.resources, key);
  }

  // Without a compiled policy the reason is the one it is missing for.
  lemma TerminalReasons(s: Snapshot, r: Request)
    requires !s.Ready?
    ensures !Evaluate(s, r).allowed
    ensures Evaluate(s, r).reason == if s.Terminal? then s.reason else PolicyInvalid
  {
  }
}
