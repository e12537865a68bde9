/** What an accepted replacement leaves of its owner: one binding per route, all under the lease's own authority. */
module RouteReplacement {
  import opened Common
  import opened AccessPolicy
  import opened Authorization
  import opened Binder
  import opened RouteTable
  import Freshness

  // The same source at the same address, read under the same authority.
  predicate Agree(a: RouteBinding, b: RouteBinding) {
    a.address == b.address && a.sourceID == b.sourceID && a.subject == b.subject
  }

  ghost predicate Given(b: RouteBinding, routes: seq<RouteBinding>) {
    exists i :: 0 <= i < |routes| && Agree(b, routes[i])
  }

  ghost predicate Bound(b: RouteBinding, bindings: map<Key, RouteBinding>, owner: NamespacedName) {
    exists k :: k in bindings && bindings[k].owner == owner && Agree(bindings[k], b)
  }

  // The binding holds a valid capability of the lease's subject, for what it reads.
  predicate UnderLease(b: RouteBinding, lease: Freshness.Lease) {
    && b.subject == SubjectOf(lease) && ValidCapability(b.capability) && b.capability.subject == SubjectOf(lease)
    && b.capability.request.sourceID == b.sourceID && b.capability.request.apiGroup == b.address.gvr.group
    && b.capability.request.scope == b.address.scope && b.capability.request.namespace == b.address.namespace
  }

  // Each of the owner's bindings is under the lease, and they agree with the routes one for one.
  ghost predicate OwnedAsGiven(bindings: map<Key, RouteBinding>, lease: Freshness.Lease, routes: seq<RouteBinding>) {
    && (forall k :: k in bindings && bindings[k].owner == lease.key ==>
         UnderLease(bindings[k], lease) && Given(bindings[k], routes))
    && (forall i :: 0 <= i < |routes| ==> Bound(routes[i], bindings, lease.key))
    && (forall k, l ::
         k in bindings && l in bindings && bindings[k].owner == lease.key && Agree(bindings[k], bindings[l]) ==>
           k == l)
    && (forall i, j :: 0 <= i < j < |routes| ==> !Agree(routes[i], routes[j]))
  }

  /* ---------- which routes are accepted ---------- */

  // For authorized bindings, having the same key is agreeing.
  lemma KeysAgree(a: RouteBinding, b: RouteBinding)
    requires AuthorizedBinding(a) && AuthorizedBinding(b)
    ensures KeyOf(a) == KeyOf(b) <==> Agree(a, b)
  {
  }

  // Routes are accepted exactly when each passes its own checks and no two agree.
  lemma {:induction false} AcceptedRoutes(lease: Freshness.Lease, routes: seq<RouteBinding>, n: nat)
    requires n <= |routes|
    ensures RoutesIssue(lease, routes, n) == None <==>
            (forall i :: 0 <= i < n ==> RouteIssue(lease, routes[i]) == None)
            && forall i, j :: 0 <= i < j < n ==> !Agree(routes[i], routes[j])
  {
    if n > 0 {
      AcceptedRoutes(lease, routes, n - 1);
      if RoutesIssue(lease, routes, n - 1) == None && RouteIssue(lease, routes[n - 1]) == None {
        LastAgrees(lease, routes, n);
      }
      hide RouteIssue, Agree;
    }
  }

  // Which reason a route is rejected for: not the lease's, without a capability for what it reads, at an invalid
  // address, or without a source, in this order.
  lemma RouteReasons(lease: Freshness.Lease, b: RouteBinding)
    ensures var leased := b.owner == lease.key && b.ownerUID == lease.uid && b.generation == lease.generation
                          && b.subject == SubjectOf(lease);
            && (RouteIssue(lease, b) == Some(LeaseMismatch) <==> !leased)
            && (RouteIssue(lease, b) == Some(CapabilityMismatch) <==> leased && !UnderLease(b, lease))
            && (RouteIssue(lease, b) == Some(BadAddress) <==>
                 leased && UnderLease(b, lease) && !ValidAddress(b.address))
            && (RouteIssue(lease, b) == Some(EmptySource) <==>
                  leased && UnderLease(b, lease) && ValidAddress(b.address) && b.sourceID == "")
            && RouteIssue(lease, b) != Some(DuplicateRoute) && RouteIssue(lease, b) != Some(StaleLease)
  {
  }

  // The routes are rejected for the reason of the first one that is rejected or repeats an earlier one.
  lemma {:induction false} RoutesReason(lease: Freshness.Lease, routes: seq<RouteBinding>, n: nat, e: RouteError)
    requires n <= |routes|
    ensures RoutesIssue(lease, routes, n) == Some(e) <==> exists i :: RejectedAt(lease, routes, n, e, i)
  {
    if n > 0 {
      RoutesReason(lease, routes, n - 1, e);
      if RoutesIssue(lease, routes, n - 1).Some? {
        RoutesReason(lease, routes, n - 1, RoutesIssue(lease, routes, n - 1).value);
      }
      RejectedLast(lease, routes, n, e);
      RejectedMore(lease, routes, n, n - 1, e);
      hide RouteIssue, RouteKeys, KeyOf, RejectedAt;
    }
  }

  lemma RejectedLast(lease: Freshness.Lease, routes: seq<RouteBinding>, n: nat, e: RouteError)
    requires 0 < n <= |routes|
    ensures RejectedAt(lease, routes, n, e, n - 1) <==>
            && RoutesIssue(lease, routes, n - 1) == None
            && if RouteIssue(lease, routes[n - 1]).Some? then RouteIssue(lease, routes[n - 1]) == Some(e)
               else e == DuplicateRoute && KeyOf(routes[n - 1]) in RouteKeys(routes[..n - 1])
  {
    AcceptedRoutes(lease, routes, n - 1);
    if RoutesIssue(lease, routes, n - 1) == None && RouteIssue(lease, routes[n - 1]) == None {
      LastAgrees(lease, routes, n);
    }
    hide RouteIssue, RouteKeys, KeyOf, Agree, RoutesIssue;
  }

  ghost predicate RejectedAt(lease: Freshness.Lease, routes: seq<RouteBinding>, n: nat, e: RouteError, i: int)
    requires n <= |routes|
  {
    && 0 <= i < n && (forall j :: 0 <= j < i ==> RouteIssue(lease, routes[j]) == None)
    && (forall j, k :: 0 <= j < k < i ==> !Agree(routes[j], routes[k]))
    && if RouteIssue(lease, routes[i]).Some? then RouteIssue(lease, routes[i]) == Some(e)
       else e == DuplicateRoute && exists j :: 0 <= j < i && Agree(routes[j], routes[i])
  }

  lemma RejectedMore(lease: Freshness.Lease, routes: seq<RouteBinding>, n: nat, m: nat, e: RouteError)
    requires n == m + 1 && n <= |routes|
    ensures (exists i :: RejectedAt(lease, routes, n, e, i)) <==>
            (exists i :: RejectedAt(lease, routes, m, e, i)) || RejectedAt(lease, routes, n, e, m)
  {
    hide RouteIssue, Agree;
    forall i ensures RejectedAt(lease, routes, n, e, i) <==>
                     RejectedAt(lease, routes, m, e, i) || (i == m && RejectedAt(lease, routes, n, e, m)) {}
    hide RejectedAt;
  }

  lemma LastAgrees(lease: Freshness.Lease, routes: seq<RouteBinding>, n: nat)
    requires 0 < n <= |routes| && forall i :: 0 <= i < n ==> RouteIssue(lease, routes[i]) == None
    ensures KeyOf(routes[n - 1]) in RouteKeys(routes[..n - 1]) <==>
            exists i :: 0 <= i < n - 1 && Agree(routes[i], routes[n - 1])
  {
    var last := routes[n - 1];
    IssueFree(lease, last);
    forall i | 0 <= i < n - 1 ensures KeyOf(routes[i]) == KeyOf(last) <==> Agree(routes[i], last) {
      IssueFree(lease, routes[i]);
      KeysAgree(routes[i], last);
    }
    hide RouteIssue, Agree, KeyOf;
    if KeyOf(last) in RouteKeys(routes[..n - 1]) {
      var b :| b in routes[..n - 1] && KeyOf(b) == KeyOf(last);
    }
    if i :| 0 <= i < n - 1 && KeyOf(routes[i]) == KeyOf(last) {
      assert routes[i] in routes[..n - 1];
    }
  }

  lemma IssueFree(lease: Freshness.Lease, b: RouteBinding)
    requires RouteIssue(lease, b) == None
    ensures AuthorizedBinding(b) && b.owner == lease.key && b.subject == SubjectOf(lease)
  {
  }

  // The accepted routes by their keys.
  ghost predicate MapsRoutes(given: map<Key, RouteBinding>, routes: seq<RouteBinding>) {
    && (forall k :: k in given ==> given[k] in routes && KeyOf(given[k]) == k)
    && (forall b :: b in routes ==> KeyOf(b) in given)
  }

  lemma {:induction false} MappedRoutes(routes: seq<RouteBinding>)
    ensures MapsRoutes(RouteMap(routes), routes)
  {
    hide KeyOf;
    if routes != [] {
      var n := |routes| - 1;
      MappedRoutes(routes[..n]);
      assert routes == routes[..n] + [routes[n]];
    }
  }

  /* ---------- the theorem ---------- */

  // After an accepted replacement the owner's bindings all have the lease's subject, policy epoch included, and agree
  // with the routes in address, source and subject, one for one.
  lemma ReplacementOwned(v: View, w: View, lease: Freshness.Lease, routes: seq<RouteBinding>, capacity: nat)
    requires KeysMatch(v) && RoutesIssue(lease, routes, |routes|) == None
    requires OwnRoutes(lease.key, RouteMap(routes)) && Replaced(v, w, lease.key, RouteMap(routes), capacity)
    ensures OwnedAsGiven(w.bindings, lease, routes)
  {
    var given := RouteMap(routes);
    ReplaceInstalls(v, w, lease.key, given, capacity);
    BindingsMatch(v, w, lease, routes, capacity);
    AcceptedRoutes(lease, routes, |routes|);
    MappedRoutes(routes);
    hide Replaced, RouteMap, RoutesIssue, KeysOfOwner, RouteIssue, OwnRoutes, KeysMatch, MapsRoutes, OwnedAsGiven;
    OwnedByKeys(w, lease, routes, given);
  }

  lemma BindingsMatch(v: View, w: View, lease: Freshness.Lease, routes: seq<RouteBinding>, capacity: nat)
    requires KeysMatch(v) && OwnRoutes(lease.key, RouteMap(routes))
    requires Replaced(v, w, lease.key, RouteMap(routes), capacity)
    ensures KeysMatch(w) && RouteMap(routes).Keys <= w.bindings.Keys
    ensures forall k :: k in w.bindings ==> (w.bindings[k].owner == lease.key <==> k in RouteMap(routes))
  {
    ReplacedBindings(v, w, lease.key, RouteMap(routes), capacity);
    hide Replaced, RouteMap, KeysMatch, OwnRoutes, KeysOfOwner;
    MergedMatch(v, w, lease.key, RouteMap(routes));
  }

  lemma MergedMatch(v: View, w: View, owner: NamespacedName, given: map<Key, RouteBinding>)
    requires KeysMatch(v) && OwnRoutes(owner, given)
    requires w.bindings == given + (v.bindings - (KeysOfOwner(v, owner) - given.Keys))
    ensures KeysMatch(w) && given.Keys <= w.bindings.Keys
    ensures forall k :: k in w.bindings ==> (w.bindings[k].owner == owner <==> k in given)
  {
    hide AuthorizedBinding;
  }

  lemma OwnedByKeys(w: View, lease: Freshness.Lease, routes: seq<RouteBinding>, given: map<Key, RouteBinding>)
    requires KeysMatch(w) && MapsRoutes(given, routes) && given.Keys <= w.bindings.Keys
    requires forall k :: k in w.bindings ==> (w.bindings[k].owner == lease.key <==> k in given)
    requires forall i :: 0 <= i < |routes| ==> RouteIssue(lease, routes[i]) == None
    requires forall i, j :: 0 <= i < j < |routes| ==> !Agree(routes[i], routes[j])
    ensures OwnedAsGiven(w.bindings, lease, routes)
  {
    hide KeyOf, AuthorizedBinding, RouteIssue, Agree, UnderLease;
    forall k | k in w.bindings && w.bindings[k].owner == lease.key
      ensures UnderLease(w.bindings[k], lease) && Given(w.bindings[k], routes)
    {
      assert KeyOf(given[k]) == k;
      SameKeyAgrees(w, lease, given[k]);
      var i :| 0 <= i < |routes| && routes[i] == given[k];
    }
    forall i | 0 <= i < |routes| ensures Bound(routes[i], w.bindings, lease.key) {
      assert routes[i] in routes;
      SameKeyAgrees(w, lease, routes[i]);
      assert KeyOf(routes[i]) in w.bindings;
    }
    forall k, l | k in w.bindings && l in w.bindings && Agree(w.bindings[k], w.bindings[l]) ensures k == l {
      KeysAgree(w.bindings[k], w.bindings[l]);
    }
  }

  // What is bound under a route's key agrees with the route.
  lemma SameKeyAgrees(w: View, lease: Freshness.Lease, b: RouteBinding)
    requires KeysMatch(w) && RouteIssue(lease, b) == None && KeyOf(b) in w.bindings
    ensures Agree(w.bindings[KeyOf(b)], b) && UnderLease(w.bindings[KeyOf(b)], lease)
  {
    IssueFree(lease, b);
    KeysAgree(w.bindings[KeyOf(b)], b);
  }

  /* ---------- what is stopped ---------- */

  // The supervisor is registered for its address.
  predicate Registered(v: View, s: Supervisor) { s.address in v.watches && v.watches[s.address] == s }

  // Growing after a removal: of the supervisors registered before, exactly those that are to be stopped are no longer
  // registered.
  lemma GrownStops(v: View, m: View, w: View, keys: set<Key>, capacity: nat, s: Supervisor)
    requires SupervisorsDistinct(v) && m.watches == Unbind(v, keys).watches && m.minted == v.minted
    requires Grown(m, w, capacity)
    ensures s in Stopped(v, keys) <==> Registered(v, s) && !Registered(w, s)
  {
    hide Gone, AddressLess, Addresses;
    if Registered(v, s) && s.address in w.watches && s.address !in m.watches {
      assert NewSupervisor(m, w, s.address);
    }
    if s in Stopped(v, keys) {
      var a :| a in Gone(v, keys) && a in v.watches && v.watches[a] == s;
      assert a == s.address;
    }
  }

  // A replacement stops exactly the supervisors that it takes out of the registry.
  lemma ReplacementStops(v: View, w: View, owner: NamespacedName, routes: map<Key, RouteBinding>, capacity: nat,
                         s: Supervisor)
    requires SupervisorsDistinct(v) && Replaced(v, w, owner, routes, capacity)
    ensures s in Stopped(v, KeysOfOwner(v, owner) - routes.Keys) <==> Registered(v, s) && !Registered(w, s)
  {
    hide Grown, Gone, KeysOfOwner, Stopped, SupervisorsDistinct;
    GrownStops(v, Rebound(v, owner, routes), w, KeysOfOwner(v, owner) - routes.Keys, capacity, s);
  }

  // So does a removal.
  lemma RemovalStops(v: View, w: View, keys: set<Key>, capacity: nat, s: Supervisor)
    requires SupervisorsDistinct(v) && Ensured(Unbind(v, keys), w, capacity)
    ensures s in Stopped(v, keys) <==> Registered(v, s) && !Registered(w, s)
  {
    hide Grown, Gone, Stopped, SupervisorsDistinct;
    GrownStops(v, Unbind(v, keys), w, keys, capacity, s);
  }
}
