/** The route registry's critical sections as relations between its contents, and what every run of them keeps. */
module RouteTable {
  import opened Common
  import opened AccessPolicy
  import opened Authorization
  import opened Binder
  import opened Sorting
  import Freshness

  datatype Address = Address(gvr: ResourceName, scope: Scope, namespace: string)

  datatype RouteBinding = RouteBinding(
    address: Address, sourceID: string, owner: NamespacedName, ownerUID: string, generation: int,
    subject: Subject, capability: Capability)

  datatype Key = Key(
    address: Address, sourceID: string, owner: NamespacedName, ownerUID: string, generation: int, policyEpoch: nat)

  function KeyOf(b: RouteBinding): Key {
    Key(b.address, b.sourceID, b.owner, b.ownerUID, b.generation, b.subject.policyEpoch)
  }

  // A registered watch supervisor; `id` tells instances apart.
  datatype Supervisor = Supervisor(id: nat, address: Address, recoveryPending: bool)

  datatype View = View(
    bindings: map<Key, RouteBinding>, watches: map<Address, Supervisor>, deferred: set<Address>, started: bool,
    minted: nat)

  /* ---------- addresses ---------- */

  predicate ValidAddress(a: Address) {
    && a.gvr.version != "" && a.gvr.resource != "" && !a.scope.UnknownScope?
    && if a.scope.ClusterWide? then a.namespace == "" else DnsLabel(a.namespace)
  }

  function AddressKey(a: Address): SortKey {
    var scope := match a.scope case Namespaced => "0" case ClusterWide => "1" case UnknownScope(_) => "2";
    SortKey([a.gvr.group, a.gvr.version, a.gvr.resource, scope, a.namespace],
            if a.scope.UnknownScope? then a.scope.code else 0)
  }

  predicate AddressLess(a: Address, b: Address) { KeyLess(AddressKey(a), AddressKey(b)) }

  // By group, version, resource, namespaced before cluster-wide, and namespace.
  predicate AddressPrecedes(a: Address, b: Address) {
    if a.gvr.group != b.gvr.group then StringLess(a.gvr.group, b.gvr.group)
    else if a.gvr.version != b.gvr.version then StringLess(a.gvr.version, b.gvr.version)
    else if a.gvr.resource != b.gvr.resource then StringLess(a.gvr.resource, b.gvr.resource)
    else if a.scope != b.scope then a.scope.Namespaced?
    else StringLess(a.namespace, b.namespace)
  }

  lemma AddressesCompare(a: Address, b: Address)
    requires ValidAddress(a) && ValidAddress(b)
    ensures AddressLess(a, b) <==> AddressPrecedes(a, b)
  {
    var x, y := AddressKey(a).parts, AddressKey(b).parts;
    FivePartsLess(x, y);
    StringLessTotal(a.namespace, b.namespace);
    assert "0"[0] != "1"[0] && StringLess("0", "1") && !StringLess("1", "0");
    hide PartsLess, StringLess;
  }

  function Addresses(bindings: map<Key, RouteBinding>): set<Address> {
    set k | k in bindings :: k.address
  }

  /* ---------- what a route must satisfy ---------- */

  datatype RouteError = StaleLease | LeaseMismatch | CapabilityMismatch | BadAddress | EmptySource | DuplicateRoute

  function SubjectOf(lease: Freshness.Lease): Subject {
    Subject(lease.key, lease.uid, lease.generation, lease.policyEpoch)
  }

  predicate Covers(c: Capability, b: RouteBinding) {
    && ValidCapability(c) && c.subject == b.subject && c.request.sourceID == b.sourceID
    && c.request.scope == b.address.scope && c.request.namespace == b.address.namespace
    && c.request.apiGroup == b.address.gvr.group
  }

  function RouteIssue(lease: Freshness.Lease, b: RouteBinding): Option<RouteError> {
    if b.owner != lease.key || b.ownerUID != lease.uid || b.generation != lease.generation
        || b.subject != SubjectOf(lease)
    then Some(LeaseMismatch)
    else if !Covers(b.capability, b) then Some(CapabilityMismatch)
    else if !ValidAddress(b.address) then Some(BadAddress)
    else if b.sourceID == "" then Some(EmptySource)
    else None
  }

  predicate AuthorizedBinding(b: RouteBinding) {
    && Covers(b.capability, b) && ValidAddress(b.address) && b.sourceID != ""
    && b.owner == b.subject.key && b.ownerUID == b.subject.uid && b.generation == b.subject.generation
  }

  function NewRoute(target: ReadTarget, c: Capability): Option<RouteBinding> {
    var address := Address(target.gvr, target.scope, target.namespace);
    if !ValidSubject(c.subject) || target.sourceID == "" || !ValidCapability(c)
       || c.request != RequestForTarget(target) || !ValidAddress(address)
    then None
    else Some(RouteBinding(address, target.sourceID, c.subject.key, c.subject.uid, c.subject.generation, c.subject, c))
  }

  // A constructed route passes every check of a lease for its own subject, and of no other lease.
  lemma NewRouteAccepted(target: ReadTarget, c: Capability, lease: Freshness.Lease)
    requires NewRoute(target, c).Some?
    ensures RouteIssue(lease, NewRoute(target, c).value) == if SubjectOf(lease) == c.subject then None
        else Some(LeaseMismatch)
  {
  }

  // The first route the replacement rejects, reading in order.
  function RoutesIssue(lease: Freshness.Lease, routes: seq<RouteBinding>, n: nat): Option<RouteError>
    requires n <= |routes|
  {
    if n == 0 then None
    else match RoutesIssue(lease, routes, n - 1)
      case Some(e) => Some(e)
      case None =>
        if RouteIssue(lease, routes[n - 1]).Some? then RouteIssue(lease, routes[n - 1])
        else if KeyOf(routes[n - 1]) in RouteKeys(routes[..n - 1]) then Some(DuplicateRoute)
        else None
  }

  function RouteKeys(routes: seq<RouteBinding>): set<Key> { set b | b in routes :: KeyOf(b) }

  function RouteMap(routes: seq<RouteBinding>): map<Key, RouteBinding> {
    if routes == [] then map[]
    else RouteMap(routes[..|routes| - 1])[KeyOf(routes[|routes| - 1]) := routes[|routes| - 1]]
  }

  /* ---------- removal ---------- */

  // The addresses that lose their last binding with these keys.
  function Gone(v: View, keys: set<Key>): set<Address> {
    Addresses(v.bindings) - Addresses(v.bindings - keys)
  }

  function Unbind(v: View, keys: set<Key>): View {
    var gone := Gone(v, keys);
    View(v.bindings - keys, v.watches - gone, v.deferred - gone, v.started, v.minted)
  }

  // The supervisors whose transports must be stopped.
  function Stopped(v: View, keys: set<Key>): set<Supervisor> {
    set a | a in Gone(v, keys) && a in v.watches :: v.watches[a]
  }

  lemma UnbindTwice(v: View, a: set<Key>, b: set<Key>)
    ensures Unbind(Unbind(v, a), b) == Unbind(v, a + b)
    ensures Stopped(v, a + b) == Stopped(v, a) + Stopped(Unbind(v, a), b)
  {
    var u := Unbind(v, a);
    assert u.bindings - b == v.bindings - (a + b);
    assert Gone(v, a + b) == Gone(v, a) + Gone(u, b) by { GoneTwice(v, a, b); }
    assert u.watches - Gone(u, b) == v.watches - Gone(v, a + b);
    assert u.deferred - Gone(u, b) == v.deferred - Gone(v, a + b);
    StoppedTwice(v, a, b);
  }

  lemma GoneTwice(v: View, a: set<Key>, b: set<Key>)
    ensures Gone(v, a + b) == Gone(v, a) + Gone(Unbind(v, a), b)
  {
    var m := v.bindings - a;
    assert m - b == v.bindings - (a + b);
    forall k | k in m - b ensures k.address in Addresses(m) { assert k in m; }
    forall k | k in m ensures k.address in Addresses(v.bindings) { assert k in v.bindings; }
  }

  lemma StoppedTwice(v: View, a: set<Key>, b: set<Key>)
    ensures Stopped(v, a + b) == Stopped(v, a) + Stopped(Unbind(v, a), b)
  {
    hide Gone;
    GoneTwice(v, a, b);
    var u := Unbind(v, a);
    forall x | x in Gone(u, b) && x in u.watches ensures x in v.watches && v.watches[x] == u.watches[x] {}
    forall x | x in Gone(v, a + b) && x in v.watches
      ensures v.watches[x] in Stopped(v, a) + Stopped(u, b)
    {
      if x !in Gone(v, a) { assert x in u.watches && x in Gone(u, b); }
    }
  }

  /* ---------- watch capacity ---------- */

  // The bound addresses that get a supervisor are the least of those that have none; each starts with the
  // recovery flag of its deferral.
  ghost predicate Grown(v: View, w: View, capacity: nat) {
    && w.bindings == v.bindings && w.started == v.started && v.minted <= w.minted
    && (forall a :: a in v.watches ==> a in w.watches && w.watches[a] == v.watches[a])
    && (forall a :: a in w.watches && a !in v.watches ==> a in Addresses(v.bindings))
    && |w.watches| <= Max(capacity, |v.watches|)
    && (|w.watches| < capacity ==> Addresses(v.bindings) <= w.watches.Keys)
    && (forall a, b :: a in w.watches && a !in v.watches && b in Addresses(v.bindings) && b !in w.watches ==>
         AddressLess(a, b))
    && (forall a :: a in w.watches && a !in v.watches ==> NewSupervisor(v, w, a))
    && (forall a, b :: a in w.watches && b in w.watches && a !in v.watches && b !in v.watches ==>
         w.watches[a].id == w.watches[b].id ==> a == b)
  }

  predicate NewSupervisor(v: View, w: View, a: Address)
    requires a in w.watches
  {
    v.minted <= w.watches[a].id < w.minted && w.watches[a].address == a
        && w.watches[a].recoveryPending == (a in v.deferred)
  }

  function Max(a: nat, b: nat): nat { if a < b then b else a }

  function Undeferred(v: View, w: View): set<Address> { v.deferred - (w.watches.Keys - v.watches.Keys) }

  ghost predicate Ensured(v: View, w: View, capacity: nat) {
    Grown(v, w, capacity) && w.deferred == Undeferred(v, w)
  }

  function Unwatched(v: View): set<Address> { Addresses(v.bindings) - v.watches.Keys }

  function Before(v: View, a: Address): set<Address> { set b | b in Unwatched(v) && AddressLess(b, a) }

  // The least unwatched bound addresses, as many as there is room for.
  function Picked(v: View, capacity: nat): set<Address> {
    set a | a in Unwatched(v) && |Before(v, a)| < capacity - |v.watches|
  }

  function Newly(v: View, w: View): set<Address> { w.watches.Keys - v.watches.Keys }

  // Growth adds exactly the picked addresses.
  lemma GrownPicks(v: View, w: View, capacity: nat)
    requires Grown(v, w, capacity) && |v.watches| <= capacity
    ensures w.watches.Keys == v.watches.Keys + Picked(v, capacity)
  {
    AddedRoom(v, w, capacity);
    hide Newly, Picked;
    forall a ensures a in Newly(v, w) <==> a in Picked(v, capacity) { NewlyPicked(v, w, capacity, a); }
    hide Grown;
    assert Newly(v, w) == Picked(v, capacity);
  }

  lemma NewlyPicked(v: View, w: View, capacity: nat, a: Address)
    requires Grown(v, w, capacity) && |v.watches| <= capacity
    ensures a in Newly(v, w) <==> a in Picked(v, capacity)
  {
    AddedRoom(v, w, capacity);
    hide Grown, Newly, Unwatched, Before;
    if a in Unwatched(v) { AddedAt(v, w, capacity, a); }
  }

  lemma AddedRoom(v: View, w: View, capacity: nat)
    requires Grown(v, w, capacity) && |v.watches| <= capacity
    ensures w.watches.Keys == v.watches.Keys + Newly(v, w) && Newly(v, w) <= Unwatched(v)
    ensures |Newly(v, w)| <= capacity - |v.watches|
    ensures |Newly(v, w)| < capacity - |v.watches| ==> Unwatched(v) <= Newly(v, w)
  {
    hide AddressLess, NewSupervisor, Addresses;
    var added := Newly(v, w);
    assert w.watches.Keys == v.watches.Keys + added;
    assert |w.watches| == |w.watches.Keys| && |v.watches| == |v.watches.Keys|;
  }

  lemma AddedAt(v: View, w: View, capacity: nat, a: Address)
    requires Grown(v, w, capacity) && |v.watches| <= capacity && a in Unwatched(v)
    ensures a in Newly(v, w) <==> |Before(v, a)| < capacity - |v.watches|
  {
    AddedRoom(v, w, capacity);
    var added, before := Newly(v, w), Before(v, a);
    AddedFirst(v, w, capacity, a);
    if a in added {
      SubsetSize(before, added - {a});
    } else {
      SubsetSize(added, before);
    }
  }

  lemma AddedFirst(v: View, w: View, capacity: nat, a: Address)
    requires Grown(v, w, capacity) && a in Unwatched(v)
    ensures if a in Newly(v, w) then Before(v, a) <= Newly(v, w) - {a} else Newly(v, w) <= Before(v, a)
  {
    hide AddressLess, NewSupervisor, Addresses;
    forall b | b in Before(v, a) && a in Newly(v, w) ensures b in Newly(v, w) - {a} { AddressOrder(a, b); }
  }

  lemma AddressOrder(a: Address, b: Address)
    ensures !(AddressLess(a, b) && AddressLess(b, a)) && !AddressLess(a, a)
  {
    KeyOrder(AddressKey(a), AddressKey(b), AddressKey(a));
  }

  /* ---------- operations ---------- */

  function KeysOfOwner(v: View, owner: NamespacedName): set<Key> { set k | k in v.bindings && k.owner == owner }

  function KeysAt(v: View, address: Address): set<Key> { set k | k in v.bindings && k.address == address }

  // Bindings that are kept keep their earlier value.
  function Rebound(v: View, owner: NamespacedName, routes: map<Key, RouteBinding>): View {
    var u := Unbind(v, KeysOfOwner(v, owner) - routes.Keys);
    u.(bindings := routes + u.bindings)
  }

  function DeferredBy(w: View, routes: map<Key, RouteBinding>): set<Address> {
    if w.started then Addresses(routes) - w.watches.Keys else {}
  }

  ghost predicate Replaced(v: View, w: View, owner: NamespacedName, routes: map<Key, RouteBinding>, capacity: nat) {
    var m := Rebound(v, owner, routes);
    Grown(m, w, capacity) && w.deferred == Undeferred(m, w) + DeferredBy(w, routes)
  }

  datatype Op =
    | Replace(owner: NamespacedName, routes: map<Key, RouteBinding>)
    | Remove(keys: set<Key>)
    | RemoveEverything
    | Begin

  ghost predicate Next(v: View, w: View, op: Op, capacity: nat) {
    match op
    case Replace(owner, routes) => OwnRoutes(owner, routes) && Replaced(v, w, owner, routes, capacity)
    case Remove(keys) => Ensured(Unbind(v, keys), w, capacity)
    case RemoveEverything => w == v.(bindings := map[], watches := map[])
    case Begin => w == v.(started := true)
  }

  // Accepted routes are keyed by themselves, belong to the lease's owner and carry their own authority.
  ghost predicate OwnRoutes(owner: NamespacedName, routes: map<Key, RouteBinding>) {
    forall k :: k in routes ==> KeyOf(routes[k]) == k && k.owner == owner && AuthorizedBinding(routes[k])
  }

  /* ---------- the invariant ---------- */

  ghost predicate KeysMatch(v: View) {
    forall k :: k in v.bindings ==> KeyOf(v.bindings[k]) == k && AuthorizedBinding(v.bindings[k])
  }

  // Exactly as many watches as capacity allows, each for a bound address, and no watched address is deferred.
  ghost predicate WatchesExact(v: View, capacity: nat) {
    && v.watches.Keys <= Addresses(v.bindings)
    && |v.watches| == (if |Addresses(v.bindings)| < capacity then |Addresses(v.bindings)| else capacity)
    && v.deferred !! v.watches.Keys
  }

  ghost predicate SupervisorsDistinct(v: View) {
    && (forall a :: a in v.watches ==> v.watches[a].address == a && v.watches[a].id < v.minted)
    && (forall a, b :: a in v.watches && b in v.watches && v.watches[a].id == v.watches[b].id ==> a == b)
  }

  ghost predicate Invariant(v: View, capacity: nat) {
    KeysMatch(v) && WatchesExact(v, capacity) && SupervisorsDistinct(v)
  }

  lemma UnbindBindings(v: View, keys: set<Key>)
    requires KeysMatch(v)
    ensures KeysMatch(Unbind(v, keys))
  {
    hide AuthorizedBinding, Gone;
  }

  lemma UnbindWatches(v: View, keys: set<Key>)
    requires v.deferred !! v.watches.Keys && v.watches.Keys <= Addresses(v.bindings)
    ensures var u := Unbind(v, keys);
            u.deferred !! u.watches.Keys && u.watches.Keys <= Addresses(u.bindings) && |u.watches| <= |v.watches|
  {
    hide Addresses;
    var gone := Gone(v, keys);
    var u := Unbind(v, keys);
    MapMinus(v.watches, gone);
    FewerWatches(v.watches.Keys, gone, Addresses(v.bindings), Addresses(u.bindings));
  }

  lemma UnbindSupervisors(v: View, keys: set<Key>)
    requires SupervisorsDistinct(v)
    ensures SupervisorsDistinct(Unbind(v, keys))
  {
    hide Gone;
    var u := Unbind(v, keys);
    forall a | a in u.watches ensures a in v.watches && u.watches[a] == v.watches[a] {}
  }

  lemma FewerWatches(watched: set<Address>, gone: set<Address>, before: set<Address>, after: set<Address>)
    requires watched <= before && gone == before - after
    ensures watched - gone <= after
  {
  }

  lemma MapMinus<K, V>(m: map<K, V>, s: set<K>)
    ensures (m - s).Keys == m.Keys - s
    ensures |m - s| <= |m|
  {
    assert |m - s| == |(m - s).Keys| && |m| == |m.Keys|;
    SubsetSize((m - s).Keys, m.Keys);
  }

  lemma ExactSize<T>(a: set<T>, b: set<T>, capacity: nat)
    requires a <= b && |a| <= capacity && (|a| < capacity ==> b <= a)
    ensures |a| == if |b| < capacity then |b| else capacity
  {
    SubsetSize(a, b);
    if |a| < capacity { assert a == b; }
  }

  // Growth fills the watches exactly, whatever it starts from.
  lemma GrownExact(v: View, w: View, capacity: nat)
    requires Grown(v, w, capacity) && v.watches.Keys <= Addresses(v.bindings) && |v.watches| <= capacity
    ensures w.watches.Keys <= Addresses(w.bindings)
    ensures |w.watches| == if |Addresses(w.bindings)| < capacity then |Addresses(w.bindings)| else capacity
  {
    hide AddressLess, NewSupervisor, Addresses;
    GrownWithin(v, w, capacity);
    assert |w.watches| == |w.watches.Keys|;
    ExactSize(w.watches.Keys, Addresses(w.bindings), capacity);
  }

  lemma GrownWithin(v: View, w: View, capacity: nat)
    requires Grown(v, w, capacity) && v.watches.Keys <= Addresses(v.bindings)
    ensures w.watches.Keys <= Addresses(w.bindings)
  {
    hide AddressLess, NewSupervisor, Addresses;
  }

  lemma GrownDistinct(v: View, w: View, capacity: nat)
    requires Grown(v, w, capacity) && SupervisorsDistinct(v)
    ensures SupervisorsDistinct(w)
  {
    forall a | a in w.watches
      ensures w.watches[a].address == a && w.watches[a].id < w.minted
    {
      GrownAt(v, w, capacity, a);
    }
    forall a, b | a in w.watches && b in w.watches && w.watches[a].id == w.watches[b].id ensures a == b {
      hide NewSupervisor, SupervisorsDistinct;
      GrownAt(v, w, capacity, a);
      GrownAt(v, w, capacity, b);
      GrownApart(v, w, capacity, a, b);
    }
  }

  // An earlier supervisor keeps a number below the new ones.
  lemma GrownAt(v: View, w: View, capacity: nat, a: Address)
    requires Grown(v, w, capacity) && SupervisorsDistinct(v) && a in w.watches
    ensures w.watches[a].address == a && w.watches[a].id < w.minted
    ensures a in v.watches <==> w.watches[a].id < v.minted
  {
    hide AddressLess, Addresses;
  }

  lemma GrownApart(v: View, w: View, capacity: nat, a: Address, b: Address)
    requires Grown(v, w, capacity) && SupervisorsDistinct(v) && a in w.watches && b in w.watches
    requires w.watches[a].id == w.watches[b].id && (a in v.watches <==> b in v.watches)
    ensures a == b
  {
    hide AddressLess, Addresses;
  }

  lemma EnsureKeeps(v: View, w: View, capacity: nat)
    requires KeysMatch(v) && SupervisorsDistinct(v) && v.deferred !! v.watches.Keys
    requires v.watches.Keys <= Addresses(v.bindings) && |v.watches| <= capacity
    requires Ensured(v, w, capacity)
    ensures Invariant(w, capacity)
  {
    hide AuthorizedBinding, AddressLess, NewSupervisor, Addresses;
    GrownExact(v, w, capacity);
    GrownDistinct(v, w, capacity);
  }

  lemma ReboundKeeps(v: View, owner: NamespacedName, routes: map<Key, RouteBinding>, capacity: nat)
    requires Invariant(v, capacity) && OwnRoutes(owner, routes)
    ensures var m := Rebound(v, owner, routes);
            && KeysMatch(m) && SupervisorsDistinct(m) && m.deferred !! m.watches.Keys
            && m.watches.Keys <= Addresses(m.bindings) && |m.watches| <= capacity
  {
    hide AuthorizedBinding, Addresses, Unbind, KeysMatch, OwnRoutes, SupervisorsDistinct;
    var keys := KeysOfOwner(v, owner) - routes.Keys;
    var u := Unbind(v, keys);
    UnbindBindings(v, keys);
    UnbindWatches(v, keys);
    UnbindSupervisors(v, keys);
    var m := Rebound(v, owner, routes);
    AddressesGrow(u.bindings, m.bindings);
    MergeMatches(u, m, owner, routes);
    SameSupervisors(u, m);
  }

  lemma SameSupervisors(u: View, m: View)
    requires SupervisorsDistinct(u) && m.watches == u.watches && m.minted == u.minted
    ensures SupervisorsDistinct(m)
  {
  }

  lemma ReplaceKeeps(v: View, w: View, owner: NamespacedName, routes: map<Key, RouteBinding>, capacity: nat)
    requires Invariant(v, capacity) && OwnRoutes(owner, routes) && Replaced(v, w, owner, routes, capacity)
    ensures Invariant(w, capacity)
  {
    hide Grown, Addresses, Rebound, KeysMatch, OwnRoutes, SupervisorsDistinct, WatchesExact;
    ReboundKeeps(v, owner, routes, capacity);
    var m := Rebound(v, owner, routes);
    RegrownSame(m, w, capacity);
    var x := w.(deferred := Undeferred(m, w));
    EnsureKeeps(m, x, capacity);
    MoreDeferred(x, w, DeferredBy(w, routes), capacity);
    SameSupervisors(x, w);
    assert KeysMatch(w) by { SameBindings(x, w); }
  }

  lemma SameBindings(x: View, w: View)
    requires KeysMatch(x) && w.bindings == x.bindings
    ensures KeysMatch(w)
  {
  }

  lemma MoreDeferred(x: View, w: View, more: set<Address>, capacity: nat)
    requires WatchesExact(x, capacity) && w == x.(deferred := x.deferred + more) && more !! w.watches.Keys
    ensures WatchesExact(w, capacity)
  {
    hide Addresses;
  }

  lemma AddressesGrow(a: map<Key, RouteBinding>, b: map<Key, RouteBinding>)
    requires a.Keys <= b.Keys
    ensures Addresses(a) <= Addresses(b)
  {
    forall k | k in a ensures k.address in Addresses(b) { assert k in b.Keys; }
  }

  lemma MergeMatches(u: View, m: View, owner: NamespacedName, routes: map<Key, RouteBinding>)
    requires KeysMatch(u) && OwnRoutes(owner, routes) && m.bindings == routes + u.bindings
    ensures KeysMatch(m)
  {
    hide AuthorizedBinding;
  }

  lemma GrownIgnoresDeferred(m: View, e: View, w: View, capacity: nat)
    requires Grown(m, e, capacity) && w == e.(deferred := w.deferred)
    ensures Grown(m, w, capacity)
  {
    hide AddressLess, Addresses;
    assert forall a :: a in w.watches && a !in m.watches ==> NewSupervisor(m, e, a);
  }

  lemma RegrownSame(m: View, w: View, capacity: nat)
    requires Grown(m, w, capacity)
    ensures Ensured(m, w.(deferred := Undeferred(m, w)), capacity)
  {
    hide Grown;
    GrownIgnoresDeferred(m, w, w.(deferred := Undeferred(m, w)), capacity);
  }

  lemma NextKeeps(v: View, w: View, op: Op, capacity: nat)
    requires Invariant(v, capacity) && Next(v, w, op, capacity)
    ensures Invariant(w, capacity)
  {
    hide AuthorizedBinding, AddressLess, NewSupervisor, Grown, Replaced, OwnRoutes, Unbind, Addresses;
    match op
    case Replace(owner, routes) => ReplaceKeeps(v, w, owner, routes, capacity);
    case Remove(keys) =>
      UnbindBindings(v, keys);
      UnbindWatches(v, keys);
      UnbindSupervisors(v, keys);
      EnsureKeeps(Unbind(v, keys), w, capacity);
    case RemoveEverything =>
      assert Addresses(w.bindings) == {} by { NoAddresses(); }
    case Begin =>
  }

  lemma NoAddresses()
    ensures Addresses(map[]) == {}
  {
  }

  /* ---------- runs ---------- */

  ghost predicate Run(vs: seq<View>, ops: seq<Op>, capacity: nat) {
    && |vs| == |ops| + 1 && vs[0] == View(map[], map[], {}, false, 0)
    && forall i :: 0 <= i < |ops| ==> Next(vs[i], vs[i + 1], ops[i], capacity)
  }

  // At every lock release of every run.
  lemma {:induction false} EveryRunKeeps(vs: seq<View>, ops: seq<Op>, capacity: nat, n: nat)
    requires Run(vs, ops, capacity) && n < |vs|
    ensures Invariant(vs[n], capacity)
  {
    hide Next;
    if n == 0 {
      NoAddresses();
    } else {
      EveryRunKeeps(vs, ops, capacity, n - 1);
      NextKeeps(vs[n - 1], vs[n], ops[n - 1], capacity);
    }
  }

  // A replacement leaves its owner with exactly the new keys, and every other owner's bindings as they were.
  lemma ReplaceInstalls(v: View, w: View, owner: NamespacedName, routes: map<Key, RouteBinding>, capacity: nat)
    requires OwnRoutes(owner, routes) && Replaced(v, w, owner, routes, capacity)
    ensures KeysOfOwner(w, owner) == routes.Keys
    ensures forall k :: k in routes ==> w.bindings[k] == if k in v.bindings then v.bindings[k] else routes[k]
    ensures forall k: Key :: k.owner != owner ==> (k in w.bindings <==> k in v.bindings)
    ensures forall k: Key :: k.owner != owner && k in v.bindings ==> w.bindings[k] == v.bindings[k]
  {
    hide OwnRoutes, Replaced;
    ReplacedBindings(v, w, owner, routes, capacity);
    assert forall k :: k in routes ==> k.owner == owner by { OwnersMatch(owner, routes); }
  }

  lemma OwnersMatch(owner: NamespacedName, routes: map<Key, RouteBinding>)
    requires OwnRoutes(owner, routes)
    ensures forall k :: k in routes ==> k.owner == owner
  {
  }

  lemma ReplacedBindings(v: View, w: View, owner: NamespacedName, routes: map<Key, RouteBinding>, capacity: nat)
    requires Replaced(v, w, owner, routes, capacity)
    ensures w.bindings == routes + (v.bindings - (KeysOfOwner(v, owner) - routes.Keys))
  {
    hide AddressLess, NewSupervisor, Addresses, Gone, KeysOfOwner;
  }

  /* ---------- recovery ---------- */

  // A recovery is pending: the address is deferred, or its supervisor starts with the recovery flag.
  ghost predicate Remembers(w: View, a: Address) {
    a in w.deferred || (a in w.watches && w.watches[a].recoveryPending)
  }

  // The bindings that a step removes one by one; dropping everything leaves the deferrals alone.
  function TakenAway(v: View, op: Op): set<Key> {
    match op
    case Replace(owner, routes) => KeysOfOwner(v, owner) - routes.Keys
    case Remove(keys) => keys
    case RemoveEverything => {}
    case Begin => {}
  }

  // Dropping everything keeps the deferrals alone. Any other step does not take the address's last binding away, or
  // it binds the address anew on a started registry without room to watch it.
  ghost predicate KeepsRecovery(v: View, op: Op, capacity: nat, a: Address) {
    if op.RemoveEverything? then a in v.deferred
    else
      a !in Gone(v, TakenAway(v, op))
      || (op.Replace? && v.started && a in Addresses(op.routes)
          && a !in Picked(Rebound(v, op.owner, op.routes), capacity))
  }

  // A pending recovery survives a step exactly when the state before it says so.
  lemma RecoveryRemembered(v: View, w: View, op: Op, capacity: nat, a: Address)
    requires Invariant(v, capacity) && Next(v, w, op, capacity) && Remembers(v, a)
    ensures Remembers(w, a) <==> KeepsRecovery(v, op, capacity, a)
  {
    match op
    case Replace(owner, routes) =>
      hide *;
      RecoveryAfterReplace(v, w, owner, routes, capacity, a);
    case Remove(keys) =>
      hide KeysMatch, SupervisorsDistinct, Ensured, Gone, Unbind, Remembers;
      RecoveryThroughRemove(v, w, keys, capacity, a);
    case RemoveEverything =>
    case Begin => NothingGone(v);
  }

  lemma RecoveryAfterReplace(v: View, w: View, owner: NamespacedName, routes: map<Key, RouteBinding>, capacity: nat,
      a: Address)
    requires Invariant(v, capacity) && Next(v, w, Replace(owner, routes), capacity) && Remembers(v, a)
    ensures Remembers(w, a) <==> KeepsRecovery(v, Replace(owner, routes), capacity, a)
  {
    hide KeysMatch, SupervisorsDistinct, OwnRoutes, Replaced, KeepsRecovery, Remembers;
    RecoveryThroughReplace(v, w, owner, routes, capacity, a);
  }

  lemma NothingGone(v: View)
    ensures Gone(v, {}) == {}
  {
    assert v.bindings - {} == v.bindings;
  }

  lemma RecoveryThroughRemove(v: View, w: View, keys: set<Key>, capacity: nat, a: Address)
    requires WatchesExact(v, capacity) && Remembers(v, a) && Ensured(Unbind(v, keys), w, capacity)
    ensures Remembers(w, a) <==> a !in Gone(v, keys)
  {
    hide Addresses, Gone, Unbind, Grown, WatchesExact, Undeferred, Remembers;
    var u := Unbind(v, keys);
    UnboundRecovery(v, keys, a);
    assert w.deferred == Undeferred(u, w) + {};
    RecoveryThroughGrowth(u, w, {}, capacity, a);
  }

  lemma RecoveryThroughReplace(v: View, w: View, owner: NamespacedName, routes: map<Key, RouteBinding>, capacity: nat,
      a: Address)
    requires WatchesExact(v, capacity) && Remembers(v, a) && Replaced(v, w, owner, routes, capacity)
    ensures Remembers(w, a) <==> KeepsRecovery(v, Replace(owner, routes), capacity, a)
  {
    hide Addresses, Gone, Picked, Unbind, Grown, KeysOfOwner, WatchesExact, Undeferred, Remembers, Rebound;
    var m := Rebound(v, owner, routes);
    ReboundRecovery(v, owner, routes, capacity, a);
    RecoveryThroughGrowth(m, w, DeferredBy(w, routes), capacity, a);
    StartedKept(m, w, capacity);
    GrownPicks(m, w, capacity);
  }

  lemma ReboundRecovery(v: View, owner: NamespacedName, routes: map<Key, RouteBinding>, capacity: nat, a: Address)
    requires WatchesExact(v, capacity) && Remembers(v, a)
    ensures var m, gone := Rebound(v, owner, routes), Gone(v, KeysOfOwner(v, owner) - routes.Keys);
            && (Remembers(m, a) <==> a !in gone) && (a in gone ==> a !in m.watches)
            && m.started == v.started && |m.watches| <= capacity
  {
    var keys := KeysOfOwner(v, owner) - routes.Keys;
    UnbindWatches(v, keys);
    UnboundRecovery(v, keys, a);
    hide Addresses, Gone, Unbind, KeysOfOwner, Remembers;
    SameRecovery(Unbind(v, keys), Rebound(v, owner, routes), a);
  }

  lemma SameRecovery(u: View, m: View, a: Address)
    requires m == u.(bindings := m.bindings)
    ensures Remembers(m, a) <==> Remembers(u, a)
  {
  }

  // Growth passes every pending recovery on, and an unwatched address gains one only by a new deferral.
  lemma RecoveryThroughGrowth(m: View, w: View, more: set<Address>, capacity: nat, a: Address)
    requires Grown(m, w, capacity) && w.deferred == Undeferred(m, w) + more
    requires Remembers(m, a) || a !in m.watches
    ensures Remembers(w, a) <==> Remembers(m, a) || a in more
  {
    hide Grown;
    if a in m.watches {
      KeptSupervisor(m, w, capacity, a);
    } else if a in w.watches {
      AddedRecovery(m, w, capacity, a);
    }
  }

  // What a removal leaves of a pending recovery.
  lemma UnboundRecovery(v: View, keys: set<Key>, a: Address)
    requires Remembers(v, a)
    ensures var u := Unbind(v, keys);
            && (Remembers(u, a) <==> a !in Gone(v, keys)) && (a in Gone(v, keys) ==> a !in u.watches)
            && u.started == v.started
  {
  }

  lemma AddedRecovery(m: View, w: View, capacity: nat, a: Address)
    requires Grown(m, w, capacity) && a in w.watches && a !in m.watches
    ensures w.watches[a].recoveryPending == (a in m.deferred)
  {
    hide AddressLess, Addresses;
  }

  lemma KeptSupervisor(m: View, w: View, capacity: nat, a: Address)
    requires Grown(m, w, capacity) && a in m.watches
    ensures a in w.watches && w.watches[a] == m.watches[a]
  {
    hide AddressLess, Addresses;
  }

  // Once started, a replacement defers every address of its own that it leaves unwatched.
  lemma UnwatchedDeferred(v: View, w: View, owner: NamespacedName, routes: map<Key, RouteBinding>, capacity: nat)
    requires Invariant(v, capacity) && OwnRoutes(owner, routes) && Replaced(v, w, owner, routes, capacity) && v.started
    ensures Addresses(routes) <= w.watches.Keys + w.deferred
  {
    hide Grown;
    assert Grown(Rebound(v, owner, routes), w, capacity);
    StartedKept(Rebound(v, owner, routes), w, capacity);
  }

  lemma StartedKept(v: View, w: View, capacity: nat)
    requires Grown(v, w, capacity)
    ensures w.started == v.started
  {
  }

  // Dropping everything forgets the bindings and the watches, but not the deferrals.
  lemma DeferralsOutliveRemoveAll(v: View, w: View, capacity: nat)
    requires Invariant(v, capacity) && Next(v, w, RemoveEverything, capacity)
    ensures w.deferred == v.deferred && Addresses(w.bindings) == {}
    ensures w.deferred <= Addresses(w.bindings) <==> v.deferred == {}
  {
    NoAddresses();
  }
}
