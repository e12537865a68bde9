/** The route registry: two indexes over the same bindings, and a capped set of watch supervisors. */
module RouteRegistry {
  import opened Common
  import opened AccessPolicy
  import opened Authorization
  import opened Binder
  import opened Sorting
  import opened RouteTable
  import opened RouteReplacement
  import Freshness

  const DEFAULT_MAX_ACTIVE_WATCHES := 1024

  /* ---------- one index ---------- */

  // The index groups exactly these bindings by a part of their key, with no empty group.
  ghost predicate IndexOf<X(!new)>(index: map<X, map<Key, RouteBinding>>, bindings: map<Key, RouteBinding>,
      part: Key -> X)
  {
    && (forall x :: x in index ==> index[x] != map[])
    && (forall x, k :: x in index && k in index[x] ==> part(k) == x && k in bindings && bindings[k] == index[x][k])
    && (forall k :: k in bindings ==> part(k) in index && k in index[part(k)])
  }

  function Bucket<X>(index: map<X, map<Key, RouteBinding>>, x: X): map<Key, RouteBinding> {
    if x in index then index[x] else map[]
  }

  function Dropped<X>(index: map<X, map<Key, RouteBinding>>, x: X, k: Key): map<X, map<Key, RouteBinding>> {
    var rest := Bucket(index, x) - {k};
    if rest == map[] then index - {x} else index[x := rest]
  }

  lemma DroppedIndexes<X(!new)>(index: map<X, map<Key, RouteBinding>>, bindings: map<Key, RouteBinding>, part: Key -> X,
      k: Key)
    requires IndexOf(index, bindings, part) && k in bindings
    ensures IndexOf(Dropped(index, part(k), k), bindings - {k}, part)
  {
    var rest := Bucket(index, part(k)) - {k};
    forall j | j in bindings - {k} && part(j) == part(k) ensures j in rest {}
  }

  function Added<X>(index: map<X, map<Key, RouteBinding>>, x: X, k: Key,
      b: RouteBinding): map<X, map<Key, RouteBinding>>
  {
    index[x := Bucket(index, x)[k := b]]
  }

  lemma AddedIndexes<X(!new)>(index: map<X, map<Key, RouteBinding>>, bindings: map<Key, RouteBinding>, part: Key -> X,
                              k: Key, b: RouteBinding)
    requires IndexOf(index, bindings, part)
    ensures IndexOf(Added(index, part(k), k, b), bindings[k := b], part)
  {
    assert k in Bucket(index, part(k))[k := b];
  }

  lemma BucketIsGroup<X(!new)>(index: map<X, map<Key, RouteBinding>>, bindings: map<Key, RouteBinding>, part: Key -> X,
      x: X)
    requires IndexOf(index, bindings, part)
    ensures forall k :: k in Bucket(index, x) <==> k in bindings && part(k) == x
    ensures forall k :: k in Bucket(index, x) ==> Bucket(index, x)[k] == bindings[k]
  {
  }

  lemma IndexedAddresses(index: map<Address, map<Key, RouteBinding>>, bindings: map<Key, RouteBinding>)
    requires IndexOf(index, bindings, ByAddress)
    ensures index.Keys == Addresses(bindings)
  {
    forall a | a in index ensures a in Addresses(bindings) {
      var k :| k in index[a];
      assert k in bindings && k.address == a;
    }
  }

  // Removing one key frees its address exactly when its group has no other member.
  lemma OneGone(index: map<Address, map<Key, RouteBinding>>, v: View, k: Key)
    requires IndexOf(index, v.bindings, ByAddress) && k in v.bindings
    ensures Gone(v, {k}) == if Bucket(index, k.address) - {k} == map[] then {k.address} else {}
  {
    var rest := Bucket(index, k.address) - {k};
    if rest != map[] {
      var j :| j in rest;
      assert j in v.bindings - {k} && j.address == k.address;
    }
    forall j | j in v.bindings - {k} && j.address == k.address ensures j in rest {}
    forall j | j in v.bindings && j.address != k.address ensures j in v.bindings - {k} {}
  }

  lemma UnbindOne(v: View, k: Key, last: bool)
    requires k in v.bindings && Gone(v, {k}) == if last then {k.address} else {}
    ensures Unbind(v, {k}) ==
            if last then View(v.bindings - {k}, v.watches - {k.address}, v.deferred - {k.address}, v.started, v.minted)
            else v.(bindings := v.bindings - {k})
    ensures Stopped(v, {k}) == if last && k.address in v.watches then {v.watches[k.address]} else {}
  {
    hide Gone;
    assert v.watches - {} == v.watches;
  }

  lemma RemoveOne(byOwner: map<NamespacedName, map<Key, RouteBinding>>, byTarget: map<Address, map<Key, RouteBinding>>,
                  v: View, b: RouteBinding, last: bool)
    requires IndexOf(byOwner, v.bindings, ByOwner) && IndexOf(byTarget, v.bindings, ByAddress) && KeyOf(b) in v.bindings
    requires last == (Bucket(byTarget, b.address) - {KeyOf(b)} == map[])
    ensures var k := KeyOf(b);
            && IndexOf(Dropped(byOwner, b.owner, k), v.bindings - {k}, ByOwner)
            && IndexOf(Dropped(byTarget, b.address, k), v.bindings - {k}, ByAddress)
            && Unbind(v, {k}) ==
               (if last
                then View(v.bindings - {k}, v.watches - {b.address}, v.deferred - {b.address}, v.started, v.minted)
                else v.(bindings := v.bindings - {k}))
            && Stopped(v, {k}) == (if last && b.address in v.watches then {v.watches[b.address]} else {})
  {
    hide IndexOf, Unbind, Stopped, Gone, Dropped;
    var k := KeyOf(b);
    OneGone(byTarget, v, k);
    UnbindOne(v, k, last);
    DroppedIndexes(byOwner, v.bindings, ByOwner, k);
    DroppedIndexes(byTarget, v.bindings, ByAddress, k);
  }

  /* ---------- growing the watches ---------- */

  ghost predicate Ascending(addresses: seq<Address>, all: set<Address>) {
    && (forall a :: a in addresses <==> a in all)
    && forall i, j :: 0 <= i < j < |addresses| ==> AddressLess(addresses[i], addresses[j])
  }

  // The first n addresses have been offered a supervisor.
  ghost predicate Growing(v: View, w: View, capacity: nat, addresses: seq<Address>, n: nat)
    requires n <= |addresses|
  {
    && w.bindings == v.bindings && w.started == v.started && v.minted <= w.minted
    && (forall a :: a in v.watches ==> a in w.watches && w.watches[a] == v.watches[a])
    && (forall a :: a in w.watches && a !in v.watches ==> a in addresses[..n])
    && (forall i :: 0 <= i < n ==> addresses[i] in w.watches)
    && |w.watches| <= Max(capacity, |v.watches|)
    && (forall a :: a in w.watches && a !in v.watches ==> NewSupervisor(v, w, a))
    && (forall a, b :: a in w.watches && b in w.watches && a !in v.watches && b !in v.watches ==>
         w.watches[a].id == w.watches[b].id ==> a == b)
    && w.deferred == Undeferred(v, w)
  }

  function WithSupervisor(h: View, a: Address): View {
    var supervisor := Supervisor(h.minted, a, a in h.deferred);
    View(h.bindings, h.watches[a := supervisor], h.deferred - {a}, h.started, h.minted + 1)
  }

  lemma GrowOne(v: View, h: View, capacity: nat, addresses: seq<Address>, n: nat)
    requires n < |addresses| && Growing(v, h, capacity, addresses, n)
    requires |h.watches| < capacity && addresses[n] !in h.watches
    ensures Growing(v, WithSupervisor(h, addresses[n]), capacity, addresses, n + 1)
  {
    hide NewSupervisor, Undeferred;
    var w := WithSupervisor(h, addresses[n]);
    GrowDeferred(v, h, addresses[n]) by { GrowOthers(v, h, capacity, addresses, n); }
    forall a | a in w.watches && a !in v.watches ensures a in addresses[..n + 1] && NewSupervisor(v, w, a) {
      GrowNew(v, h, capacity, addresses, n, a);
    }
    forall a, b | a in w.watches && b in w.watches && a !in v.watches && b !in v.watches
        && w.watches[a].id == w.watches[b].id
      ensures a == b
    {
      GrowIds(v, h, capacity, addresses, n, a, b);
    }
    assert |w.watches| <= |h.watches| + 1;
    GrowOthers(v, h, capacity, addresses, n);
  }

  lemma GrowOthers(v: View, h: View, capacity: nat, addresses: seq<Address>, n: nat)
    requires n < |addresses| && Growing(v, h, capacity, addresses, n) && addresses[n] !in h.watches
    ensures var w := WithSupervisor(h, addresses[n]);
            && (forall a :: a in v.watches ==> a in w.watches && w.watches[a] == v.watches[a])
            && (forall i :: 0 <= i < n + 1 ==> addresses[i] in w.watches)
            && addresses[n] !in v.watches && h.deferred == Undeferred(v, h)
  {
    hide NewSupervisor, Undeferred;
  }

  lemma GrowIds(v: View, h: View, capacity: nat, addresses: seq<Address>, n: nat, a: Address, b: Address)
    requires n < |addresses| && Growing(v, h, capacity, addresses, n)
    requires var w := WithSupervisor(h, addresses[n]);
             a in w.watches && b in w.watches && a !in v.watches && b !in v.watches
                 && w.watches[a].id == w.watches[b].id
    ensures a == b
  {
    hide Undeferred;
    if a != addresses[n] { GrowOld(v, h, a); }
    if b != addresses[n] { GrowOld(v, h, b); }
  }

  lemma GrowNew(v: View, h: View, capacity: nat, addresses: seq<Address>, n: nat, a: Address)
    requires n < |addresses| && Growing(v, h, capacity, addresses, n) && addresses[n] !in h.watches
    requires a !in v.watches && (a == addresses[n] || a in h.watches)
    ensures a in addresses[..n + 1] && NewSupervisor(v, WithSupervisor(h, addresses[n]), a)
  {
    if a == addresses[n] {
      assert addresses[..n + 1][n] == a;
    } else {
      assert a in addresses[..n] && NewSupervisor(v, h, a);
      assert addresses[..n] <= addresses[..n + 1];
    }
  }

  lemma GrowOld(v: View, h: View, a: Address)
    requires a in h.watches && NewSupervisor(v, h, a)
    ensures h.watches[a].id < h.minted
  {
  }

  lemma GrowDeferred(v: View, h: View, a: Address)
    requires h.deferred == Undeferred(v, h) && a !in h.watches && a !in v.watches
    ensures WithSupervisor(h, a).deferred == Undeferred(v, WithSupervisor(h, a))
  {
    var w := WithSupervisor(h, a);
    assert w.watches.Keys == h.watches.Keys + {a};
    assert w.watches.Keys - v.watches.Keys == (h.watches.Keys - v.watches.Keys) + {a};
  }

  lemma GrowDone(v: View, w: View, capacity: nat, addresses: seq<Address>, n: nat)
    requires n <= |addresses| && Growing(v, w, capacity, addresses, n)
    requires Ascending(addresses, Addresses(v.bindings)) && (n == |addresses| || |w.watches| >= capacity)
    ensures Ensured(v, w, capacity)
  {
    hide AddressLess, NewSupervisor, Addresses;
    forall a | a in w.watches && a !in v.watches ensures a in addresses {}
    forall a, b | a in w.watches && a !in v.watches && b in Addresses(v.bindings) && b !in w.watches
      ensures AddressLess(a, b)
    {
      assert a in addresses[..n];
      var i :| 0 <= i < n && addresses[i] == a;
      assert b in addresses;
      var j :| 0 <= j < |addresses| && addresses[j] == b;
    }
    if |w.watches| < capacity {
      forall a | a in Addresses(v.bindings) ensures a in w.watches.Keys { assert a in addresses; }
    }
  }

  lemma GrowStart(v: View, capacity: nat, addresses: seq<Address>)
    ensures Growing(v, v, capacity, addresses, 0) && Starts(v, v, [])
  {
    assert v.watches.Keys - v.watches.Keys == {};
  }

  lemma GrowSkip(v: View, w: View, capacity: nat, addresses: seq<Address>, n: nat)
    requires n < |addresses| && Growing(v, w, capacity, addresses, n) && addresses[n] in w.watches
    ensures Growing(v, w, capacity, addresses, n + 1)
  {
    hide NewSupervisor, Undeferred;
    forall a | a in w.watches && a !in v.watches ensures a in addresses[..n + 1] {
      assert a in addresses[..n];
      assert addresses[..n] <= addresses[..n + 1];
    }
  }

  lemma GrowKeepsOld(v: View, w: View, capacity: nat, addresses: seq<Address>, n: nat)
    requires n <= |addresses| && Growing(v, w, capacity, addresses, n)
    ensures forall a :: a in v.watches ==> a in w.watches
  {
  }

  lemma UnbindNothing(v: View)
    ensures Unbind(v, {}) == v && Stopped(v, {}) == {}
  {
    assert v.bindings - {} == v.bindings;
    assert Gone(v, {}) == {};
    assert v.watches - {} == v.watches && v.deferred - {} == v.deferred;
  }

  lemma UnbindLeaves(v: View, keys: set<Key>, k: Key)
    requires k in v.bindings && k !in keys
    ensures k in Unbind(v, keys).bindings && Unbind(v, keys).bindings[k] == v.bindings[k]
  {
  }

  // What is returned to be started are the supervisors of the new watches.
  ghost predicate Starts(v: View, w: View, toStart: seq<Supervisor>) {
    && (forall s :: s in toStart ==> s.address in w.watches && s.address !in v.watches && w.watches[s.address] == s)
    && (forall a :: a in w.watches && a !in v.watches ==> w.watches[a] in toStart)
  }

  lemma StartsMore(v: View, h: View, a: Address, toStart: seq<Supervisor>)
    requires Starts(v, h, toStart) && a !in h.watches && a !in v.watches
    ensures Starts(v, WithSupervisor(h, a), toStart + [WithSupervisor(h, a).watches[a]])
  {
    var w := WithSupervisor(h, a);
    forall b | b in w.watches && b !in v.watches ensures w.watches[b] in toStart + [w.watches[a]] {
      if b != a { assert h.watches[b] in toStart; }
    }
  }

  /* ---------- sorted listings ---------- */

  lemma AscendingSort(listed: seq<Address>, all: set<Address>)
    requires (forall a :: a in listed <==> a in all) && Different(listed)
    ensures Ascending(Sort(ByKey(AddressKey), listed), all)
  {
    hide AddressLess, ByKey, AddressKey, Sort;
    var r := Sort(ByKey(AddressKey), listed);
    forall a ensures a in r <==> a in all { SortMembers(ByKey(AddressKey), listed, a); }
    forall i, j | 0 <= i < j < |r| ensures AddressLess(r[i], r[j]) { AscendingPair(listed, i, j); }
  }

  lemma AscendingPair(listed: seq<Address>, i: nat, j: nat)
    requires Different(listed)
    requires i < j < |Sort(ByKey(AddressKey), listed)|
    ensures var r := Sort(ByKey(AddressKey), listed); AddressLess(r[i], r[j])
  {
    hide WeakOrder, AddressLess, ByKey, AddressKey, Sort;
    ByKeyWeakOrder(AddressKey);
    SortSorted(ByKey(AddressKey), listed);
    SortDistinct(ByKey(AddressKey), listed, i, j);
    var r := Sort(ByKey(AddressKey), listed);
    NotGreater(r[i], r[j]);
  }

  lemma NotGreater(a: Address, b: Address)
    requires a != b && !ByKey(AddressKey)(b, a)
    ensures AddressLess(a, b)
  {
    if AddressKey(a) == AddressKey(b) { AddressKeyInjective(a, b); }
    KeyOrder(AddressKey(a), AddressKey(b), AddressKey(a));
  }

  lemma AddressKeyInjective(a: Address, b: Address)
    requires AddressKey(a) == AddressKey(b)
    ensures a == b
  {
    var x, y := AddressKey(a).parts, AddressKey(b).parts;
    assert x[0] == y[0] && x[1] == y[1] && x[2] == y[2] && x[3] == y[3] && x[4] == y[4];
    assert "0" != "1" && "1" != "2" && "0" != "2";
  }

  /* ---------- replacement ---------- */

  lemma {:induction false} IssueStays(lease: Freshness.Lease, routes: seq<RouteBinding>, n: nat, m: nat)
    requires n <= m <= |routes| && RoutesIssue(lease, routes, n).Some?
    ensures RoutesIssue(lease, routes, m) == RoutesIssue(lease, routes, n)
  {
    if n < m { IssueStays(lease, routes, n, m - 1); }
  }

  lemma RouteMapEmpty(routes: seq<RouteBinding>)
    ensures RouteMap(routes[..0]) == map[] && RouteKeys(routes[..0]) == {}
  {
  }

  lemma RouteMapGrows(routes: seq<RouteBinding>, i: nat)
    requires i < |routes|
    ensures RouteMap(routes[..i + 1]) == RouteMap(routes[..i])[KeyOf(routes[i]) := routes[i]]
    ensures RouteKeys(routes[..i + 1]) == RouteKeys(routes[..i]) + {KeyOf(routes[i])}
  {
    assert routes[..i + 1] == routes[..i] + [routes[i]];
  }

  lemma AcceptedOwn(lease: Freshness.Lease, b: RouteBinding)
    requires RouteIssue(lease, b) == None
    ensures b.owner == lease.key && AuthorizedBinding(b)
  {
  }

  // What an owner keeps of its accepted routes after the removal.
  lemma UnbindKept(v: View, owner: NamespacedName, accepted: map<Key, RouteBinding>)
    requires OwnRoutes(owner, accepted)
    ensures var u := Unbind(v, KeysOfOwner(v, owner) - accepted.Keys);
            forall k :: k in accepted ==> (k in u.bindings <==> k in KeysOfOwner(v, owner))
  {
    hide AuthorizedBinding;
  }

  function Addressed(routes: map<Key, RouteBinding>): set<Address> { set k | k in routes :: routes[k].address }

  lemma AddressedAreAddresses(owner: NamespacedName, routes: map<Key, RouteBinding>)
    requires OwnRoutes(owner, routes)
    ensures Addressed(routes) == Addresses(routes)
  {
    hide AuthorizedBinding;
  }

  lemma ReplacedInSteps(v: View, e: View, w: View, owner: NamespacedName, routes: map<Key, RouteBinding>, capacity: nat)
    requires Ensured(Rebound(v, owner, routes), e, capacity) && w == e.(deferred := e.deferred + DeferredBy(e, routes))
    ensures Replaced(v, w, owner, routes, capacity)
  {
    hide Rebound, Grown;
    GrownIgnoresDeferred(Rebound(v, owner, routes), e, w, capacity);
  }

  // The supervisors of the watched ones among these addresses, in order.
  function Present(watches: map<Address, Supervisor>, addresses: seq<Address>): seq<Supervisor> {
    if addresses == [] then []
    else
      var n := |addresses| - 1;
      Present(watches, addresses[..n]) + if addresses[n] in watches then [watches[addresses[n]]] else []
  }

  ghost predicate Awaited(w: View, routes: map<Key, RouteBinding>, supervisors: seq<Supervisor>) {
    exists addresses :: Ascending(addresses, Addressed(routes)) && supervisors == Present(w.watches, addresses)
  }

  ghost predicate RemovedKeys(v: View, w: View, keys: set<Key>, capacity: nat, toStop: set<Supervisor>,
      toStart: seq<Supervisor>)
  {
    Ensured(Unbind(v, keys), w, capacity) && toStop == Stopped(v, keys) && Starts(Unbind(v, keys), w, toStart)
  }

  lemma SortedOwners(owners: seq<NamespacedName>)
    requires Different(owners)
    ensures var r := Sort(ByKey(NameKey), owners);
            && (forall o :: o in r <==> o in owners)
            && InNameOrder(r)
            && Different(r)
  {
    NamesSorted(owners);
    hide ByKey, InNameOrder;
    var r := Sort(ByKey(NameKey), owners);
    forall o ensures o in r <==> o in owners { SortMembers(ByKey(NameKey), owners, o); }
    forall i, j | 0 <= i < j < |r| ensures r[i] != r[j] { SortDistinct(ByKey(NameKey), owners, i, j); }
  }

  /* ---------- permits ---------- */

  datatype Permit = Permit(address: Address, capabilities: seq<Capability>)

  predicate ValidPermit(p: Permit) {
    && ValidAddress(p.address) && p.capabilities != []
    && forall i :: 0 <= i < |p.capabilities| ==> Matches(p.capabilities[i], p.address)
  }

  predicate Matches(c: Capability, a: Address) {
    ValidCapability(c) && c.request.apiGroup == a.gvr.group && c.request.scope == a.scope
        && c.request.namespace == a.namespace
  }

  // The permit carries exactly the capabilities bound to the address.
  ghost predicate PermitFor(p: Permit, address: Address, bindings: map<Key, RouteBinding>) {
    && p.address == address
    && (forall k :: k in bindings && k.address == address ==> bindings[k].capability in p.capabilities)
    && (forall i :: 0 <= i < |p.capabilities| ==> exists k ::
         k in bindings && k.address == address && bindings[k].capability == p.capabilities[i])
  }

  function PermitOrder(b: RouteBinding): SortKey { SortKey([b.owner.namespace, b.owner.name, b.sourceID], 0) }

  ghost predicate Holds(bucket: map<Key, RouteBinding>, b: RouteBinding) {
    exists k :: k in bucket && bucket[k] == b
  }

  ghost predicate ListsBucket(ordered: seq<RouteBinding>, bucket: map<Key, RouteBinding>) {
    && (forall i :: 0 <= i < |ordered| ==> Holds(bucket, ordered[i]))
    && (forall k :: k in bucket ==> bucket[k] in ordered)
  }

  method OrderedBindings(bucket: map<Key, RouteBinding>) returns (ordered: seq<RouteBinding>)
    ensures ListsBucket(ordered, bucket) && Sorted(ByKey(PermitOrder), ordered)
  {
    var todo := bucket.Keys;
    var listed: seq<RouteBinding> := [];
    while todo != {}
      invariant todo <= bucket.Keys
      invariant forall i :: 0 <= i < |listed| ==> Holds(bucket, listed[i])
      invariant forall k :: k in bucket && k !in todo ==> bucket[k] in listed
      decreases todo
    {
      var key :| key in todo;
      todo := todo - {key};
      listed := listed + [bucket[key]];
    }
    ordered := Sort(ByKey(PermitOrder), listed);
    ByKeyWeakOrder(PermitOrder);
    SortSorted(ByKey(PermitOrder), listed);
    forall i | 0 <= i < |ordered| ensures ordered[i] in listed { SortMember(ByKey(PermitOrder), listed, i); }
    forall k | k in bucket ensures bucket[k] in ordered { SortMembers(ByKey(PermitOrder), listed, bucket[k]); }
  }

  lemma NoneOrdered(bucket: map<Key, RouteBinding>, ordered: seq<RouteBinding>, address: Address,
      bindings: map<Key, RouteBinding>)
    requires ListsBucket(ordered, bucket) && forall k :: k in bucket <==> k in bindings && k.address == address
    ensures ordered != [] <==> address in Addresses(bindings)
  {
    if ordered != [] {
      assert Holds(bucket, ordered[0]);
      var k :| k in bucket && bucket[k] == ordered[0];
      assert k in bindings;
    }
  }

  // The bindings of an address authorize a watch of it, so the permit built from them is always valid.
  lemma PermitBuilt(p: Permit, ordered: seq<RouteBinding>, bucket: map<Key, RouteBinding>, address: Address,
                    bindings: map<Key, RouteBinding>)
    requires ListsBucket(ordered, bucket) && ordered != []
    requires forall k :: k in bucket <==> k in bindings && k.address == address
    requires forall k :: k in bucket ==> bucket[k] == bindings[k]
    requires p.address == address && |p.capabilities| == |ordered|
    requires forall i :: 0 <= i < |ordered| ==> p.capabilities[i] == ordered[i].capability
    ensures PermitFor(p, address, bindings)
    ensures (forall k :: k in bindings ==> KeyOf(bindings[k]) == k && AuthorizedBinding(bindings[k])) ==> ValidPermit(p)
  {
    forall k | k in bindings && k.address == address ensures bindings[k].capability in p.capabilities {
      assert bucket[k] in ordered;
      var i :| 0 <= i < |ordered| && ordered[i] == bucket[k];
      assert p.capabilities[i] == bindings[k].capability;
    }
    forall i | 0 <= i < |p.capabilities|
      ensures exists k :: k in bindings && k.address == address && bindings[k].capability == p.capabilities[i]
    {
      assert Holds(bucket, ordered[i]);
    }
    if forall k :: k in bindings ==> KeyOf(bindings[k]) == k && AuthorizedBinding(bindings[k]) {
      forall i | 0 <= i < |p.capabilities| ensures Matches(p.capabilities[i], p.address) && ValidAddress(p.address) {
        assert Holds(bucket, ordered[i]);
        var k :| k in bucket && bucket[k] == ordered[i];
        assert AuthorizedBinding(bindings[k]) && KeyOf(bindings[k]) == k;
      }
      assert ValidAddress(p.address) by { assert Matches(p.capabilities[0], p.address); }
    }
  }

  // By the owner's namespace and name, then by source.
  predicate CapabilityPrecedes(c: Capability, d: Capability) {
    if c.subject.key.namespace != d.subject.key.namespace
    then StringLess(c.subject.key.namespace, d.subject.key.namespace)
    else if c.subject.key.name != d.subject.key.name then StringLess(c.subject.key.name, d.subject.key.name)
    else StringLess(c.request.sourceID, d.request.sourceID)
  }

  ghost predicate InPermitOrder(p: Permit) {
    forall i, j :: 0 <= i < j < |p.capabilities| ==> !CapabilityPrecedes(p.capabilities[j], p.capabilities[i])
  }

  lemma PermitOrderMeans(a: RouteBinding, b: RouteBinding)
    requires AuthorizedBinding(a) && AuthorizedBinding(b)
    ensures ByKey(PermitOrder)(a, b) <==> CapabilityPrecedes(a.capability, b.capability)
  {
    assert ByKey(PermitOrder)(a, b) == KeyLess(PermitOrder(a), PermitOrder(b));
    ThreePartsLess(PermitOrder(a).parts, PermitOrder(b).parts);
    StringLessTotal(a.sourceID, b.sourceID);
    hide PartsLess, StringLess;
  }

  lemma PermitOrdered(p: Permit, ordered: seq<RouteBinding>, bucket: map<Key, RouteBinding>, address: Address,
                      bindings: map<Key, RouteBinding>)
    requires ListsBucket(ordered, bucket) && Sorted(ByKey(PermitOrder), ordered)
    requires forall k :: k in bucket ==> k in bindings && bucket[k] == bindings[k]
    requires forall k :: k in bindings ==> AuthorizedBinding(bindings[k])
    requires |p.capabilities| == |ordered|
    requires forall i :: 0 <= i < |ordered| ==> p.capabilities[i] == ordered[i].capability
    ensures InPermitOrder(p)
  {
    hide AuthorizedBinding, CapabilityPrecedes, PermitOrder, ByKey;
    forall i | 0 <= i < |ordered| ensures AuthorizedBinding(ordered[i]) {
      assert Holds(bucket, ordered[i]);
      var k :| k in bucket && bucket[k] == ordered[i];
      assert k in bindings;
    }
    forall i, j | 0 <= i < j < |ordered| ensures !CapabilityPrecedes(p.capabilities[j], p.capabilities[i]) {
      PermitOrderMeans(ordered[j], ordered[i]);
    }
  }

  // After pruning an address, only bindings judged current are left there, and no binding changed.
  lemma PrunedCurrent(v: View, w: View, address: Address, current: set<Key>, capacity: nat, toStop: set<Supervisor>,
      toStart: seq<Supervisor>)
    requires RemovedKeys(v, w, KeysAt(v, address) - current, capacity, toStop, toStart)
    ensures forall k :: k in w.bindings && k.address == address ==> k in current
    ensures KeysMatch(v) ==> KeysMatch(w)
  {
    hide AuthorizedBinding, AddressLess, NewSupervisor, Gone;
  }

  function ByOwner(k: Key): NamespacedName { k.owner }

  function ByAddress(k: Key): Address { k.address }

  method AscendingList(all: set<Address>) returns (addresses: seq<Address>)
    ensures Ascending(addresses, all)
  {
    hide Ascending;
    var left := all;
    var listed: seq<Address> := [];
    while left != {}
      invariant left <= all && forall a :: a in listed <==> a in all - left
      invariant Different(listed)
      decreases left
    {
      var a :| a in left;
      left := left - {a};
      assert a !in listed;
      listed := listed + [a];
    }
    AscendingSort(listed, all);
    addresses := Sort(ByKey(AddressKey), listed);
  }

  method DistinctOwners(bucket: map<Key, RouteBinding>) returns (seen: seq<NamespacedName>)
    ensures forall o :: o in seen <==> exists k :: k in bucket && k.owner == o
    ensures Different(seen)
  {
    var todo := bucket.Keys;
    seen := [];
    while todo != {}
      invariant todo <= bucket.Keys
      invariant forall o :: o in seen <==> exists k :: k in bucket && k !in todo && k.owner == o
      invariant Different(seen)
      decreases todo
    {
      var key :| key in todo;
      todo := todo - {key};
      if key.owner in seen { continue; }
      seen := seen + [key.owner];
    }
  }

  class Registry {
    const hasWatcher: bool
    const hasTracker: bool
    const maxActiveWatches: int
    var byOwner: map<NamespacedName, map<Key, RouteBinding>>
    var byTarget: map<Address, map<Key, RouteBinding>>
    var watches: map<Address, Supervisor>
    var deferred: set<Address>
    var started: bool
    var minted: nat
    ghost var bindings: map<Key, RouteBinding>

    // Both indexes hold the same bindings, each under its own key, and a start needed a watcher and a tracker.
    ghost predicate Valid()
      reads this
    {
      && IndexOf(byOwner, bindings, ByOwner) && IndexOf(byTarget, bindings, ByAddress)
      && (forall k :: k in bindings ==> KeyOf(bindings[k]) == k) && (started ==> hasWatcher && hasTracker)
    }

    ghost function Contents(): View
      reads this
    {
      View(bindings, watches, deferred, started, minted)
    }

    function Capacity(): nat {
      if maxActiveWatches <= 0 then DEFAULT_MAX_ACTIVE_WATCHES else maxActiveWatches
    }

    constructor (hasWatcher: bool, hasTracker: bool, maxActiveWatches: int)
      ensures Valid() && Contents() == View(map[], map[], {}, false, 0)
      ensures this.hasWatcher == hasWatcher && this.hasTracker == hasTracker
          && this.maxActiveWatches == maxActiveWatches
    {
      this.hasWatcher, this.hasTracker, this.maxActiveWatches := hasWatcher, hasTracker, maxActiveWatches;
      byOwner, byTarget, watches, deferred, started, minted, bindings := map[], map[], map[], {}, false, 0, map[];
    }

    method AddBindingLocked(b: RouteBinding)
      requires Valid()
      modifies this`byOwner, this`byTarget, this`bindings
      ensures Valid() && bindings == old(bindings)[KeyOf(b) := b]
    {
      hide IndexOf;
      var key := KeyOf(b);
      AddedIndexes(byOwner, bindings, ByOwner, key, b);
      AddedIndexes(byTarget, bindings, ByAddress, key, b);
      byOwner := Added(byOwner, b.owner, key, b);
      byTarget := Added(byTarget, b.address, key, b);
      bindings := bindings[key := b];
    }

    method RemoveBindingLocked(b: RouteBinding) returns (stopped: Option<Supervisor>)
      requires Valid() && KeyOf(b) in bindings
      modifies this`byOwner, this`byTarget, this`bindings, this`watches, this`deferred
      ensures Valid() && Contents() == Unbind(old(Contents()), {KeyOf(b)})
      ensures (if stopped.Some? then {stopped.value} else {}) == Stopped(old(Contents()), {KeyOf(b)})
    {
      hide IndexOf, Unbind, Stopped, Gone, Dropped;
      var key := KeyOf(b);
      var last := Bucket(byTarget, b.address) - {key} == map[];
      RemoveOne(byOwner, byTarget, Contents(), b, last);
      byOwner := Dropped(byOwner, b.owner, key);
      byTarget := Dropped(byTarget, b.address, key);
      bindings := bindings - {key};
      stopped := None;
      if last {
        deferred := deferred - {b.address};
        if b.address in watches { stopped := Some(watches[b.address]); }
        watches := watches - {b.address};
      }
    }

    // Builds a supervisor for the least unwatched bound addresses, up to the capacity.
    method EnsureWatchCapacityLocked() returns (toStart: seq<Supervisor>)
      requires Valid()
      modifies this`watches, this`deferred, this`minted
      ensures Valid() && Ensured(old(Contents()), Contents(), Capacity())
      ensures Starts(old(Contents()), Contents(), toStart)
    {
      hide Growing, Starts, Ensured, AddressLess, Ascending, Addresses, IndexOf;
      ghost var before := Contents();
      var addresses := SortedAddresses();
      toStart := [];
      GrowStart(before, Capacity(), addresses);
      var i := 0;
      while i < |addresses| && |watches| < Capacity()
        invariant i <= |addresses| && Valid()
        invariant Growing(before, Contents(), Capacity(), addresses, i) && Starts(before, Contents(), toStart)
      {
        var address := addresses[i];
        ghost var here := Contents();
        if address in watches {
          GrowSkip(before, here, Capacity(), addresses, i);
        } else {
          GrowOne(before, here, Capacity(), addresses, i);
          GrowKeepsOld(before, here, Capacity(), addresses, i);
          StartsMore(before, here, address, toStart);
          var supervisor := Supervisor(minted, address, address in deferred);
          deferred := deferred - {address};
          watches := watches[address := supervisor];
          minted := minted + 1;
          toStart := toStart + [supervisor];
          assert Contents() == WithSupervisor(here, address);
        }
        i := i + 1;
      }
      GrowDone(before, Contents(), Capacity(), addresses, i);
    }

    method SortedAddresses() returns (addresses: seq<Address>)
      requires Valid()
      ensures Ascending(addresses, Addresses(bindings))
    {
      hide Ascending, Addresses;
      IndexedAddresses(byTarget, bindings);
      addresses := AscendingList(byTarget.Keys);
    }

    // Removes the bindings of one index group, except those to be kept.
    method RemoveExcept(bucket: map<Key, RouteBinding>, keep: set<Key>) returns (toStop: set<Supervisor>)
      requires Valid() && forall k :: k in bucket ==> k in bindings && bindings[k] == bucket[k]
      modifies this`byOwner, this`byTarget, this`bindings, this`watches, this`deferred
      ensures Valid() && Contents() == Unbind(old(Contents()), bucket.Keys - keep)
      ensures toStop == Stopped(old(Contents()), bucket.Keys - keep)
    {
      hide IndexOf, Unbind, Stopped;
      ghost var before := Contents();
      ghost var removed: set<Key> := {};
      toStop := {};
      UnbindNothing(before);
      var todo := bucket.Keys;
      while todo != {}
        invariant Valid() && todo <= bucket.Keys && removed == bucket.Keys - todo - keep
        invariant Contents() == Unbind(before, removed) && toStop == Stopped(before, removed)
        decreases todo
      {
        var key :| key in todo;
        todo := todo - {key};
        if key in keep { continue; }
        UnbindTwice(before, removed, {key});
        UnbindLeaves(before, removed, key);
        var stopped := RemoveBindingLocked(bucket[key]);
        if stopped.Some? { toStop := toStop + {stopped.value}; }
        removed := removed + {key};
      }
      assert removed == bucket.Keys - keep;
    }

    // Checks the routes in order and keys them; the first problem rejects them all.
    method ValidateRoutes(lease: Freshness.Lease, routes: seq<RouteBinding>)
      returns (err: Option<RouteError>, accepted: map<Key, RouteBinding>)
      ensures err == RoutesIssue(lease, routes, |routes|)
      ensures err == None ==> accepted == RouteMap(routes) && OwnRoutes(lease.key, accepted)
    {
      hide RouteIssue, AuthorizedBinding, RouteMap, RouteKeys;
      RouteMapEmpty(routes);
      accepted := map[];
      for i := 0 to |routes|
        invariant RoutesIssue(lease, routes, i) == None
        invariant accepted == RouteMap(routes[..i]) && accepted.Keys == RouteKeys(routes[..i])
        invariant OwnRoutes(lease.key, accepted)
      {
        RouteMapGrows(routes, i);
        var issue := RouteIssue(lease, routes[i]);
        if issue.Some? {
          IssueStays(lease, routes, i + 1, |routes|);
          return issue, accepted;
        }
        var key := KeyOf(routes[i]);
        if key in accepted {
          IssueStays(lease, routes, i + 1, |routes|);
          return Some(DuplicateRoute), accepted;
        }
        AcceptedOwn(lease, routes[i]);
        accepted := accepted[key := routes[i]];
      }
      assert routes[..|routes|] == routes;
      return None, accepted;
    }

    // The two currency checks of the lease, before validation and under the lock, are answered by the tracker.
    method Replace(lease: Freshness.Lease, routes: seq<RouteBinding>, currentBefore: bool, currentLocked: bool)
      returns (err: Option<RouteError>, toStop: set<Supervisor>, toWait: seq<Supervisor>)
      requires Valid()
      modifies this
      ensures Valid()
      ensures err == if hasTracker && !currentBefore then Some(StaleLease)
                     else if RoutesIssue(lease, routes, |routes|).Some? then RoutesIssue(lease, routes, |routes|)
                     else if hasTracker && !currentLocked then Some(StaleLease)
                     else None
      ensures err.Some? ==> Contents() == old(Contents()) && toStop == {} && toWait == []
      ensures err == None ==>
                && OwnRoutes(lease.key, RouteMap(routes))
                && Replaced(old(Contents()), Contents(), lease.key, RouteMap(routes), Capacity())
                && toStop == Stopped(old(Contents()), KeysOfOwner(old(Contents()), lease.key) - RouteMap(routes).Keys)
                && Awaited(Contents(), RouteMap(routes), toWait)
                && (KeysMatch(old(Contents())) ==> OwnedAsGiven(Contents().bindings, lease, routes))
    {
      hide Replaced, OwnRoutes, RouteMap, Awaited, Stopped, KeysOfOwner, RoutesIssue, KeysMatch, OwnedAsGiven;
      ghost var before := Contents();
      toStop, toWait := {}, [];
      if hasTracker && !currentBefore { return Some(StaleLease), toStop, toWait; }
      var accepted: map<Key, RouteBinding>;
      err, accepted := ValidateRoutes(lease, routes);
      if err.Some? { return; }
      if hasTracker && !currentLocked { return Some(StaleLease), toStop, toWait; }
      toStop, toWait := Commit(lease.key, accepted);
      if KeysMatch(before) { ReplacementOwned(before, Contents(), lease, routes, Capacity()); }
    }

    // The replacement under the lock.
    method Commit(owner: NamespacedName, accepted: map<Key, RouteBinding>)
      returns (toStop: set<Supervisor>, toWait: seq<Supervisor>)
      requires Valid() && OwnRoutes(owner, accepted)
      modifies this
      ensures Valid() && Replaced(old(Contents()), Contents(), owner, accepted, Capacity())
      ensures toStop == Stopped(old(Contents()), KeysOfOwner(old(Contents()), owner) - accepted.Keys)
      ensures Awaited(Contents(), accepted, toWait)
    {
      hide IndexOf, Unbind, Stopped, Ensured, OwnRoutes, Addresses, Awaited, Replaced, Addressed;
      ghost var before := Contents();
      var oldBindings := Bucket(byOwner, owner);
      BucketIsGroup(byOwner, bindings, ByOwner, owner);
      assert oldBindings.Keys == KeysOfOwner(before, owner);
      toStop := RemoveExcept(oldBindings, accepted.Keys);
      AddNew(owner, before, oldBindings.Keys, accepted);
      var _ := EnsureWatchCapacityLocked();
      ghost var ensured := Contents();
      AddressedAreAddresses(owner, accepted);
      if started {
        deferred := deferred + (Addressed(accepted) - watches.Keys);
      }
      assert Contents() == ensured.(deferred := ensured.deferred + DeferredBy(ensured, accepted));
      ReplacedInSteps(before, ensured, Contents(), owner, accepted, Capacity());
      toWait := SupervisorsForBindings(accepted);
    }

    // Adds the accepted routes whose keys the owner did not have.
    method AddNew(owner: NamespacedName, ghost before: View, held: set<Key>, accepted: map<Key, RouteBinding>)
      requires Valid() && OwnRoutes(owner, accepted) && held == KeysOfOwner(before, owner)
      requires Contents() == Unbind(before, held - accepted.Keys)
      modifies this`byOwner, this`byTarget, this`bindings
      ensures Valid() && Contents() == Rebound(before, owner, accepted)
    {
      hide IndexOf, Unbind, AuthorizedBinding;
      ghost var start := bindings;
      UnbindKept(before, owner, accepted);
      var todo := accepted.Keys;
      while todo != {}
        invariant Valid() && todo <= accepted.Keys
        invariant forall k :: k in bindings <==> k in start || (k in accepted && k !in todo)
        invariant forall k :: k in bindings ==> bindings[k] == if k in start then start[k] else accepted[k]
        decreases todo
      {
        var key :| key in todo;
        todo := todo - {key};
        if key in held { continue; }
        AddBindingLocked(accepted[key]);
      }
      assert bindings == accepted + start;
    }

    // The watched supervisors of these bindings' addresses, in address order.
    method SupervisorsForBindings(routes: map<Key, RouteBinding>) returns (supervisors: seq<Supervisor>)
      ensures Awaited(Contents(), routes, supervisors)
    {
      hide Addresses, AddressLess;
      var addresses := AscendingList(Addressed(routes));
      supervisors := [];
      for i := 0 to |addresses|
        invariant supervisors == Present(watches, addresses[..i])
      {
        assert addresses[..i + 1][..i] == addresses[..i];
        if addresses[i] in watches { supervisors := supervisors + [watches[addresses[i]]]; }
      }
      assert addresses[..|addresses|] == addresses;
    }

    method RemoveOwner(owner: NamespacedName) returns (toStop: set<Supervisor>, toStart: seq<Supervisor>)
      requires Valid()
      modifies this
      ensures Valid()
          && RemovedKeys(old(Contents()), Contents(), KeysOfOwner(old(Contents()), owner), Capacity(), toStop, toStart)
    {
      hide RemovedKeys, KeysOfOwner;
      assert KeysOfOwner(Contents(), owner) - Judged({}) == KeysOfOwner(Contents(), owner);
      toStop, toStart := PruneStaleOwner(owner, {});
    }

    method RemoveAll() returns (toStop: set<Supervisor>)
      requires Valid()
      modifies this
      ensures Valid() && Contents() == old(Contents()).(bindings := map[], watches := map[])
      ensures toStop == old(watches).Values
    {
      toStop := watches.Values;
      byOwner, byTarget, watches, bindings := map[], map[], map[], map[];
    }

    // `current` are the keys whose subject the tracker calls current; without a tracker nothing is.
    method PruneStaleOwner(owner: NamespacedName, current: set<Key>)
      returns (toStop: set<Supervisor>, toStart: seq<Supervisor>)
      requires Valid()
      modifies this
      ensures Valid()
      ensures RemovedKeys(old(Contents()), Contents(), KeysOfOwner(old(Contents()), owner) - Judged(current),
          Capacity(), toStop, toStart)
    {
      hide IndexOf, Unbind, Stopped, Ensured;
      BucketIsGroup(byOwner, bindings, ByOwner, owner);
      var bucket := Bucket(byOwner, owner);
      assert bucket.Keys == KeysOfOwner(Contents(), owner);
      toStop := RemoveExcept(bucket, Judged(current));
      toStart := EnsureWatchCapacityLocked();
    }

    method PruneStale(address: Address, current: set<Key>) returns (toStop: set<Supervisor>, toStart: seq<Supervisor>)
      requires Valid()
      modifies this
      ensures Valid()
      ensures RemovedKeys(old(Contents()), Contents(), KeysAt(old(Contents()), address) - Judged(current), Capacity(),
          toStop, toStart)
    {
      hide IndexOf, Unbind, Stopped, Ensured;
      BucketIsGroup(byTarget, bindings, ByAddress, address);
      var bucket := Bucket(byTarget, address);
      assert bucket.Keys == KeysAt(Contents(), address);
      toStop := RemoveExcept(bucket, Judged(current));
      toStart := EnsureWatchCapacityLocked();
    }

    function Judged(current: set<Key>): set<Key> {
      if hasTracker then current else {}
    }

    // Refused without a watcher, a tracker or a queue, and when started already.
    method Start(hasQueue: bool) returns (ok: bool, supervisors: set<Supervisor>)
      requires Valid()
      modifies this`started
      ensures Valid() && ok == (hasWatcher && hasTracker && hasQueue && !old(started))
      ensures Contents() == old(Contents()).(started := old(started) || ok)
      ensures supervisors == if ok then watches.Values else {}
    {
      if !hasWatcher { return false, {}; }
      if !hasTracker { return false, {}; }
      if !hasQueue || started { return false, {}; }
      started := true;
      return true, watches.Values;
    }

    // The distinct owners still bound to an address after pruning it, in order.
    method CurrentOwners(address: Address, current: set<Key>)
      returns (owners: seq<NamespacedName>, toStop: set<Supervisor>, toStart: seq<Supervisor>)
      requires Valid()
      modifies this
      ensures Valid()
      ensures RemovedKeys(old(Contents()), Contents(), KeysAt(old(Contents()), address) - Judged(current), Capacity(),
          toStop, toStart)
      ensures forall o :: o in owners <==> exists k :: k in bindings && k.address == address && k.owner == o
      ensures InNameOrder(owners) && Different(owners)
    {
      hide RemovedKeys;
      toStop, toStart := PruneStale(address, current);
      BucketIsGroup(byTarget, bindings, ByAddress, address);
      hide IndexOf;
      var seen := DistinctOwners(Bucket(byTarget, address));
      owners := Sort(ByKey(NameKey), seen);
      SortedOwners(seen);
    }

    // Prunes an address and builds the permit for watching it, from what is left.
    method CurrentPermit(address: Address, current: set<Key>)
      returns (permit: Option<Permit>, toStop: set<Supervisor>, toStart: seq<Supervisor>)
      requires Valid()
      modifies this
      ensures Valid()
      ensures RemovedKeys(old(Contents()), Contents(), KeysAt(old(Contents()), address) - Judged(current), Capacity(),
          toStop, toStart)
      ensures permit.Some? ==> PermitFor(permit.value, address, bindings) && ValidPermit(permit.value)
      ensures KeysMatch(old(Contents())) ==> (permit.Some? <==> address in Addresses(bindings))
      ensures KeysMatch(old(Contents())) && permit.Some? ==> InPermitOrder(permit.value)
      ensures forall k :: k in bindings && k.address == address ==> k in Judged(current)
    {
      hide RemovedKeys, ValidPermit, PermitFor, AuthorizedBinding, InPermitOrder, ByKey, PermitOrder, Sorted;
      ghost var before := Contents();
      toStop, toStart := PruneStale(address, current);
      PrunedCurrent(before, Contents(), address, Judged(current), Capacity(), toStop, toStart);
      BucketIsGroup(byTarget, bindings, ByAddress, address);
      hide IndexOf, Addresses;
      var ordered := OrderedBindings(Bucket(byTarget, address));
      NoneOrdered(Bucket(byTarget, address), ordered, address, bindings);
      if |ordered| == 0 { return None, toStop, toStart; }
      var candidate := Permit(address, seq(|ordered|, i requires 0 <= i < |ordered| => ordered[i].capability));
      PermitBuilt(candidate, ordered, Bucket(byTarget, address), address, bindings);
      if KeysMatch(before) { PermitOrdered(candidate, ordered, Bucket(byTarget, address), address, bindings); }
      if !ValidPermit(candidate) { return None, toStop, toStart; }
      permit := Some(candidate);
    }
  }
}
