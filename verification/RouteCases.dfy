/** Where a replacement leaves supervisors out of the ones it waits for, or forgets a recovery: the conditions,
    and registries that meet them. */
module RouteCases {
  import opened Common
  import opened AccessPolicy
  import opened Authorization
  import opened Binder
  import opened Sorting
  import opened RouteTable
  import opened RouteRegistry

  /* ---------- supervisors left out of the waiting ---------- */

  lemma {:induction false} PresentMembers(watches: map<Address, Supervisor>, addresses: seq<Address>, s: Supervisor)
    ensures s in Present(watches, addresses) <==> exists a :: a in addresses && a in watches && watches[a] == s
  {
    if addresses == [] {
    } else {
      var n := |addresses| - 1;
      PresentMembers(watches, addresses[..n], s);
      assert addresses == addresses[..n] + [addresses[n]];
    }
  }

  // A watched supervisor is waited for exactly when its address is among the routes.
  lemma AwaitedMembers(w: View, routes: map<Key, RouteBinding>, toWait: seq<Supervisor>, a: Address)
    requires SupervisorsDistinct(w) && Awaited(w, routes, toWait) && a in w.watches
    ensures w.watches[a] in toWait <==> a in Addressed(routes)
  {
    var addresses :| Ascending(addresses, Addressed(routes)) && toWait == Present(w.watches, addresses);
    PresentMembers(w.watches, addresses, w.watches[a]);
  }

  // The replacement under the lock lists a supervisor it registers among those to wait for exactly when that is for
  // one of its own routes; so it lists every one exactly when the addresses that growth picks are all among its routes.
  lemma NewSupervisorsAwaited(v: View, w: View, owner: NamespacedName, routes: map<Key, RouteBinding>, capacity: nat,
                              toWait: seq<Supervisor>)
    requires Invariant(v, capacity) && OwnRoutes(owner, routes) && Replaced(v, w, owner, routes, capacity)
    requires Awaited(w, routes, toWait)
    ensures var picked := Picked(Rebound(v, owner, routes), capacity);
            && picked <= w.watches.Keys
            && (forall a :: a in picked ==> (w.watches[a] in toWait <==> a in Addresses(routes)))
            && ((forall a :: a in picked ==> w.watches[a] in toWait) <==> picked <= Addresses(routes))
  {
    var m := Rebound(v, owner, routes);
    ReplaceKeeps(v, w, owner, routes, capacity);
    ReboundKeeps(v, owner, routes, capacity);
    AddressedAreAddresses(owner, routes);
    hide Addresses, Picked, OwnRoutes, Awaited, Rebound, Addressed, Grown, KeysMatch, SupervisorsDistinct;
    AwaitedPicked(m, w, routes, capacity, toWait);
  }

  lemma AwaitedPicked(m: View, w: View, routes: map<Key, RouteBinding>, capacity: nat, toWait: seq<Supervisor>)
    requires Grown(m, w, capacity) && |m.watches| <= capacity && SupervisorsDistinct(w)
    requires Awaited(w, routes, toWait) && Addressed(routes) == Addresses(routes)
    ensures Picked(m, capacity) <= w.watches.Keys
    ensures forall a :: a in Picked(m, capacity) ==> (w.watches[a] in toWait <==> a in Addresses(routes))
  {
    hide Addresses, Picked, Awaited, Addressed, Grown, SupervisorsDistinct;
    GrownPicks(m, w, capacity);
    forall a | a in Picked(m, capacity) ensures w.watches[a] in toWait <==> a in Addresses(routes) {
      AwaitedMembers(w, routes, toWait, a);
    }
  }

  /* ---------- concrete registries ---------- */

  function Config(namespace: string): Address { Address(ResourceName("", "v1", "configmaps"), Namespaced, namespace) }

  // A route to the config maps of a namespace, held by an owner at a generation.
  function Route(owner: string, namespace: string, generation: int): RouteBinding {
    var subject := Subject(NamespacedName("apps", owner), "uid", generation, 0);
    var request := Request("source", "", "ConfigMap", namespace, Namespaced);
    var record := RecordFor(subject, request, Unset, Decision(true, Allowed));
    RouteBinding(Config(namespace), "source", subject.key, "uid", generation, subject,
        Capability(subject, request, record))
  }

  function Keyed(b: RouteBinding): map<Key, RouteBinding> { map[KeyOf(b) := b] }

  lemma RouteAuthorized(owner: string, namespace: string, generation: int)
    requires owner != "" && DnsLabel(namespace) && generation > 0
    ensures AuthorizedBinding(Route(owner, namespace, generation))
    ensures OwnRoutes(NamespacedName("apps", owner), Keyed(Route(owner, namespace, generation)))
  {
  }

  lemma NamespaceOrder()
    ensures DnsLabel("a") && DnsLabel("b") && AddressLess(Config("a"), Config("b")) && Config("a") != Config("b")
  {
    var p, q := AddressKey(Config("a")).parts, AddressKey(Config("b")).parts;
    assert p[4] != q[4];
    assert p[1..][1..][1..][1..] == ["a"] && q[1..][1..][1..][1..] == ["b"];
    assert StringLess("a", "b");
  }

  // With room for one watch: the first route's address is watched, the second's deferred.
  function Crowded(x: RouteBinding, y: RouteBinding): View {
    View(map[KeyOf(x) := x, KeyOf(y) := y], map[x.address := Supervisor(0, x.address, false)], {y.address}, true, 1)
  }

  lemma CrowdedKeeps(x: RouteBinding, y: RouteBinding)
    requires AuthorizedBinding(x) && AuthorizedBinding(y) && x.address != y.address
    ensures Invariant(Crowded(x, y), 1) && Addresses(Crowded(x, y).bindings) == {x.address, y.address}
  {
    hide AuthorizedBinding;
    var v := Crowded(x, y);
    assert Addresses(v.bindings) == {x.address, y.address} by {
      assert KeyOf(x) in v.bindings && KeyOf(y) in v.bindings;
    }
    assert |v.watches| == 1;
    assert |{x.address, y.address}| == 2;
  }

  // Filling the place that the first address leaves.
  lemma PlaceTaken(m: View, w: View, y: RouteBinding, recovering: bool)
    requires m.bindings == Keyed(y) && m.watches == map[] && m.minted == 1 && m.started
    requires m.deferred == if recovering then {y.address} else {}
    requires w == View(Keyed(y), map[y.address := Supervisor(1, y.address, recovering)], {}, true, 2)
    ensures Grown(m, w, 1) && Undeferred(m, w) == {} && Addresses(m.bindings) == {y.address}
  {
    hide AddressLess;
    assert Addresses(m.bindings) == {y.address} by { assert KeyOf(y) in m.bindings; }
    assert |w.watches| == 1;
  }

  lemma FirstUnbound(x: RouteBinding, y: RouteBinding)
    requires x.address != y.address && x.owner != y.owner
    ensures Rebound(Crowded(x, y), x.owner, map[]) == View(Keyed(y), map[], {y.address}, true, 1)
  {
    var v := Crowded(x, y);
    var keys := KeysOfOwner(v, x.owner) - {};
    assert keys == {KeyOf(x)};
    assert KeyOf(x) in v.bindings && KeyOf(y) in v.bindings - keys;
    assert v.bindings - keys == Keyed(y);
    assert Gone(v, keys) == {x.address};
    assert map[] + Keyed(y) == Keyed(y);
  }

  lemma BothUnbound(x: RouteBinding, y: RouteBinding, z: RouteBinding)
    requires x.address != y.address && x.owner == y.owner && KeyOf(z) !in {KeyOf(x), KeyOf(y)}
    ensures Rebound(Crowded(x, y), x.owner, Keyed(z)) == View(Keyed(z), map[], {}, true, 1)
  {
    var v := Crowded(x, y);
    var keys := KeysOfOwner(v, x.owner) - Keyed(z).Keys;
    assert keys == {KeyOf(x), KeyOf(y)};
    assert KeyOf(x) in v.bindings && KeyOf(y) in v.bindings;
    assert v.bindings - keys == map[];
    assert Gone(v, keys) == {x.address, y.address};
    assert Keyed(z) + map[] == Keyed(z);
  }

  lemma NothingAwaited(w: View, toWait: seq<Supervisor>)
    requires Awaited(w, map[], toWait)
    ensures toWait == []
  {
    var addresses :| Ascending(addresses, Addressed(map[])) && toWait == Present(w.watches, addresses);
    assert forall i :: 0 <= i < |addresses| ==> addresses[i] in addresses;
  }

  // Emptying the watched address frees its place for the other owner's: its supervisor is registered, its deferral
  // is spent, and nobody is waited for.
  lemma UnstartedWitness()
    ensures var x, y := Route("one", "a", 1), Route("two", "b", 1);
            var v := Crowded(x, y);
            var w := View(Keyed(y), map[y.address := Supervisor(1, y.address, true)], {}, true, 2);
            && Invariant(v, 1) && Next(v, w, Replace(x.owner, map[]), 1)
            && y.address in w.watches && y.address !in v.watches
            && forall toWait :: Awaited(w, map[], toWait) ==> toWait == []
  {
    var x, y := Route("one", "a", 1), Route("two", "b", 1);
    NamespaceOrder();
    RouteAuthorized("one", "a", 1);
    RouteAuthorized("two", "b", 1);
    Unstarted(x, y, map[]);
    hide *;
    forall toWait
        | Awaited(View(Keyed(y), map[y.address := Supervisor(1, y.address, true)], {}, true, 2), map[], toWait)
      ensures toWait == []
    {
      NothingAwaited(View(Keyed(y), map[y.address := Supervisor(1, y.address, true)], {}, true, 2), toWait);
    }
  }

  lemma NoRoutes(owner: NamespacedName, none: map<Key, RouteBinding>)
    requires none == map[]
    ensures OwnRoutes(owner, none) && Addresses(none) == {}
  {
  }

  lemma Unstarted(x: RouteBinding, y: RouteBinding, none: map<Key, RouteBinding>)
    requires AuthorizedBinding(x) && AuthorizedBinding(y) && x.address != y.address && x.owner != y.owner
        && none == map[]
    ensures var v := Crowded(x, y);
            var w := View(Keyed(y), map[y.address := Supervisor(1, y.address, true)], {}, true, 2);
            && Invariant(v, 1) && Next(v, w, Replace(x.owner, none), 1)
            && y.address in w.watches && y.address !in v.watches
  {
    hide AuthorizedBinding;
    var v := Crowded(x, y);
    var w := View(Keyed(y), map[y.address := Supervisor(1, y.address, true)], {}, true, 2);
    CrowdedKeeps(x, y);
    FirstUnbound(x, y);
    PlaceTaken(Rebound(v, x.owner, none), w, y, true);
    NoRoutes(x.owner, none);
    hide Rebound, Grown, Invariant, Keyed, OwnRoutes, Addresses, Crowded;
  }

  // A new generation binds the deferred address anew while it gives up the watched one: the address is bound before
  // and after, but its supervisor starts without a recovery.
  lemma RecoveryLostWitness()
    ensures var x, y, z := Route("one", "a", 1), Route("one", "b", 1), Route("one", "b", 2);
            var v := Crowded(x, y);
            var w := View(Keyed(z), map[y.address := Supervisor(1, y.address, false)], {}, true, 2);
            && Invariant(v, 1) && Next(v, w, Replace(x.owner, Keyed(z)), 1)
            && y.address in v.deferred && y.address in Addresses(v.bindings) && y.address in Addresses(w.bindings)
            && !Remembers(w, y.address)
  {
    var x, y, z := Route("one", "a", 1), Route("one", "b", 1), Route("one", "b", 2);
    NamespaceOrder();
    RouteAuthorized("one", "a", 1);
    RouteAuthorized("one", "b", 1);
    RouteAuthorized("one", "b", 2);
    RecoveryLost(x, y, z);
  }

  lemma RecoveryLost(x: RouteBinding, y: RouteBinding, z: RouteBinding)
    requires AuthorizedBinding(x) && AuthorizedBinding(y) && x.address != y.address && x.owner == y.owner
    requires z.address == y.address && KeyOf(z) != KeyOf(y) && OwnRoutes(x.owner, Keyed(z))
    ensures var v := Crowded(x, y);
            var w := View(Keyed(z), map[y.address := Supervisor(1, y.address, false)], {}, true, 2);
            && Invariant(v, 1) && Next(v, w, Replace(x.owner, Keyed(z)), 1)
            && y.address in v.deferred && y.address in Addresses(v.bindings) && y.address in Addresses(w.bindings)
            && !Remembers(w, y.address)
  {
    hide AuthorizedBinding, OwnRoutes;
    var v := Crowded(x, y);
    var w := View(Keyed(z), map[y.address := Supervisor(1, y.address, false)], {}, true, 2);
    CrowdedKeeps(x, y);
    BothUnbound(x, y, z);
    PlaceTaken(Rebound(v, x.owner, Keyed(z)), w, z, false);
    hide Rebound, Grown, Invariant;
  }
}
