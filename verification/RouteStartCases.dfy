/** Calls that leave a registered supervisor of their own routes unstarted, although it fits. */
module RouteStartCases {
  import opened Common
  import opened RouteTable
  import opened RouteRegistry
  import opened RouteCases
  import opened RouteStarts
  import WatchReadiness

  predicate Empty(v: View) { v.bindings == map[] && v.watches == map[] && v.deferred == {} && v.minted == 0 }

  lemma ReboundEmpty(v: View, owner: NamespacedName, routes: map<Key, RouteBinding>, capacity: nat)
    requires Empty(v)
    ensures Invariant(v, capacity) && Rebound(v, owner, routes) == v.(bindings := routes)
    ensures Stopped(v, KeysOfOwner(v, owner) - routes.Keys) == {}
  {
    NoAddresses();
    var keys := KeysOfOwner(v, owner) - routes.Keys;
    assert keys == {};
    UnbindNothing(v);
    assert routes + map[] == routes;
  }

  lemma AwaitedOne(w: View, x: RouteBinding)
    requires x.address in w.watches
    ensures Awaited(w, Keyed(x), [w.watches[x.address]])
  {
    hide AddressLess;
    assert Keyed(x)[KeyOf(x)] == x;
    assert Ascending([x.address], Addressed(Keyed(x)));
    assert [x.address][..0] == [];
    assert Present(w.watches, [x.address]) == [w.watches[x.address]];
  }

  // Nothing is registered: the one route's supervisor is.
  lemma InstalledOne(v: View, w: View, x: RouteBinding)
    requires Empty(v) && AuthorizedBinding(x)
    requires w == View(Keyed(x), map[x.address := Supervisor(0, x.address, false)], {}, v.started, 1)
    ensures Next(v, w, Replace(x.owner, Keyed(x)), 1) && Addresses(Keyed(x)) == {x.address}
  {
    hide AuthorizedBinding, AddressLess;
    ReboundEmpty(v, x.owner, Keyed(x), 1);
    hide Rebound;
    assert Addresses(Keyed(x)) == {x.address} by { assert KeyOf(x) in Keyed(x); }
    assert |w.watches| == 1;
  }

  // Every picked address is the caller's own, and yet the call leaves this one's registered supervisor unstarted.
  ghost predicate LeavesOwnUnstarted(v: View, c: Call, e: Effect, a: Address) {
    && Invariant(v, c.capacity) && Completes(v, map[], c, e)
    && a in PickedBy(v, c) && PickedBy(v, c) <= Addresses(c.routes) && a in e.left.watches && !Begun(e, a)
  }

  function Blank(started: bool): View { View(map[], map[], {}, started, 0) }

  // One route, room for one watch, and every wait settles.
  function OneRoute(x: RouteBinding): Call { Call(x.owner, Keyed(x), 1, map[], {}) }

  // Two routes, room for both, the wait at the first address is interrupted, and all bindings are current.
  function TwoRoutes(x: RouteBinding, y: RouteBinding): Call {
    Call(x.owner, Both(x, y), 2, map[x.address := Interrupted], Both(x, y).Keys)
  }

  // A registry that is not started: a route of the caller's own, and no wait that could fail.
  lemma UnstartedRegistry(v: View, x: RouteBinding, none: Gates)
    requires Empty(v) && !v.started && AuthorizedBinding(x) && none == map[]
    ensures exists e :: LeavesOwnUnstarted(v, OneRoute(x), e, x.address)
  {
    hide Next, Awaited, Invariant, Picked, Addresses, Rebound, AuthorizedBinding, KeysOfOwner, Stopped, Known;
    var c, s := OneRoute(x), Supervisor(0, x.address, false);
    var w := View(Keyed(x), map[x.address := s], {}, false, 1);
    InstalledOne(v, w, x);
    AwaitedOne(w, x);
    NothingStopped(v, c, none);
    PickedFromEmpty(v, c, w);
    assert LeavesOwnUnstarted(v, c, Effect(w, [s], w, [], none, {}, false), x.address);
  }

  lemma NothingStopped(v: View, c: Call, none: Gates)
    requires Empty(v) && none == map[]
    ensures Invariant(v, c.capacity) && Known(v, none) && Halted(v, none, GivenUp(v, c)) == none
  {
    ReboundEmpty(v, c.owner, c.routes, c.capacity);
    hide Stopped, Invariant;
  }

  // From nothing, what a replacement watches is what growth picked.
  lemma PickedFromEmpty(v: View, c: Call, w: View)
    requires Empty(v) && Next(v, w, Replace(c.owner, c.routes), c.capacity)
    ensures PickedBy(v, c) == w.watches.Keys
  {
    ReboundEmpty(v, c.owner, c.routes, c.capacity);
    InstalledWatches(v, c, w);
    hide Picked, Replaced, OwnRoutes, Rebound, Invariant;
  }

  // Two routes of one owner, the first address before the second.
  predicate InOrder(x: RouteBinding, y: RouteBinding) {
    AuthorizedBinding(x) && AuthorizedBinding(y) && x.owner == y.owner && AddressLess(x.address, y.address)
  }

  function Both(x: RouteBinding, y: RouteBinding): map<Key, RouteBinding> { map[KeyOf(x) := x, KeyOf(y) := y] }

  function BothWatched(x: RouteBinding, y: RouteBinding): View {
    var watches := map[x.address := Supervisor(0, x.address, false), y.address := Supervisor(1, y.address, false)];
    View(Both(x, y), watches, {}, true, 2)
  }

  lemma BothBound(x: RouteBinding, y: RouteBinding)
    requires InOrder(x, y)
    ensures Addresses(Both(x, y)) == {x.address, y.address} && x.address != y.address
    ensures OwnRoutes(x.owner, Both(x, y)) && |BothWatched(x, y).watches| == 2
  {
    AddressOrder(x.address, y.address);
    hide AuthorizedBinding, AddressLess;
    assert KeyOf(x) in Both(x, y) && KeyOf(y) in Both(x, y);
    var watches := BothWatched(x, y).watches;
    assert watches.Keys == {x.address, y.address} && |watches| == |watches.Keys|;
  }

  lemma BothGrown(m: View, x: RouteBinding, y: RouteBinding)
    requires m == View(Both(x, y), map[], {}, true, 0)
    requires Addresses(Both(x, y)) == {x.address, y.address} && x.address != y.address
    requires |BothWatched(x, y).watches| == 2
    ensures Grown(m, BothWatched(x, y), 2)
  {
    hide AddressLess, Addresses;
  }

  lemma InstalledBoth(v: View, x: RouteBinding, y: RouteBinding)
    requires Empty(v) && v.started && InOrder(x, y)
    ensures Next(v, BothWatched(x, y), Replace(x.owner, Both(x, y)), 2)
  {
    hide InOrder, Grown, Rebound, OwnRoutes, Addresses, Invariant;
    BothBound(x, y);
    ReboundEmpty(v, x.owner, Both(x, y), 2);
    BothGrown(Rebound(v, x.owner, Both(x, y)), x, y);
  }

  lemma AwaitedBoth(x: RouteBinding, y: RouteBinding)
    requires InOrder(x, y)
    ensures var w := BothWatched(x, y);
            Awaited(w, Both(x, y), [w.watches[x.address], w.watches[y.address]])
  {
    AddressOrder(x.address, y.address);
    hide AddressLess;
    var w, addresses := BothWatched(x, y), [x.address, y.address];
    assert KeyOf(x) in Both(x, y) && KeyOf(y) in Both(x, y);
    assert Addressed(Both(x, y)) == {x.address, y.address};
    assert addresses[0] == x.address && addresses[1] == y.address;
    assert Ascending(addresses, Addressed(Both(x, y)));
    assert addresses[..1] == [x.address] && addresses[..1][..0] == [];
    assert Present(w.watches, addresses[..1]) == [w.watches[x.address]];
    assert Present(w.watches, addresses) == [w.watches[x.address]] + [w.watches[y.address]];
  }

  // The first wait is interrupted, so the loop ends there.
  lemma FirstInterrupted(s: Supervisor, t: Supervisor, answers: Answers, none: Gates)
    requires none == map[] && AnswerAt(answers, s.address) == Interrupted
    ensures StartEach(none, [s, t], answers)
            == Starting(map[s.id := WatchReadiness.Gate(true, Some(0), Some(0), true, 1)], {s.id}, true)
  {
    var toWait := [s, t];
    assert toWait[..0] == [] && toWait[..1] == [s] && toWait[..2] == toWait;
    NoneStarted(none, toWait, answers);
    StartsOneMore(none, toWait, answers, 0);
    StaysFailed(none, toWait, answers, 1, 2);
  }

  // All bindings are current: the pruning changes nothing.
  lemma PrunedNothing(w: View, l: Starting, c: Call, e: Effect)
    requires w.bindings.Keys <= c.current && |w.watches| <= c.capacity && Addresses(w.bindings) <= w.watches.Keys
    requires e.left == w && e.toStart == [] && e.gates == l.gates && e.begun == l.begun && l.failed
    ensures Pruned(w, l, c, e)
  {
    hide Ensured, Unbind, Stopped, Outdated, Starts, Addresses, Halted, LaunchAll;
    FullyGrown(w, c.capacity);
    NothingOutdated(w, c, l.gates);
    NoneLaunched(l, e.toStart);
  }

  lemma NothingOutdated(w: View, c: Call, gates: Gates)
    requires w.bindings.Keys <= c.current
    ensures var keys := Outdated(w, c); Unbind(w, keys) == w && Halted(w, gates, keys) == gates
  {
    assert Outdated(w, c) == {};
    UnbindNothing(w);
    hide Outdated, Stopped, Unbind;
    assert Halted(w, gates, {}) == gates;
  }

  lemma FullyGrown(w: View, capacity: nat)
    requires |w.watches| <= capacity && Addresses(w.bindings) <= w.watches.Keys
    ensures Ensured(w, w, capacity) && Starts(w, w, [])
  {
    hide AddressLess, Addresses;
    assert w.watches.Keys - w.watches.Keys == {};
  }

  // The registry is started and has room for both, but the first wait is interrupted.
  lemma FirstWaitInterrupted(v: View, x: RouteBinding, y: RouteBinding, none: Gates)
    requires Empty(v) && v.started && InOrder(x, y) && none == map[]
    ensures exists e :: LeavesOwnUnstarted(v, TwoRoutes(x, y), e, y.address)
  {
    hide Next, Awaited, Invariant, Picked, Addresses, Rebound, KeysOfOwner, Stopped, Known, Pruned, InOrder, StartEach,
      Both, Replaced, OwnRoutes, Halted;
    BothBound(x, y);
    InstalledBoth(v, x, y);
    AwaitedBoth(x, y);
    var c, w := TwoRoutes(x, y), BothWatched(x, y);
    NothingStopped(v, c, none);
    PickedFromEmpty(v, c, w);
    var gates := map[0 := WatchReadiness.Gate(true, Some(0), Some(0), true, 1)];
    var e := Effect(w, [w.watches[x.address], w.watches[y.address]], w, [], gates, {0}, true);
    FirstInterrupted(w.watches[x.address], w.watches[y.address], c.answers, none);
    PrunedNothing(w, Starting(gates, {0}, true), c, e);
    assert LeavesOwnUnstarted(v, c, e, y.address);
  }

  lemma RoutesInOrder()
    ensures InOrder(Route("one", "a", 1), Route("one", "b", 1))
  {
    hide AddressLess, AuthorizedBinding;
    NamespaceOrder();
    RouteAuthorized("one", "a", 1);
    RouteAuthorized("one", "b", 1);
  }

  lemma FirstAuthorized(x: RouteBinding, y: RouteBinding)
    requires InOrder(x, y)
    ensures AuthorizedBinding(x)
  {
  }

  // The first call on an empty registry that has not been started: its only route is the one picked, and no wait
  // fails.
  lemma UnstartedRegistryWitness()
    ensures var x := Route("one", "a", 1); exists e :: LeavesOwnUnstarted(Blank(false), OneRoute(x), e, x.address)
  {
    hide *;
    var x := Route("one", "a", 1);
    RoutesInOrder();
    FirstAuthorized(x, Route("one", "b", 1));
    BlankIsEmpty(false);
    UnstartedRegistry(Blank(false), x, map[]);
  }

  // The first call on an empty started registry with room for both of its routes: the wait for the first is
  // interrupted.
  lemma InterruptedWaitWitness()
    ensures var x, y := Route("one", "a", 1), Route("one", "b", 1);
            exists e :: LeavesOwnUnstarted(Blank(true), TwoRoutes(x, y), e, y.address)
  {
    hide *;
    RoutesInOrder();
    BlankIsEmpty(true);
    FirstWaitInterrupted(Blank(true), Route("one", "a", 1), Route("one", "b", 1), map[]);
  }

  lemma BlankIsEmpty(started: bool)
    ensures Empty(Blank(started)) && Blank(started).started == started
  {
  }
}
