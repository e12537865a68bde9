/** A whole call that replaces an owner's routes: installing them, stopping what they leave, and starting and awaiting
    their supervisors one after the other, until a wait is interrupted. Nothing else takes a turn in between. */
module RouteStarts {
  import opened Common
  import opened RouteTable
  import opened RouteReplacement
  import opened RouteRegistry
  import opened RouteCases
  import Freshness
  import WatchReadiness

  type Gate = WatchReadiness.Gate

  // The flags of every supervisor, by its number.
  type Gates = map<nat, Gate>

  function GateOf(gates: Gates, id: nat): Gate {
    if id in gates then gates[id] else WatchReadiness.Gate(false, None, None, false, 0)
  }

  // How waiting for a supervisor ends: its first attempt settles, or a context is done first, or is found to be
  // done when the attempt has settled. A first attempt that settles before the wait begins is answered as settled.
  datatype Answer = Settles | Interrupted | SettlesTooLate

  type Answers = map<Address, Answer>

  function AnswerAt(answers: Answers, a: Address): Answer { if a in answers then answers[a] else Settles }

  /* ---------- stopping, and starting without waiting ---------- */

  function Ids(supervisors: seq<Supervisor>): set<nat> { set s | s in supervisors :: s.id }

  function Halt(gates: Gates, ids: set<nat>): Gates {
    map id | id in gates :: if id in ids then WatchReadiness.Halted(gates[id]) else gates[id]
  }

  // `begun` are the supervisors whose start took effect.
  datatype Starting = Starting(gates: Gates, begun: set<nat>, failed: bool)

  function Launch(l: Starting, id: nat): Starting {
    var gate := GateOf(l.gates, id);
    Starting(l.gates[id := WatchReadiness.Started(gate)], if gate.started then l.begun else l.begun + {id}, l.failed)
  }

  function LaunchAll(l: Starting, toStart: seq<Supervisor>): Starting {
    if toStart == [] then l
    else Launch(LaunchAll(l, toStart[..|toStart| - 1]), toStart[|toStart| - 1].id)
  }

  lemma {:induction false} LaunchesAll(l: Starting, toStart: seq<Supervisor>)
    ensures LaunchAll(l, toStart).failed == l.failed && l.begun <= LaunchAll(l, toStart).begun
    ensures forall id :: id in LaunchAll(l, toStart).begun && id !in l.begun ==> exists s :: s in toStart && s.id == id
    ensures forall s :: s in toStart && !GateOf(l.gates, s.id).started ==> s.id in LaunchAll(l, toStart).begun
    ensures forall id :: GateOf(LaunchAll(l, toStart).gates, id).started ==>
              GateOf(l.gates, id).started || id in LaunchAll(l, toStart).begun
    ensures forall id :: id in LaunchAll(l, toStart).gates ==> id in l.gates || exists s :: s in toStart && s.id == id
  {
    if toStart != [] {
      var n := |toStart| - 1;
      LaunchesAll(l, toStart[..n]);
      assert toStart == toStart[..n] + [toStart[n]];
    }
  }

  /* ---------- starting and waiting ---------- */

  // A supervisor that has no ready channel any more is not waited for.
  function StartOne(l: Starting, s: Supervisor, answers: Answers): Starting {
    var b := Launch(l, s.id);
    var gate := GateOf(b.gates, s.id);
    if gate.ready == None then b
    else
      match AnswerAt(answers, s.address)
      case Settles => b.(gates := b.gates[s.id := WatchReadiness.Signalled(gate)])
      case Interrupted => b.(failed := true)
      case SettlesTooLate => b.(gates := b.gates[s.id := WatchReadiness.Signalled(gate)], failed := true)
  }

  // One supervisor after the other; the first wait that fails ends it.
  function StartEach(gates: Gates, toWait: seq<Supervisor>, answers: Answers): Starting {
    if toWait == [] then Starting(gates, {}, false)
    else
      var n := |toWait| - 1;
      var l := StartEach(gates, toWait[..n], answers);
      if l.failed then l else StartOne(l, toWait[n], answers)
  }

  predicate Fails(gates: Gates, s: Supervisor, answers: Answers) {
    WatchReadiness.Started(GateOf(gates, s.id)).ready.Some? && AnswerAt(answers, s.address) != Settles
  }

  predicate FailsBy(gates: Gates, toWait: seq<Supervisor>, answers: Answers, n: nat)
    requires n <= |toWait|
  {
    exists i :: 0 <= i < n && Fails(gates, toWait[i], answers)
  }

  predicate DistinctIds(s: seq<Supervisor>) { forall i, j :: 0 <= i < j < |s| ==> s[i].id != s[j].id }

  lemma {:induction false} StaysFailed(gates: Gates, toWait: seq<Supervisor>, answers: Answers, n: nat, m: nat)
    requires n <= m <= |toWait| && StartEach(gates, toWait[..n], answers).failed
    ensures StartEach(gates, toWait[..m], answers) == StartEach(gates, toWait[..n], answers)
  {
    if n < m {
      StaysFailed(gates, toWait, answers, n, m - 1);
      assert toWait[..m][..m - 1] == toWait[..m - 1];
    }
  }

  lemma StartOneEffect(l: Starting, s: Supervisor, answers: Answers)
    requires !l.failed
    ensures var r := StartOne(l, s, answers);
            && (r.failed <==> Fails(l.gates, s, answers))
            && r.begun == (if GateOf(l.gates, s.id).started then l.begun else l.begun + {s.id})
            && r.gates.Keys == l.gates.Keys + {s.id}
            && forall id :: id != s.id ==> GateOf(r.gates, id) == GateOf(l.gates, id)
  {
  }

  // A turn is reached exactly when no earlier wait fails, and takes effect unless the supervisor runs already.
  lemma {:induction false} TurnsReached(gates: Gates, toWait: seq<Supervisor>, answers: Answers, n: nat)
    requires DistinctIds(toWait) && n <= |toWait|
    ensures var l := StartEach(gates, toWait[..n], answers);
            && (l.failed <==> FailsBy(gates, toWait, answers, n))
            && (forall j :: n <= j < |toWait| ==> GateOf(l.gates, toWait[j].id) == GateOf(gates, toWait[j].id))
            && (forall j :: n <= j < |toWait| ==> toWait[j].id !in l.begun)
            && (forall j :: 0 <= j < n ==> (toWait[j].id in l.begun <==>
                  !GateOf(gates, toWait[j].id).started && !FailsBy(gates, toWait, answers, j)))
            && l.gates.Keys <= gates.Keys + Ids(toWait) && l.begun <= Ids(toWait)
  {
    if n > 0 {
      TurnsReached(gates, toWait, answers, n - 1);
      assert toWait[..n][..n - 1] == toWait[..n - 1];
      var l := StartEach(gates, toWait[..n - 1], answers);
      if !l.failed { StartOneEffect(l, toWait[n - 1], answers); }
    }
  }

  /* ---------- the order of the waits ---------- */

  lemma {:induction false} PresentOrdered(watches: map<Address, Supervisor>, addresses: seq<Address>)
    requires forall a :: a in watches ==> watches[a].address == a
    requires forall i, j :: 0 <= i < j < |addresses| ==> AddressLess(addresses[i], addresses[j])
    ensures var r := Present(watches, addresses);
            && (forall s :: s in r ==> s.address in addresses && s.address in watches && watches[s.address] == s)
            && (forall i, j :: 0 <= i < j < |r| ==> AddressLess(r[i].address, r[j].address))
  {
    hide AddressLess;
    if addresses != [] {
      var n := |addresses| - 1;
      PresentOrdered(watches, addresses[..n]);
      var r := Present(watches, addresses[..n]);
      forall i | 0 <= i < |r| && addresses[n] in watches ensures AddressLess(r[i].address, addresses[n]) {
        assert r[i] in r;
      }
    }
  }

  // The supervisors waited for: the watched ones of the routes' addresses, in the order of the addresses.
  ghost predicate WaitsFor(w: View, routes: map<Key, RouteBinding>, toWait: seq<Supervisor>) {
    && (forall s :: s in toWait ==>
         s.address in Addresses(routes) && s.address in w.watches && w.watches[s.address] == s)
    && (forall a :: a in Addresses(routes) && a in w.watches ==> w.watches[a] in toWait)
    && (forall i, j :: 0 <= i < j < |toWait| ==> AddressLess(toWait[i].address, toWait[j].address))
  }

  lemma AwaitedOrdered(w: View, routes: map<Key, RouteBinding>, toWait: seq<Supervisor>)
    requires SupervisorsDistinct(w) && Awaited(w, routes, toWait) && Addressed(routes) == Addresses(routes)
    ensures WaitsFor(w, routes, toWait)
  {
    hide Addresses, Addressed, AddressLess;
    var addresses :| Ascending(addresses, Addressed(routes)) && toWait == Present(w.watches, addresses);
    PresentOrdered(w.watches, addresses);
    forall a | a in Addresses(routes) && a in w.watches ensures w.watches[a] in toWait {
      PresentMembers(w.watches, addresses, w.watches[a]);
    }
  }

  lemma WaitsDistinct(w: View, routes: map<Key, RouteBinding>, toWait: seq<Supervisor>)
    requires SupervisorsDistinct(w) && WaitsFor(w, routes, toWait)
    ensures DistinctIds(toWait)
  {
    hide Addresses, AddressLess;
    forall i, j | 0 <= i < j < |toWait| ensures toWait[i].id != toWait[j].id {
      assert toWait[i] in toWait && toWait[j] in toWait;
      AddressOrder(toWait[i].address, toWait[j].address);
    }
  }

  // An own address before this one has a supervisor whose wait fails.
  ghost predicate FailsBefore(w: View, gates: Gates, routes: map<Key, RouteBinding>, answers: Answers, a: Address) {
    exists b :: b in Addresses(routes) && b in w.watches && AddressLess(b, a) && Fails(gates, w.watches[b], answers)
  }

  ghost predicate SomeFails(w: View, gates: Gates, routes: map<Key, RouteBinding>, answers: Answers) {
    exists b :: b in Addresses(routes) && b in w.watches && Fails(gates, w.watches[b], answers)
  }

  lemma EarlierTurns(w: View, gates: Gates, routes: map<Key, RouteBinding>, toWait: seq<Supervisor>, answers: Answers,
                     j: nat)
    requires SupervisorsDistinct(w) && WaitsFor(w, routes, toWait) && j < |toWait|
    ensures FailsBy(gates, toWait, answers, j) <==> FailsBefore(w, gates, routes, answers, toWait[j].address)
  {
    hide Addresses, AddressLess, Fails;
    if FailsBy(gates, toWait, answers, j) {
      var i :| 0 <= i < j && Fails(gates, toWait[i], answers);
      assert toWait[i] in toWait;
    }
    if FailsBefore(w, gates, routes, answers, toWait[j].address) {
      var b :| b in Addresses(routes) && b in w.watches && AddressLess(b, toWait[j].address)
            && Fails(gates, w.watches[b], answers);
      var i :| 0 <= i < |toWait| && toWait[i] == w.watches[b];
      assert toWait[i] in toWait && toWait[i].address == b;
      AddressOrder(toWait[j].address, b);
      assert i < j;
    }
  }

  lemma TurnOf(w: View, gates: Gates, routes: map<Key, RouteBinding>, toWait: seq<Supervisor>, answers: Answers,
               a: Address)
    requires SupervisorsDistinct(w) && WaitsFor(w, routes, toWait) && a in w.watches
    ensures w.watches[a].id in StartEach(gates, toWait, answers).begun <==>
            a in Addresses(routes) && !GateOf(gates, w.watches[a].id).started
            && !FailsBefore(w, gates, routes, answers, a)
  {
    hide Addresses, AddressLess, Fails, FailsBy, FailsBefore, StartEach;
    WaitsDistinct(w, routes, toWait);
    TurnsReached(gates, toWait, answers, |toWait|);
    assert toWait[..|toWait|] == toWait;
    if w.watches[a] in toWait {
      var j :| 0 <= j < |toWait| && toWait[j] == w.watches[a];
      EarlierTurns(w, gates, routes, toWait, answers, j);
    }
  }

  lemma LoopFails(w: View, gates: Gates, routes: map<Key, RouteBinding>, toWait: seq<Supervisor>, answers: Answers)
    requires SupervisorsDistinct(w) && WaitsFor(w, routes, toWait)
    ensures var l := StartEach(gates, toWait, answers);
            && (l.failed <==> SomeFails(w, gates, routes, answers))
            && (forall id :: id in l.begun || id in l.gates ==> id in gates || id < w.minted)
  {
    hide Addresses, AddressLess, Fails, StartEach;
    WaitsDistinct(w, routes, toWait);
    TurnsReached(gates, toWait, answers, |toWait|);
    assert toWait[..|toWait|] == toWait;
    forall s | s in toWait ensures s.id < w.minted {}
    if FailsBy(gates, toWait, answers, |toWait|) {
      var i :| 0 <= i < |toWait| && Fails(gates, toWait[i], answers);
      assert toWait[i] in toWait;
    }
  }

  /* ---------- the whole call ---------- */

  // An accepted replacement: how each wait would end, and which keys are judged current if one is interrupted.
  datatype Call = Call(
    owner: NamespacedName, routes: map<Key, RouteBinding>, capacity: nat, answers: Answers, current: set<Key>)

  // The registry as installed and as left, the supervisors waited for and those started by the pruning, the flags at
  // the end, the numbers of the supervisors the call started, and whether it returns the error of a wait.
  datatype Effect = Effect(
    installed: View, toWait: seq<Supervisor>, left: View, toStart: seq<Supervisor>, gates: Gates, begun: set<nat>,
    interrupted: bool)

  function NumbersOf(supervisors: set<Supervisor>): set<nat> { set s | s in supervisors :: s.id }

  function GivenUp(v: View, c: Call): set<Key> { KeysOfOwner(v, c.owner) - c.routes.Keys }

  function Outdated(w: View, c: Call): set<Key> { KeysOfOwner(w, c.owner) - c.current }

  function Halted(v: View, gates: Gates, keys: set<Key>): Gates { Halt(gates, NumbersOf(Stopped(v, keys))) }

  ghost predicate Completes(v: View, gates: Gates, c: Call, e: Effect) {
    && Next(v, e.installed, Replace(c.owner, c.routes), c.capacity) && Awaited(e.installed, c.routes, e.toWait)
    && var stopped := Halted(v, gates, GivenUp(v, c));
       if !v.started then
         e.left == e.installed && e.toStart == [] && e.gates == stopped && e.begun == {} && !e.interrupted
       else
         var l := StartEach(stopped, e.toWait, c.answers);
         if !l.failed then
           e.left == e.installed && e.toStart == [] && e.gates == l.gates && e.begun == l.begun && !e.interrupted
         else
           && Pruned(e.installed, l, c, e) && e.interrupted
  }

  // After an interrupted wait: the owner's bindings that are not current go, and what takes their room is started.
  ghost predicate Pruned(w: View, l: Starting, c: Call, e: Effect) {
    var keys := Outdated(w, c);
    && Ensured(Unbind(w, keys), e.left, c.capacity) && Starts(Unbind(w, keys), e.left, e.toStart)
    && var r := LaunchAll(Starting(Halted(w, l.gates, keys), l.begun, true), e.toStart);
       e.gates == r.gates && e.begun == r.begun
  }

  // Every supervisor with flags has been registered.
  predicate Known(v: View, gates: Gates) { forall id :: id in gates ==> id < v.minted }

  // The wait at this address would fail: it is watched with an attempt still to settle, or about to be, and the
  // answer is not that it settles.
  ghost predicate WaitFails(v: View, gates: Gates, c: Call, b: Address) {
    var m := Rebound(v, c.owner, c.routes);
    && b in Addresses(c.routes) && AnswerAt(c.answers, b) != Settles
    && (b in Picked(m, c.capacity)
        || (b in m.watches && WatchReadiness.Started(GateOf(gates, m.watches[b].id)).ready.Some?))
  }

  ghost predicate EarlierWaitFails(v: View, gates: Gates, c: Call, a: Address) {
    exists b :: AddressLess(b, a) && WaitFails(v, gates, c, b)
  }

  function PickedBy(v: View, c: Call): set<Address> { Picked(Rebound(v, c.owner, c.routes), c.capacity) }

  // Stopping what a removal takes away leaves the other supervisors' flags alone.
  lemma FlagsKept(v: View, gates: Gates, keys: set<Key>, id: nat)
    requires SupervisorsDistinct(v)
    requires id >= v.minted || exists b :: b in Unbind(v, keys).watches && v.watches[b].id == id
    ensures GateOf(Halted(v, gates, keys), id) == GateOf(gates, id)
  {
    hide Gone;
    forall s | s in Stopped(v, keys) ensures s.id != id {}
  }

  // The wait for an installed supervisor fails exactly when the state before the call says so.
  lemma FailsAt(v: View, gates: Gates, c: Call, w: View, b: Address)
    requires Invariant(v, c.capacity) && Known(v, gates)
    requires OwnRoutes(c.owner, c.routes) && Replaced(v, w, c.owner, c.routes, c.capacity)
    ensures b in Addresses(c.routes) && b in w.watches
            && Fails(Halted(v, gates, GivenUp(v, c)), w.watches[b], c.answers) <==>
            WaitFails(v, gates, c, b)
  {
    hide Halted, Rebound, Picked, Addresses, Replaced, Invariant, OwnRoutes, GateOf;
    InstalledWatches(v, c, w);
    if b in w.watches {
      InstalledGate(v, gates, c, w, b);
      assert w.watches[b].address == b;
    }
  }

  lemma InstalledWatches(v: View, c: Call, w: View)
    requires Invariant(v, c.capacity)
    requires OwnRoutes(c.owner, c.routes) && Replaced(v, w, c.owner, c.routes, c.capacity)
    ensures var m := Rebound(v, c.owner, c.routes);
            && w.watches.Keys == m.watches.Keys + PickedBy(v, c) && PickedBy(v, c) !! m.watches.Keys
            && (forall b :: b in m.watches ==> w.watches[b] == m.watches[b])
    ensures SupervisorsDistinct(w)
  {
    hide Rebound, Picked, KeysMatch, WatchesExact, OwnRoutes, SupervisorsDistinct, NewSupervisor, AddressLess;
    ReboundKeeps(v, c.owner, c.routes, c.capacity);
    ReplaceKeeps(v, w, c.owner, c.routes, c.capacity);
    GrownPicks(Rebound(v, c.owner, c.routes), w, c.capacity);
    PickedUnwatched(Rebound(v, c.owner, c.routes), c.capacity);
  }

  lemma PickedUnwatched(m: View, capacity: nat)
    ensures Picked(m, capacity) !! m.watches.Keys
  {
  }

  lemma InstalledGate(v: View, gates: Gates, c: Call, w: View, b: Address)
    requires Invariant(v, c.capacity) && Known(v, gates) && b in w.watches
    requires OwnRoutes(c.owner, c.routes) && Replaced(v, w, c.owner, c.routes, c.capacity)
    ensures var m := Rebound(v, c.owner, c.routes);
            GateOf(Halted(v, gates, GivenUp(v, c)), w.watches[b].id) ==
            if b in m.watches then GateOf(gates, m.watches[b].id) else WatchReadiness.Gate(false, None, None, false, 0)
  {
    var m := Rebound(v, c.owner, c.routes);
    if b in m.watches {
      assert b in Unbind(v, GivenUp(v, c)).watches;
    } else {
      assert NewSupervisor(m, w, b);
    }
    FlagsKept(v, gates, GivenUp(v, c), w.watches[b].id);
  }

  /* ---------- what the call starts ---------- */

  // On a started registry the supervisors started before any pruning are those of the loop.
  lemma BegunByLoop(v: View, gates: Gates, c: Call, e: Effect, id: nat)
    requires Completes(v, gates, c, e) && v.started && id < e.installed.minted
    ensures id in e.begun <==> id in StartEach(Halted(v, gates, GivenUp(v, c)), e.toWait, c.answers).begun
  {
    hide Next, Awaited, Halted, StartEach;
    var l := StartEach(Halted(v, gates, GivenUp(v, c)), e.toWait, c.answers);
    if l.failed { PruneBegins(e.installed, l, c, e, id); }
  }

  // Pruning starts all of the supervisors it registers, and only those.
  lemma PruneBegins(w: View, l: Starting, c: Call, e: Effect, id: nat)
    requires Pruned(w, l, c, e)
    ensures id < w.minted ==> (id in e.begun <==> id in l.begun)
    ensures id in e.begun && id !in l.begun ==> exists s :: s in e.toStart && s.id == id
    ensures forall s :: s in e.toStart ==> w.minted <= s.id < e.left.minted
  {
    var keys := Outdated(w, c);
    LaunchesAll(Starting(Halted(w, l.gates, keys), l.begun, true), e.toStart);
    forall s | s in e.toStart ensures w.minted <= s.id < e.left.minted {
      assert NewSupervisor(Unbind(w, keys), e.left, s.address);
    }
  }

  lemma PickedStart(v: View, gates: Gates, c: Call, e: Effect, a: Address)
    requires Invariant(v, c.capacity) && Known(v, gates) && Completes(v, gates, c, e) && a in PickedBy(v, c)
    ensures a in e.installed.watches
    ensures e.installed.watches[a].id in e.begun <==>
            v.started && a in Addresses(c.routes) && !EarlierWaitFails(v, gates, c, a)
  {
    InstalledWatches(v, c, e.installed);
    hide Invariant, Known, Rebound, Picked, Addresses, Replaced, OwnRoutes, Awaited, Pruned, Halted, StartEach,
      EarlierWaitFails;
    if v.started {
      BegunByLoop(v, gates, c, e, e.installed.watches[a].id);
      PickedTurn(v, gates, c, e, a);
    }
  }

  lemma PickedTurn(v: View, gates: Gates, c: Call, e: Effect, a: Address)
    requires Invariant(v, c.capacity) && Known(v, gates) && a in PickedBy(v, c) && a in e.installed.watches
    requires Next(v, e.installed, Replace(c.owner, c.routes), c.capacity)
    requires Awaited(e.installed, c.routes, e.toWait) && SupervisorsDistinct(e.installed)
    ensures e.installed.watches[a].id in StartEach(Halted(v, gates, GivenUp(v, c)), e.toWait, c.answers).begun <==>
            a in Addresses(c.routes) && !EarlierWaitFails(v, gates, c, a)
  {
    var stopped := Halted(v, gates, GivenUp(v, c));
    AddressedAreAddresses(c.owner, c.routes);
    AwaitedOrdered(e.installed, c.routes, e.toWait);
    TurnOf(e.installed, stopped, c.routes, e.toWait, c.answers, a);
    InstalledGate(v, gates, c, e.installed, a);
    PickedUnwatched(Rebound(v, c.owner, c.routes), c.capacity);
    EarlierFails(v, gates, c, e.installed, a);
  }

  lemma EarlierFails(v: View, gates: Gates, c: Call, w: View, a: Address)
    requires Invariant(v, c.capacity) && Known(v, gates)
    requires OwnRoutes(c.owner, c.routes) && Replaced(v, w, c.owner, c.routes, c.capacity)
    ensures FailsBefore(w, Halted(v, gates, GivenUp(v, c)), c.routes, c.answers, a) <==>
            EarlierWaitFails(v, gates, c, a)
  {
    hide Halted, Fails, WaitFails, Addresses, AddressLess, Invariant, OwnRoutes, Replaced, Known;
    forall b
      ensures b in Addresses(c.routes) && b in w.watches
              && Fails(Halted(v, gates, GivenUp(v, c)), w.watches[b], c.answers) <==>
              WaitFails(v, gates, c, b)
    {
      FailsAt(v, gates, c, w, b);
    }
  }

  lemma SomeWaitFails(v: View, gates: Gates, c: Call, w: View)
    requires Invariant(v, c.capacity) && Known(v, gates)
    requires OwnRoutes(c.owner, c.routes) && Replaced(v, w, c.owner, c.routes, c.capacity)
    ensures SomeFails(w, Halted(v, gates, GivenUp(v, c)), c.routes, c.answers) <==>
            exists b :: WaitFails(v, gates, c, b)
  {
    hide Halted, Fails, WaitFails, Addresses, Invariant, OwnRoutes, Replaced, Known;
    forall b
      ensures b in Addresses(c.routes) && b in w.watches
              && Fails(Halted(v, gates, GivenUp(v, c)), w.watches[b], c.answers) <==>
              WaitFails(v, gates, c, b)
    {
      FailsAt(v, gates, c, w, b);
    }
  }

  lemma CallInstalls(v: View, gates: Gates, c: Call, e: Effect)
    requires Completes(v, gates, c, e)
    ensures OwnRoutes(c.owner, c.routes) && Replaced(v, e.installed, c.owner, c.routes, c.capacity)
    ensures Awaited(e.installed, c.routes, e.toWait)
  {
    hide OwnRoutes, Replaced, Awaited, Halted, StartEach, Pruned;
  }

  // A call starts a supervisor it registers exactly when the registry was started, the supervisor is for one of its
  // own routes, and no wait before it fails; so it starts them all exactly when there is none, or that is so of each.
  lemma EveryPickedStarted(v: View, gates: Gates, c: Call, e: Effect)
    requires Invariant(v, c.capacity) && Known(v, gates) && Completes(v, gates, c, e)
    ensures Newly(Rebound(v, c.owner, c.routes), e.installed) == PickedBy(v, c)
    ensures forall a :: a in PickedBy(v, c) ==> (Begun(e, a) <==>
              v.started && a in Addresses(c.routes) && !EarlierWaitFails(v, gates, c, a))
    ensures (forall a :: a in PickedBy(v, c) ==> Begun(e, a)) <==>
              PickedBy(v, c) == {}
              || (v.started && PickedBy(v, c) <= Addresses(c.routes)
                  && forall a :: a in PickedBy(v, c) ==> !EarlierWaitFails(v, gates, c, a))
  {
    hide Invariant, Known, Completes, Picked, Addresses, Rebound, EarlierWaitFails, OwnRoutes, Replaced, Awaited,
      SupervisorsDistinct;
    CallInstalls(v, gates, c, e);
    InstalledWatches(v, c, e.installed);
    forall a | a in PickedBy(v, c)
      ensures Begun(e, a) <==> v.started && a in Addresses(c.routes) && !EarlierWaitFails(v, gates, c, a)
    {
      PickedStart(v, gates, c, e, a);
    }
  }

  // The call started the supervisor that it installed for this address.
  predicate Begun(e: Effect, a: Address) { a in e.installed.watches && e.installed.watches[a].id in e.begun }

  // The call returns the error of a wait exactly when the registry was started and some wait fails.
  lemma InterruptedExactly(v: View, gates: Gates, c: Call, e: Effect)
    requires Invariant(v, c.capacity) && Known(v, gates) && Completes(v, gates, c, e)
    ensures e.interrupted <==> v.started && exists b :: WaitFails(v, gates, c, b)
  {
    CallInstalls(v, gates, c, e);
    hide Invariant, Known, Addresses, OwnRoutes, Replaced, Awaited, WaitFails, SupervisorsDistinct, Halted, StartEach,
      Pruned, Next;
    LoopEnds(v, gates, c, e);
    SomeWaitFails(v, gates, c, e.installed);
  }

  lemma LoopEnds(v: View, gates: Gates, c: Call, e: Effect)
    requires Invariant(v, c.capacity) && Known(v, gates) && Completes(v, gates, c, e)
    ensures var l := StartEach(Halted(v, gates, GivenUp(v, c)), e.toWait, c.answers);
            && (l.failed <==> SomeFails(e.installed, Halted(v, gates, GivenUp(v, c)), c.routes, c.answers))
            && Known(e.installed, l.gates)
    ensures v.minted <= e.installed.minted
  {
    CallInstalls(v, gates, c, e);
    MintedGrows(v, c, e.installed);
    hide Completes, Addresses, Addressed, OwnRoutes, Replaced, Awaited, StartEach, SomeFails, Rebound, Stopped;
    ReplaceKeeps(v, e.installed, c.owner, c.routes, c.capacity);
    AddressedAreAddresses(c.owner, c.routes);
    AwaitedOrdered(e.installed, c.routes, e.toWait);
    LoopFails(e.installed, Halted(v, gates, GivenUp(v, c)), c.routes, e.toWait, c.answers);
  }

  lemma MintedGrows(v: View, c: Call, w: View)
    requires Replaced(v, w, c.owner, c.routes, c.capacity)
    ensures v.minted <= w.minted
  {
    hide AddressLess, NewSupervisor, Addresses, Gone, KeysOfOwner;
  }

  // The pruning starts every supervisor that it registers, and a call leaves a state in which calls can begin.
  lemma PrunedStarts(v: View, gates: Gates, c: Call, e: Effect)
    requires Invariant(v, c.capacity) && Known(v, gates) && Completes(v, gates, c, e)
    ensures forall a :: a in e.left.watches && a !in e.installed.watches ==> e.left.watches[a].id in e.begun
    ensures Invariant(e.left, c.capacity) && Known(e.left, e.gates)
  {
    CallInstalls(v, gates, c, e);
    LoopEnds(v, gates, c, e);
    ReplaceKeeps(v, e.installed, c.owner, c.routes, c.capacity);
    hide Invariant, Addresses, OwnRoutes, Replaced, Awaited, StartEach, Pruned, Next, Stopped, WaitFails, SomeFails;
    if e.interrupted {
      PruneKeeps(e.installed, StartEach(Halted(v, gates, GivenUp(v, c)), e.toWait, c.answers), c, e);
    }
  }

  lemma PruneKeeps(w: View, l: Starting, c: Call, e: Effect)
    requires Invariant(w, c.capacity) && Known(w, l.gates) && Pruned(w, l, c, e)
    ensures forall a :: a in e.left.watches && a !in w.watches ==> e.left.watches[a].id in e.begun
    ensures Invariant(e.left, c.capacity) && Known(e.left, e.gates)
  {
    hide Invariant, Ensured, Starts, Unbind, Outdated, Halted, LaunchAll, Known;
    PrunedView(w, l, c, e);
    PruneBegins(w, l, c, e, 0);
    HaltedKnown(w, l.gates, Outdated(w, c));
    AllLaunched(w, Starting(Halted(w, l.gates, Outdated(w, c)), l.begun, true), e);
  }

  lemma HaltedKnown(w: View, gates: Gates, keys: set<Key>)
    requires Known(w, gates)
    ensures Known(w, Halted(w, gates, keys))
  {
    hide Stopped;
  }

  lemma AllLaunched(w: View, from: Starting, e: Effect)
    requires Known(w, from.gates) && w.minted <= e.left.minted
    requires e.gates == LaunchAll(from, e.toStart).gates && e.begun == LaunchAll(from, e.toStart).begun
    requires forall s :: s in e.toStart ==> w.minted <= s.id < e.left.minted
    requires forall a :: a in e.left.watches && a !in w.watches ==> e.left.watches[a] in e.toStart
    ensures forall a :: a in e.left.watches && a !in w.watches ==> e.left.watches[a].id in e.begun
    ensures Known(e.left, e.gates)
  {
    LaunchesAll(from, e.toStart);
    hide LaunchAll;
  }

  lemma PrunedView(w: View, l: Starting, c: Call, e: Effect)
    requires Invariant(w, c.capacity) && Pruned(w, l, c, e)
    ensures Invariant(e.left, c.capacity) && w.minted <= e.left.minted
    ensures forall a :: a in e.left.watches && a !in w.watches ==> e.left.watches[a] in e.toStart
  {
    hide Invariant, Halted, LaunchAll, Gone, AddressLess, NewSupervisor, Addresses;
    assert Next(w, e.left, Remove(Outdated(w, c)), c.capacity);
    NextKeeps(w, e.left, Remove(Outdated(w, c)), c.capacity);
  }

  /* ---------- what runs afterwards ---------- */

  predicate Runs(gates: Gates, id: nat) { GateOf(gates, id).started }

  lemma {:induction false} LaunchedRun(l: Starting, toStart: seq<Supervisor>, id: nat)
    ensures Runs(LaunchAll(l, toStart).gates, id) <==> Runs(l.gates, id) || id in Ids(toStart)
  {
    if toStart != [] {
      var n := |toStart| - 1;
      LaunchedRun(l, toStart[..n], id);
      assert toStart == toStart[..n] + [toStart[n]];
      assert Ids(toStart) == Ids(toStart[..n]) + {toStart[n].id};
    }
  }

  // In the loop exactly the supervisors that it starts come to run.
  lemma {:induction false} LoopRuns(gates: Gates, toWait: seq<Supervisor>, answers: Answers, id: nat)
    ensures var l := StartEach(gates, toWait, answers);
            Runs(l.gates, id) <==> Runs(gates, id) || id in l.begun
  {
    if toWait != [] {
      var n := |toWait| - 1;
      LoopRuns(gates, toWait[..n], answers, id);
      var l := StartEach(gates, toWait[..n], answers);
      if !l.failed { OneRuns(l, toWait[n], answers, id); }
    }
  }

  lemma OneRuns(l: Starting, s: Supervisor, answers: Answers, id: nat)
    ensures var r := StartOne(l, s, answers);
            && (Runs(r.gates, id) <==> Runs(l.gates, id) || id == s.id)
            && r.begun == (if Runs(l.gates, s.id) then l.begun else l.begun + {s.id})
  {
  }

  lemma HaltedRuns(v: View, gates: Gates, keys: set<Key>, id: nat)
    ensures Runs(Halted(v, gates, keys), id) <==> Runs(gates, id) && id !in NumbersOf(Stopped(v, keys))
  {
    hide Stopped;
  }

  // After a call those supervisors run that ran before or were started, except those it stopped for good: with the
  // bindings given up, or with those pruned after an interrupted wait.
  lemma RunsAfterwards(v: View, gates: Gates, c: Call, e: Effect, id: nat)
    requires Completes(v, gates, c, e)
    ensures Runs(e.gates, id) <==>
            || id in Ids(e.toStart)
            || ((id in NumbersOf(Stopped(v, GivenUp(v, c))) ==> id in e.begun) && (Runs(gates, id) || id in e.begun)
                && (e.interrupted ==> id !in NumbersOf(Stopped(e.installed, Outdated(e.installed, c)))))
  {
    hide Next, Awaited, StartEach, Stopped, Outdated, GivenUp, Halted, Runs, Pruned;
    var stopped := Halted(v, gates, GivenUp(v, c));
    var l := StartEach(stopped, e.toWait, c.answers);
    HaltedRuns(v, gates, GivenUp(v, c), id);
    LoopRuns(stopped, e.toWait, c.answers, id);
    if e.interrupted { PruneRuns(e.installed, l, c, e, id); }
  }

  lemma PruneRuns(w: View, l: Starting, c: Call, e: Effect, id: nat)
    requires Pruned(w, l, c, e)
    ensures Runs(e.gates, id) <==>
            (Runs(l.gates, id) && id !in NumbersOf(Stopped(w, Outdated(w, c)))) || id in Ids(e.toStart)
    ensures id !in Ids(e.toStart) ==> (id in e.begun <==> id in l.begun)
  {
    hide Ensured, Starts, Stopped, Outdated, Halted, Runs, LaunchAll;
    var from := Starting(Halted(w, l.gates, Outdated(w, c)), l.begun, true);
    HaltedRuns(w, l.gates, Outdated(w, c), id);
    LaunchedRun(from, e.toStart, id);
    LaunchesAll(from, e.toStart);
  }

  /* ---------- the registry and its supervisors ---------- */

  lemma LaunchesMore(l: Starting, toStart: seq<Supervisor>, i: nat)
    requires i < |toStart|
    ensures LaunchAll(l, toStart[..i + 1]) == Launch(LaunchAll(l, toStart[..i]), toStart[i].id)
  {
    assert toStart[..i + 1][..i] == toStart[..i];
  }

  lemma StartsOneMore(gates: Gates, toWait: seq<Supervisor>, answers: Answers, i: nat)
    requires i < |toWait| && !StartEach(gates, toWait[..i], answers).failed
    ensures StartEach(gates, toWait[..i + 1], answers)
            == StartOne(StartEach(gates, toWait[..i], answers), toWait[i], answers)
  {
    assert toWait[..i + 1][..i] == toWait[..i];
  }

  lemma IndexedBound(byTarget: map<Address, map<Key, RouteBinding>>, bindings: map<Key, RouteBinding>, a: Address)
    requires IndexOf(byTarget, bindings, ByAddress) && a in Addresses(bindings)
    ensures Bucket(byTarget, a) != map[]
  {
    var k :| k in bindings && k.address == a;
    assert k in byTarget[a];
  }

  /** The registry together with the flags of its supervisors. */
  class Fleet {
    const registry: Registry
    var gates: Gates

    // Once the registry is started: the supervisor is still registered and its address bound.
    predicate Current(s: Supervisor)
      reads registry
    {
      registry.started && s.address in registry.watches && registry.watches[s.address] == s
          && Bucket(registry.byTarget, s.address) != map[]
    }

    constructor (registry: Registry)
      ensures this.registry == registry && gates == map[]
    {
      this.registry, gates := registry, map[];
    }

    lemma WatchedAreCurrent(supervisors: seq<Supervisor>)
      requires registry.Valid() && Invariant(registry.Contents(), registry.Capacity()) && registry.started
      requires forall s :: s in supervisors ==> s.address in registry.watches && registry.watches[s.address] == s
      ensures forall s :: s in supervisors ==> Current(s)
    {
      hide IndexOf, Addresses, KeysMatch, SupervisorsDistinct;
      forall s | s in supervisors ensures Current(s) {
        IndexedBound(registry.byTarget, registry.bindings, s.address);
      }
    }

    method StopAll(toStop: set<Supervisor>)
      modifies this
      ensures gates == Halt(old(gates), NumbersOf(toStop))
    {
      gates := map id | id in gates :: if id in NumbersOf(toStop) then WatchReadiness.Halted(gates[id]) else gates[id];
    }

    // Only a current supervisor is started; `took` says that the start took effect.
    method StartSupervisor(s: Supervisor) returns (took: bool)
      modifies this
      ensures took == (Current(s) && !GateOf(old(gates), s.id).started)
      ensures gates == if Current(s) then old(gates)[s.id := WatchReadiness.Started(GateOf(old(gates), s.id))]
                       else old(gates)
    {
      if !Current(s) { return false; }
      var gate := GateOf(gates, s.id);
      gates := gates[s.id := WatchReadiness.Started(gate)];
      return !gate.started;
    }

    method StartAndWait(s: Supervisor, answers: Answers) returns (took: bool, failed: bool)
      modifies this
      ensures took == (Current(s) && !GateOf(old(gates), s.id).started)
      ensures !Current(s) ==> gates == old(gates) && !failed
      ensures Current(s) ==> forall begun ::
                Starting(gates, begun + (if took then {s.id} else {}), failed)
                == StartOne(Starting(old(gates), begun, false), s, answers)
    {
      if !Current(s) { return false, false; }
      took := StartSupervisor(s);
      var gate := GateOf(gates, s.id);
      if gate.ready == None { return took, false; }
      match AnswerAt(answers, s.address)
      case Settles =>
        gates := gates[s.id := WatchReadiness.Signalled(gate)];
        return took, false;
      case Interrupted => return took, true;
      case SettlesTooLate =>
        gates := gates[s.id := WatchReadiness.Signalled(gate)];
        return took, true;
    }

    method StartAll(toStart: seq<Supervisor>, begun: set<nat>, ghost failed: bool) returns (more: set<nat>)
      requires forall s :: s in toStart ==> Current(s)
      modifies this
      ensures Starting(gates, more, failed) == LaunchAll(Starting(old(gates), begun, failed), toStart)
    {
      hide LaunchAll;
      ghost var from := Starting(gates, begun, failed);
      more := begun;
      NoneLaunched(from, toStart);
      for i := 0 to |toStart|
        invariant Starting(gates, more, failed) == LaunchAll(from, toStart[..i])
      {
        LaunchesMore(from, toStart, i);
        var took := StartSupervisor(toStart[i]);
        if took { more := more + {toStart[i].id}; }
      }
      assert toStart[..|toStart|] == toStart;
    }

    // Starts one after the other, until a wait fails.
    method StartAndWaitForEach(toWait: seq<Supervisor>, answers: Answers) returns (begun: set<nat>, failed: bool)
      requires forall s :: s in toWait ==> Current(s)
      modifies this
      ensures Starting(gates, begun, failed) == StartEach(old(gates), toWait, answers)
    {
      hide StartEach, StartOne;
      ghost var from := gates;
      begun := {};
      NoneStarted(from, toWait, answers);
      for i := 0 to |toWait|
        invariant Starting(gates, begun, false) == StartEach(from, toWait[..i], answers)
      {
        StartsOneMore(from, toWait, answers, i);
        ghost var so := begun;
        var took;
        took, failed := StartAndWait(toWait[i], answers);
        if took { begun := begun + {toWait[i].id}; }
        assert so + (if took then {toWait[i].id} else {}) == begun;
        if failed {
          StaysFailed(from, toWait, answers, i + 1, |toWait|);
          assert toWait[..|toWait|] == toWait;
          return;
        }
      }
      assert toWait[..|toWait|] == toWait;
      return begun, false;
    }

    lemma AwaitedAreCurrent(before: View, c: Call, toWait: seq<Supervisor>)
      requires registry.Valid() && registry.started && c.capacity == registry.Capacity()
      requires Invariant(before, c.capacity) && OwnRoutes(c.owner, c.routes)
      requires Replaced(before, registry.Contents(), c.owner, c.routes, c.capacity)
      requires Awaited(registry.Contents(), c.routes, toWait)
      ensures forall s :: s in toWait ==> Current(s)
    {
      hide IndexOf, Replaced, Addresses, OwnRoutes, Awaited, KeysMatch, WatchesExact, SupervisorsDistinct, Current;
      ReplaceKeeps(before, registry.Contents(), c.owner, c.routes, c.capacity);
      AddressedAreAddresses(c.owner, c.routes);
      AwaitedOrdered(registry.Contents(), c.routes, toWait);
      WatchedAreCurrent(toWait);
    }

    lemma GrownAreCurrent(before: View, keys: set<Key>, toStart: seq<Supervisor>)
      requires registry.Valid() && registry.started && Invariant(before, registry.Capacity())
      requires Ensured(Unbind(before, keys), registry.Contents(), registry.Capacity())
      requires Starts(Unbind(before, keys), registry.Contents(), toStart)
      ensures forall s :: s in toStart ==> Current(s)
    {
      hide IndexOf, Invariant, Unbind, Ensured, Current;
      NextKeeps(before, registry.Contents(), Remove(keys), registry.Capacity());
      WatchedAreCurrent(toStart);
    }

    // The pruning of a started registry after a wait has failed, with the supervisors started so far.
    method PruneStaleOwner(ghost c: Call, owner: NamespacedName, current: set<Key>, begun: set<nat>)
      returns (more: set<nat>, ghost toStart: seq<Supervisor>)
      requires registry.Valid() && registry.started && Invariant(registry.Contents(), registry.Capacity())
      requires c.owner == owner && c.current == current && c.capacity == registry.Capacity()
      modifies this, registry
      ensures registry.Valid()
      ensures Pruned(old(registry.Contents()), Starting(old(gates), begun, true), c,
                     Effect(old(registry.Contents()), [], registry.Contents(), toStart, gates, more, true))
    {
      hide IndexOf, Invariant, Unbind, Ensured, Starts, Stopped, Gone, LaunchAll, KeysOfOwner;
      ghost var before, flags := registry.Contents(), gates;
      assert registry.Judged(current) == current;
      var toStop, started := registry.PruneStaleOwner(owner, current);
      toStart := started;
      SameStarted(before, Outdated(before, c), registry.Contents(), c.capacity);
      GrownAreCurrent(before, Outdated(before, c), started);
      StopAll(toStop);
      assert gates == Halted(before, flags, Outdated(before, c));
      more := StartAll(started, begun, true);
    }

    // The whole call; the currency of the lease and of the bindings, and the end of every wait, are answers.
    method ReplaceRoutes(lease: Freshness.Lease, routes: seq<RouteBinding>, currentBefore: bool, currentLocked: bool,
                         answers: Answers, current: set<Key>)
      returns (err: Option<RouteError>, interrupted: bool, begun: set<nat>, ghost e: Effect)
      requires registry.Valid() && Invariant(registry.Contents(), registry.Capacity())
      modifies this, registry
      ensures registry.Valid()
      ensures err == if registry.hasTracker && !currentBefore then Some(StaleLease)
                     else if RoutesIssue(lease, routes, |routes|).Some? then RoutesIssue(lease, routes, |routes|)
                     else if registry.hasTracker && !currentLocked then Some(StaleLease)
                     else None
      ensures err.Some? ==> registry.Contents() == old(registry.Contents()) && gates == old(gates) && !interrupted
                            && begun == {}
      ensures err == None ==>
                && e.left == registry.Contents() && e.gates == gates && e.begun == begun && e.interrupted == interrupted
                && Completes(old(registry.Contents()), old(gates),
                             Call(lease.key, RouteMap(routes), registry.Capacity(), answers, current), e)
                && OwnedAsGiven(e.installed.bindings, lease, routes)
    {
      hide IndexOf, Invariant, OwnRoutes, Replaced, Awaited, Stopped, KeysOfOwner, RouteMap, RoutesIssue, StartEach,
        Pruned, KeysMatch, OwnedAsGiven;
      var toStop, toWait;
      ghost var before, flags := registry.Contents(), gates;
      InvariantMatches(before, registry.Capacity());
      err, toStop, toWait := registry.Replace(lease, routes, currentBefore, currentLocked);
      interrupted, begun := false, {};
      ghost var installed := registry.Contents();
      e := Effect(installed, toWait, installed, [], gates, {}, false);
      if err.Some? { return; }
      ghost var c := Call(lease.key, RouteMap(routes), registry.Capacity(), answers, current);
      SameStartedReplaced(before, installed, c);
      StopAll(toStop);
      assert gates == Halted(before, flags, GivenUp(before, c));
      e := e.(gates := gates);
      if !registry.started { return; }
      AwaitedAreCurrent(before, c, toWait);
      begun, interrupted := StartAndWaitForEach(toWait, answers);
      e := e.(gates := gates, begun := begun);
      if !interrupted { return; }
      ReplaceKeeps(before, installed, c.owner, c.routes, c.capacity);
      ghost var l := Starting(gates, begun, true);
      ghost var toStart;
      begun, toStart := PruneStaleOwner(c, lease.key, current, begun);
      e := Effect(installed, toWait, registry.Contents(), toStart, gates, begun, true);
      PrunedAlike(installed, l, c, Effect(installed, [], e.left, toStart, gates, begun, true), e);
    }
  }

  lemma InvariantMatches(v: View, capacity: nat)
    requires Invariant(v, capacity)
    ensures KeysMatch(v)
  {
  }

  lemma SameStarted(w: View, keys: set<Key>, left: View, capacity: nat)
    requires Ensured(Unbind(w, keys), left, capacity)
    ensures left.started == w.started
  {
  }

  lemma SameStartedReplaced(v: View, w: View, c: Call)
    requires Replaced(v, w, c.owner, c.routes, c.capacity)
    ensures w.started == v.started
  {
    hide AddressLess, NewSupervisor, Addresses, Gone, KeysOfOwner;
  }

  lemma PrunedAlike(w: View, l: Starting, c: Call, d: Effect, e: Effect)
    requires Pruned(w, l, c, d) && e == d.(toWait := e.toWait)
    ensures Pruned(w, l, c, e)
  {
    hide Ensured, Starts, Unbind, LaunchAll, Halted;
  }

  lemma NoneLaunched(l: Starting, toStart: seq<Supervisor>)
    ensures LaunchAll(l, toStart[..0]) == l
  {
  }

  lemma NoneStarted(gates: Gates, toWait: seq<Supervisor>, answers: Answers)
    ensures StartEach(gates, toWait[..0], answers) == Starting(gates, {}, false)
  {
  }
}
