/**
 The freshness tracker: identity-bound leases, one per key, cancelled when the identity or the policy
 changes. The value functions below are the critical sections; the class performs them in place.
 */
module Freshness {
  import opened Common

  datatype Lease = Lease(key: NamespacedName, uid: string, generation: int, policyEpoch: nat)

  // `owner` identifies the attempt whose child context the recorded cancel function ends.
  datatype Active = Active(lease: Lease, owner: nat)
  datatype Tracked = Tracked(uid: string, generation: int, deleting: bool, absent: bool, policyEpoch: nat,
      active: Option<Active>)

  // `cancelled` holds the owners cancelled by the tracker, `released` those whose release function has run.
  datatype State = State(epoch: nat, states: map<NamespacedName, Tracked>, cancelled: set<nat>, released: set<nat>)

  function Entry(s: State, key: NamespacedName): Tracked {
    if key in s.states then s.states[key] else Tracked("", 0, false, false, s.epoch, None)
  }

  function OwnerOf(t: Tracked): set<nat> {
    match t.active case None => {} case Some(a) => {a.owner}
  }

  function Cancelled(s: State, key: NamespacedName, t: Tracked): State {
    s.(states := s.states[key := t.(active := None)], cancelled := s.cancelled + OwnerOf(Entry(s, key)))
  }

  predicate ChangedIdentity(t: Tracked, uid: string, generation: int, deleting: bool, absent: bool) {
    t.uid != uid || t.generation != generation || t.deleting != deleting || t.absent != absent
  }

  function Observed(s: State, key: NamespacedName, uid: string, generation: int, deleting: bool): State {
    var t := Entry(s, key);
    var t' := t.(uid := uid, generation := generation, deleting := deleting, absent := false, policyEpoch := s.epoch);
    if ChangedIdentity(t, uid, generation, deleting, false) then Cancelled(s, key, t')
    else s.(states := s.states[key := t'])
  }

  function ObservedDelete(s: State, key: NamespacedName, uid: string): State {
    var t := Entry(s, key);
    var known := if uid != "" then uid else t.uid;
    Cancelled(s, key, t.(uid := known, deleting := true, absent := true, policyEpoch := s.epoch))
  }

  function MarkedAbsent(s: State, key: NamespacedName): State {
    Cancelled(s, key, Entry(s, key).(deleting := true, absent := true, policyEpoch := s.epoch))
  }

  function ActiveOwners(s: State): set<nat> {
    set k | k in s.states && s.states[k].active.Some? :: s.states[k].active.value.owner
  }

  function InvalidatedAll(s: State): State {
    s.(epoch := s.epoch + 1,
       states := map k | k in s.states :: s.states[k].(active := None, policyEpoch := s.epoch + 1),
       cancelled := s.cancelled + ActiveOwners(s))
  }

  // None when the key already has an active lease; the entry is created either way.
  function Acquired(s: State, key: NamespacedName, uid: string, generation: int, owner: nat): (State, Option<Lease>) {
    var t := Entry(s, key);
    if t.active.Some? then (s.(states := s.states[key := t]), None)
    else
      var lease := Lease(key, uid, generation, s.epoch);
      var held := Tracked(uid, generation, false, false, s.epoch, Some(Active(lease, owner)));
      (s.(states := s.states[key := held]), Some(lease))
  }

  function Released(s: State, lease: Lease, owner: nat): State {
    if owner in s.released then s
    else
      var s1 := s.(released := s.released + {owner});
      if lease.key in s.states && s.states[lease.key].active.Some? && s.states[lease.key].active.value.lease == lease
      then s1.(states := s.states[lease.key := s.states[lease.key].(active := None)])
      else s1
  }

  predicate IsLeaseCurrent(s: State, lease: Lease) {
    && lease.key in s.states
    && var t := s.states[lease.key];
       && t.uid == lease.uid && t.generation == lease.generation && !t.deleting && !t.absent
       && t.policyEpoch == lease.policyEpoch && s.epoch == lease.policyEpoch
  }

  class Tracker {
    var epoch: nat
    var states: map<NamespacedName, Tracked>
    var cancelled: set<nat>
    var released: set<nat>

    ghost function Contents(): State
      reads this
    {
      State(epoch, states, cancelled, released)
    }

    constructor ()
      ensures Contents() == State(0, map[], {}, {})
    {
      epoch, states, cancelled, released := 0, map[], {}, {};
    }

    method EnsureState(key: NamespacedName) returns (t: Tracked)
      modifies this`states
      ensures t == Entry(old(Contents()), key) && states == old(states)[key := t]
    {
      if key !in states {
        states := states[key := Tracked("", 0, false, false, epoch, None)];
      }
      t := states[key];
      assert states == old(states)[key := t];
    }

    method CancelActive(t: Tracked) returns (t': Tracked)
      modifies this`cancelled
      ensures t' == t.(active := None) && cancelled == old(cancelled) + OwnerOf(t)
    {
      t' := t;
      if t.active.Some? {
        cancelled := cancelled + {t.active.value.owner};
        t' := t.(active := None);
      }
    }

    method Observe(key: NamespacedName, uid: string, generation: int, deleting: bool)
      modifies this
      ensures Contents() == Observed(old(Contents()), key, uid, generation, deleting)
    {
      var t := EnsureState(key);
      if ChangedIdentity(t, uid, generation, deleting, false) {
        t := CancelActive(t);
      }
      t := t.(uid := uid, generation := generation, deleting := deleting, absent := false, policyEpoch := epoch);
      states := states[key := t];
    }

    method ObserveDelete(key: NamespacedName, uid: string)
      modifies this
      ensures Contents() == ObservedDelete(old(Contents()), key, uid)
    {
      var t := EnsureState(key);
      t := CancelActive(t);
      if uid != "" { t := t.(uid := uid); }
      t := t.(deleting := true, absent := true, policyEpoch := epoch);
      states := states[key := t];
    }

    method MarkAbsent(key: NamespacedName)
      modifies this
      ensures Contents() == MarkedAbsent(old(Contents()), key)
    {
      var t := EnsureState(key);
      t := CancelActive(t);
      t := t.(absent := true, deleting := true, policyEpoch := epoch);
      states := states[key := t];
    }

    method InvalidateAll() returns (e: nat)
      modifies this
      ensures Contents() == InvalidatedAll(old(Contents())) && e == epoch
    {
      epoch := epoch + 1;
      var todo := states.Keys;
      while todo != {}
        invariant todo <= states.Keys && epoch == old(epoch) + 1 && released == old(released)
        invariant states.Keys == old(states).Keys
        invariant forall k :: k in states ==>
                    states[k] == if k in todo then old(states)[k]
                        else old(states)[k].(active := None, policyEpoch := epoch)
        invariant cancelled == old(cancelled) +
                    set k | k in old(states) && k !in todo && old(states)[k].active.Some? ::
                        old(states)[k].active.value.owner
      {
        var key :| key in todo;
        todo := todo - {key};
        assert states[key] == old(states)[key];
        var t := CancelActive(states[key]);
        states := states[key := t.(policyEpoch := epoch)];
      }
      e := epoch;
    }

    method Acquire(key: NamespacedName, uid: string, generation: int, owner: nat) returns (lease: Option<Lease>)
      modifies this
      ensures (Contents(), lease) == Acquired(old(Contents()), key, uid, generation, owner)
    {
      var t := EnsureState(key);
      if t.active.Some? { return None; }
      var l := Lease(key, uid, generation, epoch);
      states := states[key := Tracked(uid, generation, false, false, epoch, Some(Active(l, owner)))];
      assert states == old(states)[key := states[key]];
      return Some(l);
    }

    method Release(lease: Lease, owner: nat)
      modifies this
      ensures Contents() == Released(old(Contents()), lease, owner)
    {
      if owner in released { return; }
      released := released + {owner};
      if lease.key in states && states[lease.key].active.Some? && states[lease.key].active.value.lease == lease {
        states := states[lease.key := states[lease.key].(active := None)];
      }
    }
  }

  /* ---------- runs: attempts nested inside the per-key execution gate ---------- */

  datatype Phase =
    | Queued                 // waiting for the gate of its key
    | Inside                 // holds the gate, has not acquired a lease
    | Leased(lease: Lease)   // holds the gate and a lease
    | Ending(lease: Lease)   // lease released, gate still held
    | Refused                // Acquire reported an active reconciliation
    | Left

  datatype Attempt = Attempt(key: NamespacedName, phase: Phase)

  datatype System = System(t: State, gate: map<NamespacedName, nat>, attempts: map<nat, Attempt>)

  datatype Step =
    | Arrive(a: nat, key: NamespacedName)
    | Lock(a: nat)
    | Acquire(a: nat, uid: string, generation: int)
    | Release(a: nat)
    | ReleaseAgain(a: nat, lease: Lease)
    | Unlock(a: nat)
    | Observe(key: NamespacedName, uid: string, generation: int, deleting: bool)
    | ObserveDelete(key: NamespacedName, uid: string)
    | MarkAbsent(key: NamespacedName)
    | Invalidate

  predicate HoldsGate(p: Phase) { p.Inside? || p.Leased? || p.Ending? || p.Refused? }

  function Moved(x: System, a: nat, p: Phase): map<nat, Attempt>
    requires a in x.attempts
  {
    x.attempts[a := x.attempts[a].(phase := p)]
  }

  ghost predicate Next(x: System, step: Step, y: System) {
    match step
    case Arrive(a, key) => a !in x.attempts && y == x.(attempts := x.attempts[a := Attempt(key, Queued)])
    case Lock(a) =>
      && a in x.attempts && x.attempts[a].phase.Queued? && x.attempts[a].key !in x.gate
      && y == x.(gate := x.gate[x.attempts[a].key := a], attempts := Moved(x, a, Inside))
    case Acquire(a, uid, generation) =>
      && a in x.attempts && x.attempts[a].phase.Inside?
      && var (t, lease) := Acquired(x.t, x.attempts[a].key, uid, generation, a);
         y == x.(t := t, attempts := Moved(x, a, if lease == None then Refused else Leased(lease.value)))
    case Release(a) =>
      && a in x.attempts && x.attempts[a].phase.Leased?
      && y == x.(t := Released(x.t, x.attempts[a].phase.lease, a),
                 attempts := Moved(x, a, Ending(x.attempts[a].phase.lease)))
    case ReleaseAgain(a, lease) =>
      a in x.attempts && a in x.t.released && y == x.(t := Released(x.t, lease, a))
    case Unlock(a) =>
      && a in x.attempts && HoldsGate(x.attempts[a].phase) && !x.attempts[a].phase.Leased?
      && y == x.(gate := x.gate - {x.attempts[a].key}, attempts := Moved(x, a, Left))
    case Observe(key, uid, generation, deleting) => y == x.(t := Observed(x.t, key, uid, generation, deleting))
    case ObserveDelete(key, uid) => y == x.(t := ObservedDelete(x.t, key, uid))
    case MarkAbsent(key) => y == x.(t := MarkedAbsent(x.t, key))
    case Invalidate => y == x.(t := InvalidatedAll(x.t))
  }

  ghost predicate IsRun(run: seq<System>, steps: seq<Step>) {
    && |run| == |steps| + 1
    && run[0] == System(State(0, map[], {}, {}), map[], map[])
    && forall i :: 0 <= i < |steps| ==> Next(run[i], steps[i], run[i + 1])
  }

  // The gate of a key is held by exactly the attempt inside it.
  ghost predicate GateOk(gate: map<NamespacedName, nat>, attempts: map<nat, Attempt>) {
    && (forall k :: k in gate ==>
         gate[k] in attempts && attempts[gate[k]].key == k && HoldsGate(attempts[gate[k]].phase))
    && (forall a :: a in attempts && HoldsGate(attempts[a].phase) ==>
         attempts[a].key in gate && gate[attempts[a].key] == a)
  }

  // A recorded lease belongs to the leased attempt of its key, is current, and was not cancelled.
  ghost predicate ActiveOk(x: System) {
    forall k :: k in x.t.states && x.t.states[k].active.Some? ==>
      var a := x.t.states[k].active.value;
      && a.lease.key == k && IsLeaseCurrent(x.t, a.lease)
      && a.owner in x.attempts && x.attempts[a.owner] == Attempt(k, Leased(a.lease))
      && a.owner !in x.t.cancelled
  }

  ghost predicate LeasesOk(x: System) {
    && (forall a :: a in x.attempts && x.attempts[a].phase.Leased? ==>
          && x.attempts[a].phase.lease.key == x.attempts[a].key && x.attempts[a].phase.lease.policyEpoch <= x.t.epoch
          && a !in x.t.released
          && (a !in x.t.cancelled ==> x.attempts[a].key in x.t.states &&
                                      x.t.states[x.attempts[a].key].active
                                          == Some(Active(x.attempts[a].phase.lease, a))))
    && (forall a :: a in x.attempts ==> !x.attempts[a].phase.Refused?)
    && (forall a :: a in x.t.cancelled ==>
         a in x.attempts && !x.attempts[a].phase.Inside? && !x.attempts[a].phase.Queued?)
    && (forall a :: a in x.t.released ==>
         a in x.attempts && !x.attempts[a].phase.Inside? && !x.attempts[a].phase.Queued?)
  }

  ghost predicate Inv(x: System) { GateOk(x.gate, x.attempts) && ActiveOk(x) && LeasesOk(x) }

  // While an attempt is inside the gate without a lease, its key has no active lease.
  lemma NoActiveInside(x: System, a: nat)
    requires Inv(x) && a in x.attempts && x.attempts[a].phase.Inside?
    ensures Entry(x.t, x.attempts[a].key).active == None
  {
  }

  lemma AcquireKeeps(x: System, a: nat, uid: string, generation: int, y: System)
    requires Inv(x) && Next(x, Acquire(a, uid, generation), y)
    ensures Inv(y)
  {
    NoActiveInside(x, a);
  }

  lemma ReleaseKeeps(x: System, a: nat, y: System)
    requires Inv(x) && Next(x, Release(a), y)
    ensures Inv(y)
  {
    ReleaseKeepsActive(x, a, y);
    ReleaseKeepsLeases(x, a, y);
    hide ActiveOk, LeasesOk;
  }

  lemma ReleaseKeepsActive(x: System, a: nat, y: System)
    requires Inv(x) && Next(x, Release(a), y)
    ensures ActiveOk(y)
  {
  }

  lemma ReleaseKeepsLeases(x: System, a: nat, y: System)
    requires Inv(x) && Next(x, Release(a), y)
    ensures LeasesOk(y)
  {
  }

  lemma ObserveKeeps(x: System, key: NamespacedName, uid: string, generation: int, deleting: bool, y: System)
    requires Inv(x) && Next(x, Observe(key, uid, generation, deleting), y)
    ensures Inv(y)
  {
    ObserveKeepsActive(x, key, uid, generation, deleting, y);
    ObserveKeepsLeases(x, key, uid, generation, deleting, y);
    hide GateOk, ActiveOk, LeasesOk;
  }

  lemma ObserveKeepsActive(x: System, key: NamespacedName, uid: string, generation: int, deleting: bool, y: System)
    requires Inv(x) && Next(x, Observe(key, uid, generation, deleting), y)
    ensures ActiveOk(y)
  {
    hide GateOk;
  }

  lemma ObserveKeepsLeases(x: System, key: NamespacedName, uid: string, generation: int, deleting: bool, y: System)
    requires Inv(x) && Next(x, Observe(key, uid, generation, deleting), y)
    ensures LeasesOk(y)
  {
    hide GateOk;
  }

  lemma CancelKeeps(x: System, key: NamespacedName, t: Tracked, y: System)
    requires Inv(x) && y == x.(t := Cancelled(x.t, key, t))
    ensures Inv(y)
  {
    hide GateOk;
  }

  lemma InvalidateKeeps(x: System, y: System)
    requires Inv(x) && Next(x, Invalidate, y)
    ensures Inv(y)
  {
    hide GateOk;
    forall k | k in x.t.states && x.t.states[k].active.Some? ensures x.t.states[k].active.value.owner in y.t.cancelled {
    }
  }

  lemma GateKeeps(x: System, step: Step, y: System)
    requires Inv(x) && Next(x, step, y) && (step.Arrive? || step.Lock?)
    ensures Inv(y)
  {
  }

  lemma UnlockKeeps(x: System, a: nat, y: System)
    requires Inv(x) && Next(x, Unlock(a), y)
    ensures Inv(y)
  {
  }

  lemma NextKeeps(x: System, step: Step, y: System)
    requires Inv(x) && Next(x, step, y)
    ensures Inv(y)
  {
    hide Inv;
    match step
    case Acquire(a, uid, generation) => AcquireKeeps(x, a, uid, generation, y);
    case Release(a) => ReleaseKeeps(x, a, y);
    case Observe(key, uid, generation, deleting) => ObserveKeeps(x, key, uid, generation, deleting, y);
    case ObserveDelete(key, uid) =>
      CancelKeeps(x, key, Entry(x.t, key).(uid := if uid != "" then uid else Entry(x.t, key).uid,
                                           deleting := true, absent := true, policyEpoch := x.t.epoch), y);
    case MarkAbsent(key) => CancelKeeps(x, key,
        Entry(x.t, key).(deleting := true, absent := true, policyEpoch := x.t.epoch), y);
    case Invalidate => InvalidateKeeps(x, y);
    case Unlock(a) => UnlockKeeps(x, a, y);
    case ReleaseAgain(a, lease) =>
    case _ => GateKeeps(x, step, y);
  }

  lemma {:induction false} RunInvariant(run: seq<System>, steps: seq<Step>, n: nat)
    requires IsRun(run, steps) && n < |run|
    ensures Inv(run[n])
  {
    if n > 0 {
      RunInvariant(run, steps, n - 1);
      NextKeeps(run[n - 1], steps[n - 1], run[n]);
    }
  }

  /* ---------- the theorems ---------- */

  // With attempts nested in the gate, Acquire never finds an active lease.
  lemma AcquireNeverRefused(run: seq<System>, steps: seq<Step>, n: nat, a: nat, uid: string, generation: int)
    requires IsRun(run, steps) && n < |run|
    requires a in run[n].attempts && run[n].attempts[a].phase.Inside?
    ensures var key := run[n].attempts[a].key;
            Acquired(run[n].t, key, uid, generation, a).1 == Some(Lease(key, uid, generation, run[n].t.epoch))
  {
    RunInvariant(run, steps, n);
    NoActiveInside(run[n], a);
  }

  // Releasing clears no lease but the releasing attempt's own, even though leases are compared by value.
  lemma ReleaseClearsOnlyOwn(run: seq<System>, steps: seq<Step>, n: nat, key: NamespacedName)
    requires IsRun(run, steps) && n < |steps|
    requires steps[n].Release? || steps[n].ReleaseAgain?
    requires key in run[n].t.states && run[n].t.states[key].active.Some?
    requires run[n].t.states[key].active.value.owner != steps[n].a
    ensures key in run[n + 1].t.states && run[n + 1].t.states[key] == run[n].t.states[key]
  {
    RunInvariant(run, steps, n);
    assert Next(run[n], steps[n], run[n + 1]);
  }

  // A recorded active lease is current, held by a running attempt, and its context was not cancelled by the tracker;
  // a running attempt whose context was not cancelled holds a current lease.
  lemma ActiveIsCurrent(run: seq<System>, steps: seq<Step>, n: nat, key: NamespacedName)
    requires IsRun(run, steps) && n < |run| && key in run[n].t.states && run[n].t.states[key].active.Some?
    ensures var a := run[n].t.states[key].active.value;
            && IsLeaseCurrent(run[n].t, a.lease) && a.owner !in run[n].t.cancelled
            && a.owner in run[n].attempts && run[n].attempts[a.owner] == Attempt(key, Leased(a.lease))
  {
    RunInvariant(run, steps, n);
  }

  lemma UncancelledIsCurrent(run: seq<System>, steps: seq<Step>, n: nat, a: nat)
    requires IsRun(run, steps) && n < |run| && a in run[n].attempts && run[n].attempts[a].phase.Leased?
    requires a !in run[n].t.cancelled
    ensures IsLeaseCurrent(run[n].t, run[n].attempts[a].phase.lease)
  {
    RunInvariant(run, steps, n);
    assert run[n].attempts[a].key in run[n].t.states;
  }

  lemma {:induction false} EpochGrows(run: seq<System>, steps: seq<Step>, n: nat, m: nat)
    requires IsRun(run, steps) && n <= m < |run|
    ensures run[n].t.epoch <= run[m].t.epoch
  {
    if n < m {
      EpochGrows(run, steps, n, m - 1);
      assert Next(run[m - 1], steps[m - 1], run[m]);
    }
  }

  // A lease older than a policy invalidation is never current again.
  lemma OldEpochNeverCurrent(run: seq<System>, steps: seq<Step>, n: nat, m: nat, lease: Lease)
    requires IsRun(run, steps) && n < |steps| && steps[n].Invalidate? && n < m < |run|
    requires lease.policyEpoch <= run[n].t.epoch
    ensures !IsLeaseCurrent(run[m].t, lease)
  {
    EpochGrows(run, steps, n + 1, m);
    assert Next(run[n], steps[n], run[n + 1]);
  }

  // Any other staleness is reversible: after an observation of its key a lease is current exactly when the lease's own
  // identity was observed, not being deleted, and no policy invalidation happened since it was issued.
  lemma ReobservationRevives(s: State, lease: Lease, uid: string, generation: int, deleting: bool)
    ensures IsLeaseCurrent(Observed(s, lease.key, uid, generation, deleting), lease) <==>
        uid == lease.uid && generation == lease.generation && !deleting && lease.policyEpoch == s.epoch
  {
  }

  // No lease of a key outlives its deletion or its absence.
  lemma DeletionEnds(s: State, lease: Lease, uid: string)
    ensures !IsLeaseCurrent(ObservedDelete(s, lease.key, uid), lease)
    ensures !IsLeaseCurrent(MarkedAbsent(s, lease.key), lease)
  {
  }

  // From the empty tracker: a lease goes stale, and its attempt is cancelled, when the generation changes; it is
  // current again, and its attempt still cancelled, when the old generation is observed once more.
  lemma GenerationStalenessWitness(k: NamespacedName)
    ensures var first := Observed(State(0, map[], {}, {}), k, "u", 1, false);
            var (s, lease) := Acquired(first, k, "u", 1, 0);
            && lease == Some(Lease(k, "u", 1, 0))
            && var changed := Observed(s, k, "u", 2, false);
               var back := Observed(changed, k, "u", 1, false);
               && IsLeaseCurrent(s, lease.value) && 0 !in s.cancelled
               && !IsLeaseCurrent(changed, lease.value) && 0 in changed.cancelled
               && IsLeaseCurrent(back, lease.value) && 0 in back.cancelled
  {
  }
}
