/** When a lease is current, and when its attempt has been cancelled, told from the events of a run alone. */
module FreshnessHistory {
  import opened Common
  import opened Freshness

  // The event tells the tracker something about the identity of the key.
  predicate Touches(x: System, step: Step, key: NamespacedName) {
    match step
    case Acquire(a, _, _) => a in x.attempts && x.attempts[a].key == key
    case Observe(k, _, _, _) => k == key
    case ObserveDelete(k, _) => k == key
    case MarkAbsent(k) => k == key
    case _ => false
  }

  // The event shows the key to exist with this identity, not being deleted.
  predicate Shows(x: System, step: Step, key: NamespacedName, uid: string, generation: int) {
    match step
    case Acquire(a, u, g) => a in x.attempts && x.attempts[a].key == key && u == uid && g == generation
    case Observe(k, u, g, deleting) => k == key && u == uid && g == generation && !deleting
    case _ => false
  }

  // The last of the first n events about the key shows this identity.
  ghost predicate LastShown(run: seq<System>, steps: seq<Step>, n: nat, key: NamespacedName, uid: string,
      generation: int)
    requires n <= |steps| && |run| == |steps| + 1
  {
    exists i :: 0 <= i < n && Shows(run[i], steps[i], key, uid, generation)
                && forall j :: i < j < n ==> !Touches(run[j], steps[j], key)
  }

  function Invalidations(steps: seq<Step>, n: nat): nat
    requires n <= |steps|
  {
    if n == 0 then 0 else Invalidations(steps, n - 1) + (if steps[n - 1].Invalidate? then 1 else 0)
  }

  /* ---------- the identity that is tracked ---------- */

  // The tracker holds this identity for the key, neither deleting nor absent.
  predicate Tracks(s: State, key: NamespacedName, uid: string, generation: int) {
    && key in s.states && s.states[key].uid == uid && s.states[key].generation == generation
    && !s.states[key].deleting && !s.states[key].absent
  }

  ghost predicate EpochsEqual(s: State) { forall k :: k in s.states ==> s.states[k].policyEpoch == s.epoch }

  lemma CurrentMeansTracked(s: State, lease: Lease)
    requires EpochsEqual(s)
    ensures IsLeaseCurrent(s, lease) <==>
            lease.policyEpoch == s.epoch && Tracks(s, lease.key, lease.uid, lease.generation)
  {
  }

  lemma EpochsStay(x: System, step: Step, y: System)
    requires EpochsEqual(x.t) && Next(x, step, y)
    ensures EpochsEqual(y.t) && y.t.epoch == x.t.epoch + (if step.Invalidate? then 1 else 0)
  {
  }

  // After an event about the key the tracker holds an identity exactly when the event shows it; any other event
  // leaves what it holds.
  lemma TracksStep(x: System, step: Step, y: System, key: NamespacedName, uid: string, generation: int)
    requires Inv(x) && Next(x, step, y)
    ensures Tracks(y.t, key, uid, generation) <==>
            if Touches(x, step, key) then Shows(x, step, key, uid, generation) else Tracks(x.t, key, uid, generation)
  {
    if step.Acquire? { NoActiveInside(x, step.a); }
    hide Inv;
  }

  lemma {:induction false} TracksLastShown(run: seq<System>, steps: seq<Step>, n: nat, key: NamespacedName, uid: string,
                                           generation: int)
    requires IsRun(run, steps) && n <= |steps|
    ensures EpochsEqual(run[n].t) && run[n].t.epoch == Invalidations(steps, n)
    ensures Tracks(run[n].t, key, uid, generation) <==> LastShown(run, steps, n, key, uid, generation)
  {
    hide Next;
    if n > 0 {
      TracksLastShown(run, steps, n - 1, key, uid, generation);
      RunInvariant(run, steps, n - 1);
      EpochsStay(run[n - 1], steps[n - 1], run[n]);
      TracksStep(run[n - 1], steps[n - 1], run[n], key, uid, generation);
      LastShownStep(run, steps, n, key, uid, generation);
    }
  }

  lemma LastShownStep(run: seq<System>, steps: seq<Step>, n: nat, key: NamespacedName, uid: string, generation: int)
    requires 0 < n <= |steps| && |run| == |steps| + 1
    ensures LastShown(run, steps, n, key, uid, generation) <==>
            if Touches(run[n - 1], steps[n - 1], key) then Shows(run[n - 1], steps[n - 1], key, uid, generation)
            else LastShown(run, steps, n - 1, key, uid, generation)
  {
    if Shows(run[n - 1], steps[n - 1], key, uid, generation) {
      ShowsTouches(run[n - 1], steps[n - 1], key, uid, generation);
    }
    hide Shows, Touches;
  }

  lemma ShowsTouches(x: System, step: Step, key: NamespacedName, uid: string, generation: int)
    requires Shows(x, step, key, uid, generation)
    ensures Touches(x, step, key)
  {
  }

  /* ---------- the theorems ---------- */

  // In every run a lease is current exactly when it carries the number of invalidations so far and the last event
  // about its key showed its identity.
  lemma LeaseCurrentExactly(run: seq<System>, steps: seq<Step>, n: nat, lease: Lease)
    requires IsRun(run, steps) && n <= |steps|
    ensures IsLeaseCurrent(run[n].t, lease) <==>
            lease.policyEpoch == Invalidations(steps, n)
            && LastShown(run, steps, n, lease.key, lease.uid, lease.generation)
  {
    TracksLastShown(run, steps, n, lease.key, lease.uid, lease.generation);
    CurrentMeansTracked(run[n].t, lease);
  }

  lemma {:induction false} InvalidationsBetween(steps: seq<Step>, m: nat, n: nat)
    requires m <= n <= |steps|
    ensures Invalidations(steps, m) <= Invalidations(steps, n)
    ensures Invalidations(steps, m) == Invalidations(steps, n) <==> forall i :: m <= i < n ==> !steps[i].Invalidate?
  {
    if m < n { InvalidationsBetween(steps, m, n - 1); }
  }

  // A lease that was issued is current exactly when no invalidation followed and the last event about its key showed
  // its identity.
  lemma IssuedCurrentExactly(run: seq<System>, steps: seq<Step>, m: nat, n: nat, a: nat, uid: string, generation: int)
    requires IsRun(run, steps) && m < n <= |steps| && steps[m] == Acquire(a, uid, generation)
    ensures a in run[m].attempts && a in run[m + 1].attempts && run[m + 1].attempts[a].phase.Leased?
    ensures var key, lease := run[m].attempts[a].key, run[m + 1].attempts[a].phase.lease;
            && lease.key == key && lease.uid == uid && lease.generation == generation
            && (IsLeaseCurrent(run[n].t, lease) <==>
                  (forall i :: m < i < n ==> !steps[i].Invalidate?) && LastShown(run, steps, n, key, uid, generation))
  {
    assert Next(run[m], steps[m], run[m + 1]);
    AcquireNeverRefused(run, steps, m, a, uid, generation);
    var lease := run[m + 1].attempts[a].phase.lease;
    TracksLastShown(run, steps, m, lease.key, uid, generation);
    LeaseCurrentExactly(run, steps, n, lease);
    InvalidationsBetween(steps, m, n);
  }

  // The event ends the context of a running attempt with this identity.
  predicate Disturbs(step: Step, key: NamespacedName, uid: string, generation: int) {
    match step
    case Observe(k, u, g, deleting) => k == key && (u != uid || g != generation || deleting)
    case ObserveDelete(k, _) => k == key
    case MarkAbsent(k) => k == key
    case Invalidate => true
    case _ => false
  }

  lemma CancelStep(x: System, step: Step, y: System, a: nat)
    requires Inv(x) && Next(x, step, y) && a in x.attempts && x.attempts[a].phase.Leased?
    requires a in y.attempts && y.attempts[a] == x.attempts[a]
    ensures var lease := x.attempts[a].phase.lease;
            a in y.t.cancelled <==> a in x.t.cancelled || Disturbs(step, lease.key, lease.uid, lease.generation)
  {
  }

  // Once leased, an attempt holds that lease until it ends.
  lemma {:induction false} LeasedOnce(run: seq<System>, steps: seq<Step>, m: nat, n: nat, a: nat, uid: string,
                                      generation: int)
    requires IsRun(run, steps) && m < n <= |steps| && steps[m] == Acquire(a, uid, generation)
    ensures a in run[m].attempts && a in run[m + 1].attempts && run[m + 1].attempts[a].phase.Leased?
    ensures a in run[n].attempts && run[n].attempts[a].key == run[m].attempts[a].key
    ensures var p := run[n].attempts[a].phase;
            (p.Leased? && p == run[m + 1].attempts[a].phase) || p.Ending? || p.Left?
  {
    if n == m + 1 {
      IssuedCurrentExactly(run, steps, m, n, a, uid, generation);
      assert Next(run[m], steps[m], run[n]);
    } else {
      LeasedOnce(run, steps, m, n - 1, a, uid, generation);
      assert Next(run[n - 1], steps[n - 1], run[n]);
    }
  }

  // While an attempt holds its lease, the tracker has cancelled it exactly when, since the lease was issued, its key
  // was observed with another identity or being deleted, was deleted or absent, or the policy was invalidated.
  lemma {:induction false} CancelledExactly(run: seq<System>, steps: seq<Step>, m: nat, n: nat, a: nat, uid: string,
                                            generation: int)
    requires IsRun(run, steps) && m < n <= |steps| && steps[m] == Acquire(a, uid, generation)
    requires a in run[n].attempts && run[n].attempts[a].phase.Leased?
    ensures a in run[m].attempts
    ensures a in run[n].t.cancelled <==>
            exists i :: m < i < n && Disturbs(steps[i], run[m].attempts[a].key, uid, generation)
  {
    hide Inv, Disturbs, IsLeaseCurrent;
    IssuedCurrentExactly(run, steps, m, m + 1, a, uid, generation);
    if n == m + 1 {
      NewLeaseRuns(run, steps, m, a);
    } else {
      LeasedOnce(run, steps, m, n - 1, a, uid, generation);
      LeasedOnce(run, steps, m, n, a, uid, generation);
      RunInvariant(run, steps, n - 1);
      StillLeased(run[n - 1], steps[n - 1], run[n], a);
      CancelledExactly(run, steps, m, n - 1, a, uid, generation);
      CancelStep(run[n - 1], steps[n - 1], run[n], a);
    }
  }

  lemma StillLeased(x: System, step: Step, y: System, a: nat)
    requires Next(x, step, y) && a in x.attempts && a in y.attempts && y.attempts[a].phase.Leased?
    requires x.attempts[a].phase.Leased? || x.attempts[a].phase.Ending? || x.attempts[a].phase.Left?
    ensures y.attempts[a] == x.attempts[a]
  {
  }

  lemma NewLeaseRuns(run: seq<System>, steps: seq<Step>, m: nat, a: nat)
    requires IsRun(run, steps) && m < |steps| && steps[m].Acquire? && steps[m].a == a
    ensures a !in run[m + 1].t.cancelled
  {
    RunInvariant(run, steps, m);
    assert Next(run[m], steps[m], run[m + 1]);
  }
}
