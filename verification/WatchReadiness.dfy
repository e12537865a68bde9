/** Starting, stopping and readying one watch supervisor, and settling one watch establishment,
    under any interleaving. */
module WatchReadiness {
  import opened Common

  /* ---------- the supervisor's flags ---------- */

  // `cancel` and `ready` name the start they belong to; `starts` counts the starts that took effect.
  datatype Gate = Gate(started: bool, cancel: Option<nat>, ready: Option<nat>, firstAttempt: bool, starts: nat)

  function Started(g: Gate): Gate {
    if g.started then g else Gate(true, Some(g.starts), Some(g.starts), true, g.starts + 1)
  }

  function Halted(g: Gate): Gate { Gate(false, None, None, false, g.starts) }

  function Signalled(g: Gate): Gate {
    if !g.firstAttempt then g else g.(firstAttempt := false, ready := None)
  }

  // The ready channel that stopping, or signalling, takes out of the flags in order to close it.
  function TakenByStop(g: Gate): Option<nat> { g.ready }

  function TakenBySignal(g: Gate): Option<nat> { if g.firstAttempt then g.ready else None }

  class Supervisor {
    var started: bool
    var cancel: Option<nat>
    var ready: Option<nat>
    var firstAttempt: bool
    var starts: nat
    var recoveryPending: bool

    function Flags(): Gate
      reads this
    {
      Gate(started, cancel, ready, firstAttempt, starts)
    }

    constructor (recoveryPending: bool)
      ensures Flags() == Gate(false, None, None, false, 0) && this.recoveryPending == recoveryPending
    {
      started, cancel, ready, firstAttempt, starts := false, None, None, false, 0;
      this.recoveryPending := recoveryPending;
    }

    // Returns the channel to wait on; `spawned` says that a new loop runs.
    method StartWithReady() returns (wait: Option<nat>, spawned: bool)
      modifies this
      ensures Flags() == Started(old(Flags())) && recoveryPending == old(recoveryPending)
      ensures wait == ready && spawned == !old(started)
    {
      if started { return ready, false; }
      started := true;
      cancel := Some(starts);
      ready := Some(starts);
      firstAttempt := true;
      starts := starts + 1;
      return ready, true;
    }

    method Stop() returns (close: Option<nat>, cancelled: Option<nat>)
      modifies this
      ensures Flags() == Halted(old(Flags())) && recoveryPending == old(recoveryPending)
      ensures close == TakenByStop(old(Flags())) && cancelled == old(cancel)
    {
      cancelled, cancel := cancel, None;
      started := false;
      firstAttempt := false;
      close, ready := ready, None;
    }

    method SignalReady() returns (close: Option<nat>)
      modifies this
      ensures Flags() == Signalled(old(Flags())) && recoveryPending == old(recoveryPending)
      ensures close == TakenBySignal(old(Flags()))
    {
      if !firstAttempt { return None; }
      firstAttempt := false;
      close, ready := ready, None;
    }

    method MarkRecoveryPending()
      modifies this`recoveryPending
      ensures recoveryPending
    {
      recoveryPending := true;
    }

    method TakeRecoveryPending() returns (pending: bool)
      modifies this`recoveryPending
      ensures pending == old(recoveryPending) && !recoveryPending
    {
      pending := recoveryPending;
      recoveryPending := false;
    }
  }

  // Everyone who may close a channel first takes it out under the lock, and closes it later.
  datatype World = World(gate: Gate, taken: multiset<nat>, closed: multiset<nat>)

  datatype Act = StartLoop | StopLoop | Signal | Close(channel: nat)

  function AsBag(channel: Option<nat>): multiset<nat> {
    match channel case None => multiset{} case Some(c) => multiset{c}
  }

  ghost predicate Next(w: World, w': World, act: Act) {
    match act
    case StartLoop => w' == w.(gate := Started(w.gate))
    case StopLoop => w' == World(Halted(w.gate), w.taken + AsBag(TakenByStop(w.gate)), w.closed)
    case Signal => w' == World(Signalled(w.gate), w.taken + AsBag(TakenBySignal(w.gate)), w.closed)
    case Close(c) => c in w.taken && w' == w.(taken := w.taken - multiset{c}, closed := w.closed + multiset{c})
  }

  ghost predicate Run(ws: seq<World>, acts: seq<Act>) {
    && |ws| == |acts| + 1 && ws[0] == World(Gate(false, None, None, false, 0), multiset{}, multiset{})
    && forall i :: 0 <= i < |acts| ==> Next(ws[i], ws[i + 1], acts[i])
  }

  // In how many places a channel is: still waiting, about to be closed, or closed.
  function Places(w: World, c: nat): nat {
    (if w.gate.ready == Some(c) then 1 else 0) + w.taken[c] + w.closed[c]
  }

  // Each start's channel is in exactly one place, once.
  ghost predicate OnePlace(w: World) {
    && (forall c: nat :: Places(w, c) == if c < w.gate.starts then 1 else 0)
    && (w.gate.ready.Some? <==> w.gate.firstAttempt) && (w.gate.firstAttempt ==> w.gate.started)
  }

  lemma StartKeeps(w: World, w': World)
    requires OnePlace(w) && Next(w, w', StartLoop)
    ensures OnePlace(w')
  {
    var started := w.gate.starts;
    assert Places(w, started) == 0;
    forall c: nat ensures Places(w', c) == if c < w'.gate.starts then 1 else 0 {
      assert Places(w, c) == if c < w.gate.starts then 1 else 0;
    }
  }

  // Taking the waiting channel out moves it, whoever does.
  lemma TakingKeeps(w: World, w': World, c: nat)
    requires w'.taken == w.taken + AsBag(w.gate.ready) && w'.closed == w.closed && w'.gate.ready == None
    ensures Places(w', c) == Places(w, c)
  {
    if w.gate.ready.Some? { assert AsBag(w.gate.ready) == multiset{w.gate.ready.value}; }
  }

  lemma StopKeeps(w: World, w': World)
    requires OnePlace(w) && Next(w, w', StopLoop)
    ensures OnePlace(w')
  {
    hide Places, AsBag;
    forall c: nat ensures Places(w', c) == if c < w'.gate.starts then 1 else 0 { TakingKeeps(w, w', c); }
  }

  lemma SignalKeeps(w: World, w': World)
    requires OnePlace(w) && Next(w, w', Signal)
    ensures OnePlace(w')
  {
    assert !w.gate.firstAttempt ==> AsBag(w.gate.ready) == multiset{};
    hide Places, AsBag;
    forall c: nat ensures Places(w', c) == if c < w'.gate.starts then 1 else 0 {
      if w.gate.firstAttempt {
        TakingKeeps(w, w', c);
      } else {
        assert w' == w;
      }
    }
  }

  lemma CloseKeeps(w: World, w': World, channel: nat)
    requires OnePlace(w) && Next(w, w', Close(channel))
    ensures OnePlace(w')
  {
    forall c: nat ensures Places(w', c) == if c < w'.gate.starts then 1 else 0 {
      assert Places(w, c) == if c < w.gate.starts then 1 else 0;
    }
  }

  lemma NextOnePlace(w: World, w': World, act: Act)
    requires OnePlace(w) && Next(w, w', act)
    ensures OnePlace(w')
  {
    hide OnePlace, Next;
    match act
    case StartLoop => StartKeeps(w, w');
    case StopLoop => StopKeeps(w, w');
    case Signal => SignalKeeps(w, w');
    case Close(c) => CloseKeeps(w, w', c);
  }

  // However starts, stops, signals and timers interleave, no ready channel is closed twice and none is lost.
  lemma {:induction false} ReadyClosedOnce(ws: seq<World>, acts: seq<Act>, n: nat)
    requires Run(ws, acts) && n < |ws|
    ensures OnePlace(ws[n])
    ensures forall c :: ws[n].closed[c] <= 1
    ensures !ws[n].gate.started && ws[n].taken == multiset{} ==>
            forall c :: 0 <= c < ws[n].gate.starts ==> c in ws[n].closed
  {
    if n > 0 {
      hide OnePlace;
      ReadyClosedOnce(ws, acts, n - 1);
      NextOnePlace(ws[n - 1], ws[n], acts[n - 1]);
    } else {
      forall c: nat ensures Places(ws[0], c) == 0 {}
    }
    ClosedOnce(ws[n]);
  }

  lemma ClosedOnce(w: World)
    requires OnePlace(w)
    ensures forall c :: w.closed[c] <= 1
    ensures !w.gate.started && w.taken == multiset{} ==> forall c :: 0 <= c < w.gate.starts ==> c in w.closed
  {
    forall c: nat
      ensures w.closed[c] <= 1
      ensures !w.gate.started && w.taken == multiset{} && c < w.gate.starts ==> c in w.closed
    {
      assert Places(w, c) == if c < w.gate.starts then 1 else 0;
    }
  }

  // A stop or a signal releases whoever waits for the start before it: the channel is out of the flags for good.
  lemma {:induction false} WaitersReleased(ws: seq<World>, acts: seq<Act>, i: nat, j: nat, n: nat)
    requires Run(ws, acts) && i < j < n <= |acts| && acts[i] == StartLoop && !ws[i].gate.started
    requires acts[j] == StopLoop || acts[j] == Signal
    ensures var c := ws[i].gate.starts;
            && ws[n].gate.ready != Some(c) && (c in ws[n].taken || c in ws[n].closed)
            && c < ws[j + 1].gate.starts <= ws[n].gate.starts
            && (ws[n].gate.ready.Some? ==> ws[n].gate.ready.value >= ws[j + 1].gate.starts)
  {
    var c := ws[i].gate.starts;
    ReadyClosedOnce(ws, acts, n);
    if n == j + 1 {
      ReadyClosedOnce(ws, acts, j);
      StartsGrow(ws, acts, i, j);
      assert Next(ws[j], ws[n], acts[j]);
    } else {
      WaitersReleased(ws, acts, i, j, n - 1);
      assert Next(ws[n - 1], ws[n], acts[n - 1]);
    }
    assert Places(ws[n], c) == 1;
  }

  lemma {:induction false} StartsGrow(ws: seq<World>, acts: seq<Act>, i: nat, j: nat)
    requires Run(ws, acts) && i < j <= |acts| && acts[i] == StartLoop && !ws[i].gate.started
    ensures ws[i].gate.starts < ws[j].gate.starts
  {
    assert Next(ws[j - 1], ws[j], acts[j - 1]);
    if j > i + 1 { StartsGrow(ws, acts, i, j - 1); }
  }

  /* ---------- one establishment ---------- */

  // `cancel` says that the transport's cancel function has not been handed out yet.
  datatype Race = Race(settled: bool, timedOut: bool, cancel: bool)

  function TimerFired(r: Race): Race { if r.settled then r else Race(true, true, false) }

  function Settled(r: Race): Race { Race(true, r.timedOut, false) }

  class Establishment {
    var settled: bool
    var timedOut: bool
    var cancel: bool

    function State(): Race
      reads this
    {
      Race(settled, timedOut, cancel)
    }

    constructor ()
      ensures State() == Race(false, false, true)
    {
      settled, timedOut, cancel := false, false, true;
    }

    // The timer's part under the lock; `handed` is the cancel function it then calls.
    method OnTimer() returns (handed: bool)
      modifies this
      ensures State() == TimerFired(old(State())) && handed == (!old(settled) && old(cancel))
    {
      if settled { return false; }
      settled := true;
      timedOut := true;
      handed := cancel;
      cancel := false;
    }

    method Settle() returns (late: bool, handed: bool)
      modifies this
      ensures State() == Settled(old(State()))
      ensures late == (old(settled) && old(timedOut)) && handed == old(cancel)
    {
      if settled {
        late, handed := timedOut, cancel;
        cancel := false;
        return;
      }
      settled := true;
      handed := cancel;
      cancel := false;
      return false, handed;
    }
  }

  datatype Contender = Timer | Loop

  // After these turns at the lock: the state, and how often each side was handed the cancel function.
  datatype Tally = Tally(race: Race, byTimer: nat, byLoop: nat)

  function Contend(turns: seq<Contender>): Tally {
    if turns == [] then Tally(Race(false, false, true), 0, 0)
    else
      var n := |turns| - 1;
      var t := Contend(turns[..n]);
      match turns[n]
      case Timer => Tally(TimerFired(t.race), t.byTimer + (if !t.race.settled && t.race.cancel then 1 else 0), t.byLoop)
      case Loop => Tally(Settled(t.race), t.byTimer, t.byLoop + (if t.race.cancel then 1 else 0))
  }

  // The cancel function is handed out exactly once, to whichever side comes first; and the loop learns that it
  // timed out exactly when that was the timer.
  lemma {:induction false} HandedOutOnce(turns: seq<Contender>)
    requires turns != []
    ensures var t := Contend(turns);
            && t.byTimer + t.byLoop == 1 && t.race.settled && !t.race.cancel
            && (t.byTimer == 1 <==> turns[0] == Timer) && (t.race.timedOut <==> turns[0] == Timer)
  {
    if |turns| > 1 {
      HandedOutOnce(turns[..|turns| - 1]);
    } else {
      assert turns[..0] == [];
    }
  }
}
