/** The watch supervisor's loop: when it signals, recovers, consumes and releases. */
module WatchLoop {
  import opened Common
  import opened WatchReadiness

  datatype WatchError = WatchError(expired: bool, forbidden: bool)

  datatype Delivery = Change(version: string) | Bookmark(version: string) | Unknown(version: string)
                    | ErrorEvent(version: string, error: WatchError)

  // The stream's deliveries until it closes, or until the context ends.
  datatype Stream = Stream(deliveries: seq<Delivery>, interrupted: bool)

  // The environment of one iteration: the context's liveness and the permits at their checks, the watcher's
  // reply, whether the establishment timer came first, and whether the backoff was waited out.
  datatype Turn = Turn(
    live: bool, permit: bool, error: Option<WatchError>, stream: Option<Stream>, timedOut: bool,
    liveStream: bool, registered: bool, liveAfter: bool, permitAfter: bool, waited: bool)

  datatype Event =
    | Permitted | Resume(version: string) | Asked(attempt: nat) | Opened(stream: nat) | Ready | RouteEvent
    | Consumed(consumed: nat) | Released(transport: nat) | TimerReleased(expired: nat) | StreamStopped(stopped: nat)
    | RecordedForbidden

  // The loop's variables, and its history.
  datatype Vars = Vars(recovery: bool, version: string, attempt: nat, events: seq<Event>)

  datatype Progress = Again(next: Vars) | Done(last: Vars)

  function Log(v: Vars, events: seq<Event>): Vars { v.(events := v.events + events) }

  const CONTEXT_ENDED := WatchError(false, false)
  const NO_STREAM := WatchError(false, false)
  const DEADLINE_EXCEEDED := WatchError(false, false)

  datatype Reading = Reading(vars: Vars, error: Option<WatchError>)

  function Consume(v: Vars, deliveries: seq<Delivery>, interrupted: bool): Reading
    decreases |deliveries|
  {
    if deliveries == [] then Reading(v, if interrupted then Some(CONTEXT_ENDED) else None)
    else
      var d := deliveries[0];
      var u := v.(version := if d.version != "" then d.version else v.version);
      match d
      case Change(_) => Consume(Log(u, [RouteEvent]), deliveries[1..], interrupted)
      case Bookmark(_) => Consume(u, deliveries[1..], interrupted)
      case Unknown(_) => Consume(u, deliveries[1..], interrupted)
      case ErrorEvent(_, error) => Reading(u, Some(error))
  }

  function Opening(attempt: nat, t: Turn): seq<Event> {
    [Asked(attempt)] + (if t.stream.Some? then [Opened(attempt)] else [])
    + (if t.timedOut then [TimerReleased(attempt)] else [])
  }

  function Failure(t: Turn): Option<WatchError> {
    if t.timedOut && t.error.None? then Some(DEADLINE_EXCEEDED) else t.error
  }

  function Evidence(t: Turn): seq<Event> {
    if Failure(t).Some? && Failure(t).value.forbidden then [RecordedForbidden] else []
  }

  function Step(v: Vars, t: Turn): Progress {
    if !t.live then Done(v)
    else if !t.permit then Done(Log(v, [Ready]))
    else
      var asked := Log(v, [Permitted, Resume(v.version)] + Opening(v.attempt, t) + Evidence(t));
      if Failure(t).None? && t.stream.Some? then Streamed(Log(asked, [Ready]), t)
      else Failed(asked, t)
  }

  function Streamed(v: Vars, t: Turn): Progress
    requires t.stream.Some?
  {
    if !t.liveStream || !t.registered then Done(Log(v, [Released(v.attempt), StreamStopped(v.attempt)]))
    else
      var before := if v.recovery then Log(v, [RouteEvent]) else v;
      var r := Consume(Log(before.(recovery := false), [Consumed(v.attempt)]), t.stream.value.deliveries,
          t.stream.value.interrupted);
      After(Log(r.vars.(recovery := true), [Released(v.attempt), StreamStopped(v.attempt)]), r.error, t)
  }

  function Failed(v: Vars, t: Turn): Progress {
    var events := (if t.timedOut then [] else [Released(v.attempt)]) + [Ready]
                  + (if t.stream.Some? then [StreamStopped(v.attempt)] else []);
    After(Log(v.(recovery := true), events), Some(if Failure(t).Some? then Failure(t).value else NO_STREAM), t)
  }

  function After(v: Vars, error: Option<WatchError>, t: Turn): Progress {
    if !t.liveAfter then Done(v)
    else
      var told := if error.Some? then Log(v, [RouteEvent]) else v;
      var reset := if error.Some? && error.value.expired then told.(version := "") else told;
      if !t.permitAfter || !t.waited then Done(reset) else Again(reset.(attempt := reset.attempt + 1))
  }

  function RunFrom(v: Vars, turns: seq<Turn>): Vars
    decreases |turns|
  {
    if turns == [] then v
    else match Step(v, turns[0])
      case Done(last) => last
      case Again(next) => RunFrom(next, turns[1..])
  }

  // What a loop does from its start, with the recovery flag the supervisor was built with.
  function History(deferred: bool, turns: seq<Turn>): seq<Event> {
    RunFrom(Vars(deferred, "", 0, []), turns).events
  }

  /* ---------- the loop ---------- */

  class Loop {
    const supervisor: Supervisor
    var version: string
    var events: seq<Event>

    constructor (supervisor: Supervisor)
      ensures this.supervisor == supervisor && version == "" && events == []
    {
      this.supervisor := supervisor;
      version, events := "", [];
    }

    function Value(attempt: nat): Vars
      reads this, supervisor
    {
      Vars(supervisor.recoveryPending, version, attempt, events)
    }

    method ConsumeStream(stream: Stream, ghost attempt: nat) returns (error: Option<WatchError>)
      modifies this
      ensures var r := Consume(old(Value(attempt)), stream.deliveries, stream.interrupted);
              r.vars == Value(attempt) && r.error == error
    {
      ghost var start := Value(attempt);
      for i := 0 to |stream.deliveries|
        invariant Consume(Value(attempt), stream.deliveries[i..], stream.interrupted)
               == Consume(start, stream.deliveries, stream.interrupted)
      {
        var d := stream.deliveries[i];
        assert stream.deliveries[i..][0] == d && stream.deliveries[i..][1..] == stream.deliveries[i + 1..];
        if d.version != "" { version := d.version; }
        match d
        case Change(_) => events := events + [RouteEvent];
        case Bookmark(_) =>
        case Unknown(_) =>
        case ErrorEvent(_, e) => return Some(e);
      }
      return if stream.interrupted then Some(CONTEXT_ENDED) else None;
    }

    ghost predicate Reached(p: Progress, again: bool, attempt: nat)
      reads this, supervisor
    {
      match p
      case Again(next) => again && Value(attempt + 1) == next
      case Done(last) => !again && Value(attempt) == last
    }

    // The end of an iteration: report an error, forget an expired version, and go on while permitted.
    method Finish(error: Option<WatchError>, t: Turn, ghost attempt: nat) returns (again: bool)
      modifies this
      ensures Reached(After(old(Value(attempt)), error, t), again, attempt)
    {
      if !t.liveAfter { return false; }
      if error.Some? { events := events + [RouteEvent]; }
      if error.Some? && error.value.expired { version := ""; }
      if !t.permitAfter { return false; }
      return t.waited;
    }

    method OnStream(stream: Stream, t: Turn, attempt: nat) returns (again: bool)
      requires t.stream == Some(stream)
      modifies this, supervisor
      ensures Reached(Streamed(old(Value(attempt)), t), again, attempt)
    {
      hide Consume, After;
      if !t.liveStream || !t.registered {
        events := events + [Released(attempt), StreamStopped(attempt)];
        return false;
      }
      var pending := supervisor.TakeRecoveryPending();
      if pending { events := events + [RouteEvent]; }
      events := events + [Consumed(attempt)];
      var error := ConsumeStream(stream, attempt);
      events := events + [Released(attempt), StreamStopped(attempt)];
      supervisor.MarkRecoveryPending();
      again := Finish(error, t, attempt);
    }

    method OnFailure(error: Option<WatchError>, t: Turn, attempt: nat) returns (again: bool)
      requires error == Failure(t)
      modifies this, supervisor
      ensures Reached(Failed(old(Value(attempt)), t), again, attempt)
    {
      hide After;
      var _ := supervisor.SignalReady();
      events := events + ((if t.timedOut then [] else [Released(attempt)]) + [Ready]
                          + (if t.stream.Some? then [StreamStopped(attempt)] else []));
      supervisor.MarkRecoveryPending();
      again := Finish(Some(if error.Some? then error.value else NO_STREAM), t, attempt);
    }

    method Iterate(t: Turn, attempt: nat) returns (again: bool)
      modifies this, supervisor
      ensures Reached(Step(old(Value(attempt)), t), again, attempt)
    {
      hide Streamed, After, Opening, Evidence;
      if !t.live { return false; }
      if !t.permit {
        var _ := supervisor.SignalReady();
        events := events + [Ready];
        return false;
      }
      events := events + ([Permitted, Resume(version)] + Opening(attempt, t) + Evidence(t));
      var error := t.error;
      if t.timedOut {
        supervisor.MarkRecoveryPending();
        if error.None? { error := Some(DEADLINE_EXCEEDED); }
      }
      if error.None? && t.stream.Some? {
        var _ := supervisor.SignalReady();
        events := events + [Ready];
        again := OnStream(t.stream.value, t, attempt);
      } else {
        again := OnFailure(error, t, attempt);
      }
    }

    method Run(turns: seq<Turn>)
      requires version == "" && events == []
      modifies this, supervisor
      ensures events == History(old(supervisor.recoveryPending), turns)
    {
      hide Step;
      ghost var start := Value(0);
      for attempt := 0 to |turns|
        invariant RunFrom(Value(attempt), turns[attempt..]) == RunFrom(start, turns)
      {
        assert turns[attempt..][0] == turns[attempt] && turns[attempt..][1..] == turns[attempt + 1..];
        var again := Iterate(turns[attempt], attempt);
        if !again { return; }
      }
    }
  }

  /* ---------- recovery ---------- */

  // Consumption of each stream directly follows its opening; a route event stands between the two exactly when
  // a recovery was pending: from the second iteration on always, and at first when the address was deferred.
  ghost predicate Recovers(deferred: bool, events: seq<Event>) {
    forall i :: 0 <= i < |events| && events[i].Consumed? ==> RecoversAt(deferred, events, i)
  }

  predicate RecoversAt(deferred: bool, events: seq<Event>, i: nat)
    requires i < |events| && events[i].Consumed?
  {
    var n := events[i].consumed;
    if n > 0 || deferred
    then i >= 3 && events[i - 3..i] == [Opened(n), Ready, RouteEvent]
    else i >= 2 && events[i - 2..i] == [Opened(n), Ready]
  }

  lemma RecoversAtExtends(deferred: bool, events: seq<Event>, more: seq<Event>, i: nat)
    requires i < |events| && events[i].Consumed? && RecoversAt(deferred, events, i)
    ensures RecoversAt(deferred, events + more, i)
  {
    if i >= 3 { assert (events + more)[i - 3..i] == events[i - 3..i]; }
    if i >= 2 { assert (events + more)[i - 2..i] == events[i - 2..i]; }
  }

  // Extending a history by events that hold no consumption keeps the property.
  lemma RecoversMore(deferred: bool, events: seq<Event>, more: seq<Event>)
    requires Recovers(deferred, events) && forall j :: 0 <= j < |more| ==> !more[j].Consumed?
    ensures Recovers(deferred, events + more)
  {
    hide RecoversAt;
    forall i | 0 <= i < |events + more| && (events + more)[i].Consumed? ensures RecoversAt(deferred, events + more, i) {
      RecoversAtExtends(deferred, events, more, i);
    }
  }

  lemma RecoversConsumed(deferred: bool, events: seq<Event>, n: nat, pending: bool)
    requires Recovers(deferred, events) && |events| >= 2 && events[|events| - 2..] == [Opened(n), Ready]
    requires pending == (n > 0 || deferred)
    ensures Recovers(deferred, events + (if pending then [RouteEvent] else []) + [Consumed(n)])
  {
    var told := events + (if pending then [RouteEvent] else []);
    RecoversMore(deferred, events, if pending then [RouteEvent] else []);
    ConsumedNow(deferred, events, n, pending);
    hide RecoversAt;
    var all := told + [Consumed(n)];
    forall i | 0 <= i < |all| && all[i].Consumed? ensures RecoversAt(deferred, all, i) {
      if i < |told| { RecoversAtExtends(deferred, told, [Consumed(n)], i); }
    }
  }

  lemma ConsumedNow(deferred: bool, events: seq<Event>, n: nat, pending: bool)
    requires |events| >= 2 && events[|events| - 2..] == [Opened(n), Ready] && pending == (n > 0 || deferred)
    ensures var told := events + (if pending then [RouteEvent] else []);
            RecoversAt(deferred, told + [Consumed(n)], |told|)
  {
    assert events[|events| - 2] == Opened(n) && events[|events| - 1] == Ready;
  }

  lemma {:induction false} ConsumeTells(v: Vars, deliveries: seq<Delivery>, interrupted: bool)
    ensures var r := Consume(v, deliveries, interrupted);
            && r.vars.attempt == v.attempt && r.vars.recovery == v.recovery && |v.events| <= |r.vars.events|
            && r.vars.events[..|v.events|] == v.events
            && forall j :: |v.events| <= j < |r.vars.events| ==> r.vars.events[j] == RouteEvent
    decreases |deliveries|
  {
    if deliveries != [] && !deliveries[0].ErrorEvent? {
      var d := deliveries[0];
      var u := v.(version := if d.version != "" then d.version else v.version);
      var next := if d.Change? then Log(u, [RouteEvent]) else u;
      ConsumeTells(next, deliveries[1..], interrupted);
      var r := Consume(next, deliveries[1..], interrupted);
      assert next.events[..|v.events|] == v.events;
      assert r.vars.events[..|v.events|] == r.vars.events[..|next.events|][..|v.events|];
    }
  }

  ghost predicate Pending(deferred: bool, v: Vars) {
    v.recovery == (v.attempt > 0 || deferred)
  }

  lemma EndsInTwo(before: seq<Event>, a: Event, b: Event)
    ensures var all := before + [a, b]; all[|all| - 2..] == [a, b]
  {}

  lemma StepRecovers(deferred: bool, v: Vars, t: Turn)
    requires Recovers(deferred, v.events) && Pending(deferred, v)
    ensures match Step(v, t)
            case Again(next) => Recovers(deferred, next.events) && Pending(deferred, next)
            case Done(last) => Recovers(deferred, last.events)
  {
    hide Recovers;
    if !t.live {
    } else if !t.permit {
      RecoversMore(deferred, v.events, [Ready]);
    } else {
      var asking := [Permitted, Resume(v.version)] + Opening(v.attempt, t) + Evidence(t);
      RecoversMore(deferred, v.events, asking);
      var asked := Log(v, asking);
      if Failure(t).None? && t.stream.Some? {
        RecoversMore(deferred, asked.events, [Ready]);
        assert asking == [Permitted, Resume(v.version), Asked(v.attempt)] + [Opened(v.attempt)];
        EndsInTwo(v.events + [Permitted, Resume(v.version), Asked(v.attempt)], Opened(v.attempt), Ready);
        var established := Log(asked, [Ready]);
        assert established.events
            == v.events + [Permitted, Resume(v.version), Asked(v.attempt)] + [Opened(v.attempt), Ready];
        StreamRecovers(deferred, established, t);
      } else {
        FailedRecovers(deferred, asked, t);
      }
    }
  }

  lemma StreamRecovers(deferred: bool, v: Vars, t: Turn)
    requires Recovers(deferred, v.events) && Pending(deferred, v) && t.stream.Some?
    requires |v.events| >= 2 && v.events[|v.events| - 2..] == [Opened(v.attempt), Ready]
    ensures match Streamed(v, t)
            case Again(next) => Recovers(deferred, next.events) && Pending(deferred, next)
            case Done(last) => Recovers(deferred, last.events)
  {
    hide Recovers;
    var ending := [Released(v.attempt), StreamStopped(v.attempt)];
    RecoversMore(deferred, v.events, ending);
    var before := if v.recovery then Log(v, [RouteEvent]) else v;
    RecoversConsumed(deferred, v.events, v.attempt, v.recovery);
    var start := Log(before.(recovery := false), [Consumed(v.attempt)]);
    assert v.events + [] == v.events;
    var stream := t.stream.value;
    ConsumeTells(start, stream.deliveries, stream.interrupted);
    var r := Consume(start, stream.deliveries, stream.interrupted);
    var told := r.vars.events[|start.events|..];
    assert r.vars.events == start.events + told;
    RecoversMore(deferred, start.events, told);
    RecoversMore(deferred, r.vars.events, ending);
    AfterRecovers(deferred, Log(r.vars.(recovery := true), ending), r.error, t);
  }

  lemma FailedRecovers(deferred: bool, v: Vars, t: Turn)
    requires Recovers(deferred, v.events)
    ensures match Failed(v, t)
            case Again(next) => Recovers(deferred, next.events) && Pending(deferred, next)
            case Done(last) => Recovers(deferred, last.events)
  {
    hide Recovers;
    var events := (if t.timedOut then [] else [Released(v.attempt)]) + [Ready]
                  + (if t.stream.Some? then [StreamStopped(v.attempt)] else []);
    RecoversMore(deferred, v.events, events);
    var error := if Failure(t).Some? then Failure(t).value else NO_STREAM;
    AfterRecovers(deferred, Log(v.(recovery := true), events), Some(error), t);
  }

  lemma AfterRecovers(deferred: bool, v: Vars, error: Option<WatchError>, t: Turn)
    requires Recovers(deferred, v.events) && v.recovery
    ensures match After(v, error, t)
            case Again(next) => Recovers(deferred, next.events) && Pending(deferred, next)
            case Done(last) => Recovers(deferred, last.events)
  {
    hide Recovers;
    RecoversMore(deferred, v.events, [RouteEvent]);
  }

  lemma {:induction false} RunRecovers(deferred: bool, v: Vars, turns: seq<Turn>)
    requires Recovers(deferred, v.events) && Pending(deferred, v)
    ensures Recovers(deferred, RunFrom(v, turns).events)
    decreases |turns|
  {
    hide Recovers;
    if turns != [] {
      StepRecovers(deferred, v, turns[0]);
      match Step(v, turns[0])
      case Again(next) => RunRecovers(deferred, next, turns[1..]);
      case Done(_) =>
    }
  }

  // In every run of the loop, every stream after the first iteration is consumed only after a route event that
  // follows its opening; so is a first stream whose address had been deferred.
  lemma EveryRunRecovers(deferred: bool, turns: seq<Turn>)
    ensures Recovers(deferred, History(deferred, turns))
  {
    RunRecovers(deferred, Vars(deferred, "", 0, []), turns);
  }

  /* ---------- releasing what was opened ---------- */

  datatype Kind = Asking | Freeing | Streaming | Stopping

  // Whether an event books one attempt as asked for, freed of its transport, given a stream, or its stream as stopped.
  function Weight(e: Event, kind: Kind, m: nat): nat {
    match kind
    case Asking => if e == Asked(m) then 1 else 0
    case Freeing => if e == Released(m) || e == TimerReleased(m) then 1 else 0
    case Streaming => if e == Opened(m) then 1 else 0
    case Stopping => if e == StreamStopped(m) then 1 else 0
  }

  function Count(events: seq<Event>, kind: Kind, m: nat): nat {
    if events == [] then 0 else Weight(events[0], kind, m) + Count(events[1..], kind, m)
  }

  lemma {:induction false} CountAppend(a: seq<Event>, b: seq<Event>, kind: Kind, m: nat)
    ensures Count(a + b, kind, m) == Count(a, kind, m) + Count(b, kind, m)
  {
    hide Weight;
    if a == [] {
      assert a + b == b;
    } else {
      assert (a + b)[1..] == a[1..] + b;
      CountAppend(a[1..], b, kind, m);
    }
  }

  lemma CountOne(events: seq<Event>, e: Event, kind: Kind, m: nat)
    ensures Count(events + [e], kind, m) == Count(events, kind, m) + Weight(e, kind, m)
  {
    hide Weight;
    CountAppend(events, [e], kind, m);
  }

  lemma {:induction false} CountSilent(events: seq<Event>, kind: Kind, m: nat)
    requires forall i :: 0 <= i < |events| ==> Weight(events[i], kind, m) == 0
    ensures Count(events, kind, m) == 0
  {
    hide Weight;
    if events != [] { CountSilent(events[1..], kind, m); }
  }

  // What one iteration books for its attempt.
  function Books(t: Turn, kind: Kind): nat {
    match kind
    case Asking => 1
    case Freeing => 1
    case Streaming => if t.stream.Some? then 1 else 0
    case Stopping => if t.stream.Some? then 1 else 0
  }

  // What its opening has booked already.
  function OpeningBooks(t: Turn, kind: Kind): nat {
    match kind
    case Asking => 1
    case Freeing => if t.timedOut then 1 else 0
    case Streaming => if t.stream.Some? then 1 else 0
    case Stopping => 0
  }

  lemma OpeningCounts(v: Vars, t: Turn, kind: Kind, m: nat)
    ensures var asked := Log(v, [Permitted, Resume(v.version)] + Opening(v.attempt, t) + Evidence(t));
            Count(asked.events, kind, m) ==
            Count(v.events, kind, m) + if m == v.attempt then OpeningBooks(t, kind) else 0
  {
    hide Count;
    var n := v.attempt;
    var start := v.events + [Permitted] + [Resume(v.version)];
    CountOne(v.events, Permitted, kind, m);
    CountOne(v.events + [Permitted], Resume(v.version), kind, m);
    OpeningOnly(start, n, t, kind, m);
    EvidenceCounts(start + Opening(n, t), t, kind, m);
    assert v.events + ([Permitted, Resume(v.version)] + Opening(n, t) + Evidence(t))
        == (start + Opening(n, t)) + Evidence(t);
  }

  lemma OpeningOnly(events: seq<Event>, n: nat, t: Turn, kind: Kind, m: nat)
    ensures Count(events + Opening(n, t), kind, m) ==
            Count(events, kind, m) + if m == n then OpeningBooks(t, kind) else 0
  {
    hide Count;
    var c := events + [Asked(n)];
    var d := if t.stream.Some? then c + [Opened(n)] else c;
    var e := if t.timedOut then d + [TimerReleased(n)] else d;
    CountOne(events, Asked(n), kind, m);
    CountOne(c, Opened(n), kind, m);
    CountOne(d, TimerReleased(n), kind, m);
    assert events + Opening(n, t) == e;
  }

  lemma EvidenceCounts(events: seq<Event>, t: Turn, kind: Kind, m: nat)
    ensures Count(events + Evidence(t), kind, m) == Count(events, kind, m)
  {
    hide Count;
    CountOne(events, RecordedForbidden, kind, m);
    assert events + [] == events;
  }

  lemma AfterCounts(v: Vars, error: Option<WatchError>, t: Turn, kind: Kind, m: nat)
    ensures var p := After(v, error, t);
            && Count((if p.Again? then p.next else p.last).events, kind, m) == Count(v.events, kind, m)
            && (p.Again? ==> p.next.attempt == v.attempt + 1)
  {
    CountOne(v.events, RouteEvent, kind, m);
  }

  function StreamEnds(kind: Kind): nat { if kind.Freeing? || kind.Stopping? then 1 else 0 }

  lemma StreamEnding(events: seq<Event>, n: nat, kind: Kind, m: nat)
    ensures Count(events + [Released(n), StreamStopped(n)], kind, m)
         == Count(events, kind, m) + if m == n then StreamEnds(kind) else 0
  {
    CountOne(events, Released(n), kind, m);
    CountOne(events + [Released(n)], StreamStopped(n), kind, m);
    assert events + [Released(n), StreamStopped(n)] == (events + [Released(n)]) + [StreamStopped(n)];
  }

  lemma ConsumeCounts(v: Vars, deliveries: seq<Delivery>, interrupted: bool, kind: Kind, m: nat)
    ensures Count(Consume(v, deliveries, interrupted).vars.events, kind, m) == Count(v.events, kind, m)
  {
    ConsumeTells(v, deliveries, interrupted);
    var events := Consume(v, deliveries, interrupted).vars.events;
    var told := events[|v.events|..];
    hide Consume, Count;
    assert events == v.events + told;
    CountSilent(told, kind, m);
    CountAppend(v.events, told, kind, m);
  }

  lemma StreamCounts(v: Vars, t: Turn, kind: Kind, m: nat)
    requires t.stream.Some?
    ensures var p := Streamed(v, t);
            && Count((if p.Again? then p.next else p.last).events, kind, m)
               == Count(v.events, kind, m) + (if m == v.attempt then StreamEnds(kind) else 0)
            && (p.Again? ==> p.next.attempt == v.attempt + 1)
  {
    hide Count, StreamEnds, Consume, After;
    if !t.liveStream || !t.registered {
      StreamEnding(v.events, v.attempt, kind, m);
    } else {
      var before := if v.recovery then Log(v, [RouteEvent]) else v;
      CountOne(v.events, RouteEvent, kind, m);
      var start := Log(before.(recovery := false), [Consumed(v.attempt)]);
      CountOne(before.events, Consumed(v.attempt), kind, m);
      var stream := t.stream.value;
      ConsumeCounts(start, stream.deliveries, stream.interrupted, kind, m);
      ConsumeTells(start, stream.deliveries, stream.interrupted);
      var r := Consume(start, stream.deliveries, stream.interrupted);
      StreamEnding(r.vars.events, v.attempt, kind, m);
      AfterCounts(Log(r.vars.(recovery := true), [Released(v.attempt), StreamStopped(v.attempt)]), r.error, t, kind, m);
    }
  }

  function FailureEnds(t: Turn, kind: Kind): nat {
    match kind
    case Asking => 0
    case Freeing => if t.timedOut then 0 else 1
    case Streaming => 0
    case Stopping => if t.stream.Some? then 1 else 0
  }

  lemma FailureCounts(v: Vars, t: Turn, kind: Kind, m: nat)
    ensures var p := Failed(v, t);
            && Count((if p.Again? then p.next else p.last).events, kind, m)
               == Count(v.events, kind, m) + (if m == v.attempt then FailureEnds(t, kind) else 0)
            && (p.Again? ==> p.next.attempt == v.attempt + 1)
  {
    hide Count, After;
    var n := v.attempt;
    var a := if t.timedOut then v.events else v.events + [Released(n)];
    var b := a + [Ready];
    var c := if t.stream.Some? then b + [StreamStopped(n)] else b;
    CountOne(v.events, Released(n), kind, m);
    CountOne(a, Ready, kind, m);
    CountOne(b, StreamStopped(n), kind, m);
    var ending := (if t.timedOut then [] else [Released(n)]) + [Ready]
        + (if t.stream.Some? then [StreamStopped(n)] else []);
    assert v.events + ending == c;
    var error := if Failure(t).Some? then Failure(t).value else NO_STREAM;
    AfterCounts(Log(v.(recovery := true), ending), Some(error), t, kind, m);
  }

  lemma StepCounts(v: Vars, t: Turn, kind: Kind, m: nat)
    ensures var p := Step(v, t);
            && Count((if p.Again? then p.next else p.last).events, kind, m)
               == Count(v.events, kind, m) + (if t.live && t.permit && m == v.attempt then Books(t, kind) else 0)
            && (p.Again? ==> p.next.attempt == v.attempt + 1 && t.live && t.permit)
  {
    hide Count, After, Streamed, Failed, Opening, Evidence;
    CountOne(v.events, Ready, kind, m);
    if t.live && t.permit {
      OpeningCounts(v, t, kind, m);
      var asked := Log(v, [Permitted, Resume(v.version)] + Opening(v.attempt, t) + Evidence(t));
      if Failure(t).None? && t.stream.Some? {
        CountOne(asked.events, Ready, kind, m);
        StreamCounts(Log(asked, [Ready]), t, kind, m);
      } else {
        FailureCounts(asked, t, kind, m);
      }
    }
  }

  // Each attempt is freed as often as it was asked for, and its stream stopped as often as opened; at most once.
  ghost predicate Balanced(events: seq<Event>, m: nat) {
    && Count(events, Asking, m) == Count(events, Freeing, m) <= 1
    && Count(events, Streaming, m) == Count(events, Stopping, m) <= Count(events, Asking, m)
  }

  // ... and no attempt from n on has been booked.
  ghost predicate Settled(events: seq<Event>, n: nat, m: nat) {
    Balanced(events, m) && (m >= n ==> Count(events, Asking, m) == 0)
  }

  lemma StepSettles(v: Vars, t: Turn, m: nat)
    requires Settled(v.events, v.attempt, m)
    ensures match Step(v, t)
            case Again(next) => Settled(next.events, next.attempt, m)
            case Done(last) => Balanced(last.events, m)
  {
    hide Count, Step;
    StepCounts(v, t, Asking, m);
    StepCounts(v, t, Freeing, m);
    StepCounts(v, t, Streaming, m);
    StepCounts(v, t, Stopping, m);
  }

  lemma {:induction false} RunSettles(v: Vars, turns: seq<Turn>, m: nat)
    requires Settled(v.events, v.attempt, m)
    ensures Balanced(RunFrom(v, turns).events, m)
    decreases |turns|
  {
    hide Count, Step, Balanced;
    if turns != [] {
      StepSettles(v, turns[0], m);
      match Step(v, turns[0])
      case Again(next) => RunSettles(next, turns[1..], m);
      case Done(_) =>
    }
  }

  // Every watch that was asked for has its transport released exactly once, by the loop or by the timer, and
  // every stream that was opened is stopped exactly once.
  lemma NothingLeaks(deferred: bool, turns: seq<Turn>, m: nat)
    ensures Balanced(History(deferred, turns), m)
  {
    RunSettles(Vars(deferred, "", 0, []), turns, m);
  }
}
