/** What a watch loop's history holds, told from its turns: how long it goes on, which version each attempt resumes
    from, and how many route events and records of refusal it yields. */
module WatchHistory {
  import opened Common
  import opened WatchLoop

  /* ---------- one stream ---------- */

  // How many deliveries come before the first error event.
  function ErrorAt(deliveries: seq<Delivery>): (n: nat)
    ensures n <= |deliveries|
  {
    if deliveries == [] || deliveries[0].ErrorEvent? then 0 else 1 + ErrorAt(deliveries[1..])
  }

  // What is read of the deliveries: up to the first error event, which is read too.
  function Read(deliveries: seq<Delivery>): seq<Delivery> {
    if ErrorAt(deliveries) < |deliveries| then deliveries[..ErrorAt(deliveries) + 1] else deliveries
  }

  function Changes(deliveries: seq<Delivery>): nat {
    if deliveries == [] then 0 else (if deliveries[0].Change? then 1 else 0) + Changes(deliveries[1..])
  }

  // The last version that is not empty, or else the one before.
  function LastVersion(version: string, deliveries: seq<Delivery>): string {
    if deliveries == [] then version
    else
      var n := |deliveries| - 1;
      if deliveries[n].version != "" then deliveries[n].version else LastVersion(version, deliveries[..n])
  }

  function StreamError(s: Stream): Option<WatchError> {
    var n := ErrorAt(s.deliveries);
    if n < |s.deliveries| && s.deliveries[n].ErrorEvent? then Some(s.deliveries[n].error)
    else if s.interrupted then Some(CONTEXT_ENDED) else None
  }

  lemma {:induction false} ErrorFirst(deliveries: seq<Delivery>)
    ensures var n := ErrorAt(deliveries);
            && (forall i :: 0 <= i < n ==> !deliveries[i].ErrorEvent?)
            && (n < |deliveries| ==> deliveries[n].ErrorEvent?)
  {
    if deliveries != [] && !deliveries[0].ErrorEvent? {
      ErrorFirst(deliveries[1..]);
      assert forall i :: 0 < i < |deliveries| ==> deliveries[i] == deliveries[1..][i - 1];
    }
  }

  lemma {:induction false} LastVersionHead(version: string, deliveries: seq<Delivery>)
    requires deliveries != []
    ensures LastVersion(version, deliveries) ==
            LastVersion(if deliveries[0].version != "" then deliveries[0].version else version, deliveries[1..])
  {
    var n := |deliveries| - 1;
    if n > 0 {
      assert deliveries[1..][n - 1] == deliveries[n] && deliveries[1..][..n - 1] == deliveries[..n][1..];
      LastVersionHead(version, deliveries[..n]);
    } else {
      assert deliveries[..n] == [] && deliveries[1..] == [];
    }
  }

  // Consuming a stream reports every change before the first error event, and keeps the last version read.
  lemma {:induction false} ConsumedExactly(v: Vars, s: Stream)
    ensures var r := Consume(v, s.deliveries, s.interrupted);
            && r.vars.version == LastVersion(v.version, Read(s.deliveries)) && r.error == StreamError(s)
            && |r.vars.events| == |v.events| + Changes(Read(s.deliveries))
            && r.vars.events[..|v.events|] == v.events
            && forall j :: |v.events| <= j < |r.vars.events| ==> r.vars.events[j] == RouteEvent
    decreases |s.deliveries|
  {
    ConsumeTells(v, s.deliveries, s.interrupted);
    var ds := s.deliveries;
    if ds != [] {
      LastVersionHead(v.version, Read(ds));
      var u := v.(version := if ds[0].version != "" then ds[0].version else v.version);
      if ds[0].ErrorEvent? {
        assert Read(ds) == [ds[0]] && Read(ds)[1..] == [];
      } else {
        var next := if ds[0].Change? then Log(u, [RouteEvent]) else u;
        ConsumedExactly(next, Stream(ds[1..], s.interrupted));
        assert Read(ds)[1..] == Read(ds[1..]) && Read(ds)[0] == ds[0];
      }
    }
  }

  /* ---------- one turn ---------- */

  predicate Asks(t: Turn) { t.live && t.permit }

  predicate Opens(t: Turn) { t.error.None? && !t.timedOut && t.stream.Some? }

  // The error that ends the iteration, if any.
  function Ending(t: Turn): Option<WatchError> {
    if Opens(t) then StreamError(t.stream.value)
    else if t.error.Some? then t.error
    else if t.timedOut then Some(DEADLINE_EXCEEDED) else Some(NO_STREAM)
  }

  // Another attempt follows.
  predicate GoesOn(t: Turn) {
    && Asks(t) && (Opens(t) ==> t.liveStream && t.registered)
    && t.liveAfter && t.permitAfter && t.waited
  }

  predicate Consumes(t: Turn) { Asks(t) && Opens(t) && t.liveStream && t.registered }

  // The version to resume from after the turn.
  function NextVersion(version: string, t: Turn): string {
    if Ending(t).Some? && Ending(t).value.expired then ""
    else if Consumes(t) then LastVersion(version, Read(t.stream.value.deliveries)) else version
  }

  // One route event for a pending recovery, one for each change, and one for an error that the loop outlives.
  function RouteEvents(recovering: bool, t: Turn): nat {
    if Consumes(t) then
      (if recovering then 1 else 0) + Changes(Read(t.stream.value.deliveries))
      + (if t.liveAfter && Ending(t).Some? then 1 else 0)
    else if Asks(t) && !Opens(t) && t.liveAfter then 1 else 0
  }

  predicate Refused(t: Turn) { Asks(t) && !Opens(t) && Ending(t).value.forbidden }

  /* ---------- summaries of histories ---------- */

  // The versions resumed from, in order, and the numbers of route events, of records of refusal and of ready signals.
  datatype Summary = Summary(resumed: seq<string>, routes: nat, refusals: nat, readies: nat)

  function Plus(a: Summary, b: Summary): Summary {
    Summary(a.resumed + b.resumed, a.routes + b.routes, a.refusals + b.refusals, a.readies + b.readies)
  }

  function SummaryOf(e: Event): Summary {
    match e
    case Resume(version) => Summary([version], 0, 0, 0)
    case RouteEvent => Summary([], 1, 0, 0)
    case RecordedForbidden => Summary([], 0, 1, 0)
    case Ready => Summary([], 0, 0, 1)
    case _ => NOTHING
  }

  const NOTHING := Summary([], 0, 0, 0)

  function Summarize(events: seq<Event>): Summary {
    if events == [] then NOTHING
    else
      var n := |events| - 1;
      Plus(Summarize(events[..n]), SummaryOf(events[n]))
  }

  // What a turn amounts to by itself: waiters are told once, even if nothing is asked for any more.
  function OneTurn(version: string, recovering: bool, t: Turn): Summary {
    if Asks(t) then Summary([version], RouteEvents(recovering, t), if Refused(t) then 1 else 0, 1)
    else if t.live then Summary([], 0, 0, 1) else NOTHING
  }

  // What the turns amount to, from the version and the recovery flag at their start: each attempt in turn, as long as
  // the one before goes on.
  function Expected(version: string, recovering: bool, turns: seq<Turn>): Summary
    decreases |turns|
  {
    if turns == [] then NOTHING
    else
      var t := turns[0];
      Plus(OneTurn(version, recovering, t),
           if GoesOn(t) then Expected(NextVersion(version, t), true, turns[1..]) else NOTHING)
  }

  lemma SummarizeOne(events: seq<Event>, e: Event)
    ensures Summarize(events + [e]) == Plus(Summarize(events), SummaryOf(e))
  {
    hide Plus, SummaryOf;
    assert (events + [e])[..|events|] == events;
  }

  lemma {:induction false} SummarizeConcat(a: seq<Event>, b: seq<Event>)
    ensures Summarize(a + b) == Plus(Summarize(a), Summarize(b))
  {
    if b == [] {
      assert a + b == a;
      PlusNothing(Summarize(a));
    } else {
      var n := |b| - 1;
      assert (a + b)[..|a + b| - 1] == a + b[..n];
      SummarizeConcat(a, b[..n]);
      PlusAssociates(Summarize(a), Summarize(b[..n]), SummaryOf(b[n]));
    }
  }

  lemma PlusNothing(a: Summary)
    ensures Plus(a, NOTHING) == a && Plus(NOTHING, a) == a
  {
  }

  lemma PlusAssociates(a: Summary, b: Summary, c: Summary)
    ensures Plus(Plus(a, b), c) == Plus(a, Plus(b, c))
  {
  }

  lemma {:induction false} ManyRoutes(events: seq<Event>, more: seq<Event>)
    requires forall j :: 0 <= j < |more| ==> more[j] == RouteEvent
    ensures Summarize(events + more) == Summarize(events).(routes := Summarize(events).routes + |more|)
  {
    hide Summarize;
    if more == [] {
      assert events + more == events;
    } else {
      var n := |more| - 1;
      ManyRoutes(events, more[..n]);
      SummarizeOne(events + more[..n], more[n]);
      assert events + more == events + more[..n] + [more[n]];
    }
  }

  // Events that a summary does not mention.
  predicate Quiet(e: Event) { SummaryOf(e) == NOTHING }

  lemma {:induction false} ManyQuiet(events: seq<Event>, more: seq<Event>)
    requires forall j :: 0 <= j < |more| ==> Quiet(more[j])
    ensures Summarize(events + more) == Summarize(events)
  {
    hide Summarize, Plus, SummaryOf;
    if more == [] {
      assert events + more == events;
    } else {
      var n := |more| - 1;
      ManyQuiet(events, more[..n]);
      SummarizeOne(events + more[..n], more[n]);
      assert events + more == events + more[..n] + [more[n]];
      PlusNothing(Summarize(events));
    }
  }

  /* ---------- the whole history ---------- */

  lemma StepExactly(v: Vars, t: Turn)
    ensures var p := Step(v, t);
            && Summarize((if p.Again? then p.next else p.last).events)
               == Plus(Summarize(v.events), OneTurn(v.version, v.recovery, t))
            && (p.Again? <==> GoesOn(t))
            && (p.Again? ==> p.next.version == NextVersion(v.version, t) && p.next.recovery)
  {
    hide Summarize, Plus;
    if !t.live {
      PlusNothing(Summarize(v.events));
    } else if !t.permit {
      SummarizeOne(v.events, Ready);
    } else if Opens(t) {
      StreamedExactly(v, t);
    } else {
      FailedExactly(v, t);
    }
  }

  // The events of asking: a version is resumed from, and a refusal is recorded.
  lemma AskingExactly(v: Vars, t: Turn)
    ensures var asked := v.events + ([Permitted, Resume(v.version)] + Opening(v.attempt, t) + Evidence(t));
            Summarize(asked) == Plus(Summarize(v.events),
                                     Summary([v.version], 0, if Evidence(t) == [] then 0 else 1, 0))
  {
    hide Summarize;
    var a := v.events + [Permitted];
    var b := a + [Resume(v.version)];
    var c := b + Opening(v.attempt, t);
    SummarizeOne(v.events, Permitted);
    SummarizeOne(a, Resume(v.version));
    ManyQuiet(b, Opening(v.attempt, t));
    SummarizeOne(c, RecordedForbidden);
    assert v.events + ([Permitted, Resume(v.version)] + Opening(v.attempt, t) + Evidence(t)) == c + Evidence(t);
    assert c + [] == c;
  }

  function MoreRoutes(a: Summary, n: nat): Summary { a.(routes := a.routes + n) }

  lemma AfterExactly(v: Vars, error: Option<WatchError>, t: Turn)
    ensures var p := After(v, error, t);
            && Summarize((if p.Again? then p.next else p.last).events)
               == MoreRoutes(Summarize(v.events), if t.liveAfter && error.Some? then 1 else 0)
            && (p.Again? <==> t.liveAfter && t.permitAfter && t.waited)
            && (p.Again? ==>
                  p.next.recovery == v.recovery
                  && p.next.version == if error.Some? && error.value.expired then "" else v.version)
  {
    hide Summarize;
    SummarizeOne(v.events, RouteEvent);
  }

  lemma ConsumingExactly(v: Vars, t: Turn)
    requires t.stream.Some? && t.liveStream && t.registered
    ensures var p, error := Streamed(v, t), StreamError(t.stream.value);
            && Summarize((if p.Again? then p.next else p.last).events)
               == MoreRoutes(Summarize(v.events),
                             (if v.recovery then 1 else 0) + Changes(Read(t.stream.value.deliveries))
                             + if t.liveAfter && error.Some? then 1 else 0)
            && (p.Again? <==> t.liveAfter && t.permitAfter && t.waited)
            && (p.Again? ==>
                  p.next.recovery
                  && p.next.version == if error.Some? && error.value.expired then ""
                                       else LastVersion(v.version, Read(t.stream.value.deliveries)))
  {
    hide Summarize, Consume, After, Read, Changes, LastVersion, StreamError;
    var before := if v.recovery then Log(v, [RouteEvent]) else v;
    SummarizeOne(v.events, RouteEvent);
    var start := Log(before.(recovery := false), [Consumed(v.attempt)]);
    ManyQuiet(before.events, [Consumed(v.attempt)]);
    var stream := t.stream.value;
    var r := Consume(start, stream.deliveries, stream.interrupted);
    ConsumedExactly(start, stream);
    var told := r.vars.events[|start.events|..];
    assert r.vars.events == start.events + told;
    ManyRoutes(start.events, told);
    var ending := [Released(v.attempt), StreamStopped(v.attempt)];
    ManyQuiet(r.vars.events, ending);
    ConsumeTells(start, stream.deliveries, stream.interrupted);
    AfterExactly(Log(r.vars.(recovery := true), ending), r.error, t);
  }

  lemma StreamedExactly(v: Vars, t: Turn)
    requires Asks(t) && Opens(t)
    ensures var p := Step(v, t);
            && Summarize((if p.Again? then p.next else p.last).events)
               == Plus(Summarize(v.events), OneTurn(v.version, v.recovery, t))
            && (p.Again? <==> GoesOn(t))
            && (p.Again? ==> p.next.version == NextVersion(v.version, t) && p.next.recovery)
  {
    hide Summarize, Read, Changes, LastVersion, StreamError;
    AskingExactly(v, t);
    var asked := Log(v, [Permitted, Resume(v.version)] + Opening(v.attempt, t) + Evidence(t));
    SummarizeOne(asked.events, Ready);
    var established := Log(asked, [Ready]);
    if t.liveStream && t.registered {
      ConsumingExactly(established, t);
      hide Streamed;
    } else {
      ManyQuiet(established.events, [Released(v.attempt), StreamStopped(v.attempt)]);
    }
  }

  lemma FailedExactly(v: Vars, t: Turn)
    requires Asks(t) && !Opens(t)
    ensures var p := Step(v, t);
            && Summarize((if p.Again? then p.next else p.last).events)
               == Plus(Summarize(v.events), OneTurn(v.version, v.recovery, t))
            && (p.Again? <==> GoesOn(t))
            && (p.Again? ==> p.next.version == NextVersion(v.version, t) && p.next.recovery)
  {
    hide Summarize, After;
    AskingExactly(v, t);
    var asked := Log(v, [Permitted, Resume(v.version)] + Opening(v.attempt, t) + Evidence(t));
    var freeing := if t.timedOut then [] else [Released(v.attempt)];
    var stopping := if t.stream.Some? then [StreamStopped(v.attempt)] else [];
    var closing := freeing + [Ready] + stopping;
    ManyQuiet(asked.events, freeing);
    SummarizeOne(asked.events + freeing, Ready);
    ManyQuiet(asked.events + freeing + [Ready], stopping);
    assert asked.events + closing == asked.events + freeing + [Ready] + stopping;
    AfterExactly(Log(asked.(recovery := true), closing), Ending(t), t);
  }

  lemma {:induction false} RunExactly(v: Vars, turns: seq<Turn>)
    ensures Summarize(RunFrom(v, turns).events)
         == Plus(Summarize(v.events), Expected(v.version, v.recovery, turns))
    decreases |turns|
  {
    hide Step, Summarize, Plus;
    if turns == [] {
      PlusNothing(Summarize(v.events));
    } else {
      StepExactly(v, turns[0]);
      match Step(v, turns[0])
      case Again(next) =>
        RunExactly(next, turns[1..]);
        PlusAssociates(Summarize(v.events), OneTurn(v.version, v.recovery, turns[0]),
                       Expected(next.version, true, turns[1..]));
      case Done(_) => PlusNothing(OneTurn(v.version, v.recovery, turns[0]));
    }
  }

  // A loop's history is what its turns amount to.
  lemma HistoryExactly(deferred: bool, turns: seq<Turn>)
    ensures Summarize(History(deferred, turns)) == Expected("", deferred, turns)
  {
    RunExactly(Vars(deferred, "", 0, []), turns);
    PlusNothing(Expected("", deferred, turns));
  }

  // An attempt is made exactly when every turn before it goes on and its own asks.
  lemma {:induction false} AttemptsExactly(version: string, recovering: bool, turns: seq<Turn>, j: nat)
    ensures j < |Expected(version, recovering, turns).resumed| <==>
            j < |turns| && Asks(turns[j]) && forall i :: 0 <= i < j ==> GoesOn(turns[i])
    decreases |turns|
  {
    hide RouteEvents, Refused, NextVersion;
    if turns != [] && j > 0 {
      AttemptsExactly(NextVersion(version, turns[0]), true, turns[1..], j - 1);
      assert forall i :: 0 <= i < |turns| - 1 ==> turns[1..][i] == turns[i + 1];
      assert forall i :: 0 < i < |turns| ==> turns[i] == turns[1..][i - 1];
    }
  }
}
