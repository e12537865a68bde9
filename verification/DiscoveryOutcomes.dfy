/** How every Resolve ends: with the answer discovery gave to the refresh it relied on, whenever there was one. */
module DiscoveryOutcomes {
  import opened Common
  import opened DiscoveryCache
  import opened DiscoveryRuns
  import opened DiscoveryAnswers

  // Discovery answered the refresh.
  ghost predicate RepliedTo(log: seq<Event>, id: nat) {
    exists j :: 0 <= j < |log| && log[j].Replied? && log[j].flight == id
  }

  // Replies follow the beginning of their refresh, and a refresh gets one at most.
  ghost predicate RepliesOnce(log: seq<Event>) {
    && (forall j :: 0 <= j < |log| && log[j].Replied? ==> log[j].flight < j)
    && (forall i, j :: 0 <= i < j < |log| && log[i].Replied? && log[j].Replied? ==> log[i].flight != log[j].flight)
  }

  ghost predicate FailuresUnanswered(r: State, log: seq<Event>) {
    forall i :: i in r.results && r.results[i].Failed? ==> !RepliedTo(log, i)
  }

  ghost predicate PhaseUnanswered(p: Phase, log: seq<Event>) {
    p.Fetching? || (p.Answered? && p.answer == None) ==> !RepliedTo(log, p.flight.id)
  }

  ghost predicate CallersUnanswered(callers: map<nat, Caller>, log: seq<Event>) {
    forall c :: c in callers ==> PhaseUnanswered(callers[c].phase, log)
  }

  // An untouched key is still at the version under which its refresh began.
  ghost predicate CleanIsCurrent(r: State, log: seq<Event>) {
    forall i :: 0 <= i < |log| && log[i].Began? && CleanSince(log, i, log[i].key) ==>
      log[i].version == VersionOf(r, log[i].key)
  }

  ghost predicate Accounted(x: System) {
    && RepliesOnce(x.log) && FailuresUnanswered(x.r, x.log) && CallersUnanswered(x.callers, x.log)
    && CleanIsCurrent(x.r, x.log)
  }

  /* ---------- preservation ---------- */

  lemma NoReply(log: seq<Event>, e: Event, id: nat)
    requires !RepliedTo(log, id) && !(e.Replied? && e.flight == id)
    ensures !RepliedTo(log + [e], id)
  {
  }

  // A step that logs no reply and finishes no refresh.
  lemma QuietAccounted(x: System, e: Event, y: System)
    requires RepliesOnce(x.log) && FailuresUnanswered(x.r, x.log) && CallersUnanswered(x.callers, x.log)
    requires y.log == x.log + [e] && !e.Replied? && y.r.results == x.r.results
    requires forall c :: c in y.callers ==>
        (c in x.callers && y.callers[c] == x.callers[c]) || PhaseUnanswered(y.callers[c].phase, x.log)
    ensures RepliesOnce(y.log) && FailuresUnanswered(y.r, y.log) && CallersUnanswered(y.callers, y.log)
  {
    hide RepliedTo;
    forall i | i in y.r.results && y.r.results[i].Failed? ensures !RepliedTo(y.log, i) { NoReply(x.log, e, i); }
    forall c | c in y.callers ensures PhaseUnanswered(y.callers[c].phase, y.log) {
      var p := y.callers[c].phase;
      if p.Fetching? || (p.Answered? && p.answer == None) { NoReply(x.log, e, p.flight.id); }
    }
  }

  lemma Unreplied(log: seq<Event>)
    requires RepliesOnce(log)
    ensures !RepliedTo(log, |log|)
  {
  }

  // What only the owner of a refresh can hear about is neither finished nor anyone else's.
  lemma OwnerAlone(x: System, c: nat)
    requires Inv(x) && c in x.callers && OwnsFlight(x.callers[c].phase)
    ensures var id := x.callers[c].phase.flight.id;
            && id !in x.r.results && id < |x.log|
            && forall d :: d in x.callers && d != c && OwnsFlight(x.callers[d].phase) ==>
                 x.callers[d].phase.flight.id != id
  {
    CallerOf(x, c);
    hide ResolverInv, CallersInv;
  }

  lemma ReplyOnce(log: seq<Event>, e: Event)
    requires RepliesOnce(log) && e.Replied? && e.flight < |log| && !RepliedTo(log, e.flight)
    ensures RepliesOnce(log + [e])
  {
  }

  // The owner of a refresh hears from discovery.
  lemma AnswerAccounted(x: System, c: nat, answer: Option<Resolution>, y: System)
    requires Inv(x) && Accounted(x) && AnswerStep(x, c, answer, y)
    ensures RepliesOnce(y.log) && FailuresUnanswered(y.r, y.log) && CallersUnanswered(y.callers, y.log)
  {
    OwnerAlone(x, c);
    hide Inv, RepliedTo, RepliesOnce, CleanIsCurrent;
    var f := x.callers[c].phase.flight;
    var e := ReplyEvent(f, answer, x.now);
    assert PhaseUnanswered(x.callers[c].phase, x.log);
    if answer == None {
      QuietAccounted(x, e, y);
    } else {
      ReplyOnce(x.log, e);
      forall i | i in y.r.results && y.r.results[i].Failed? ensures !RepliedTo(y.log, i) { NoReply(x.log, e, i); }
      forall d | d in y.callers ensures PhaseUnanswered(y.callers[d].phase, y.log) {
        var p := y.callers[d].phase;
        if p.Fetching? || (p.Answered? && p.answer == None) {
          assert PhaseUnanswered(x.callers[d].phase, x.log);
          NoReply(x.log, e, p.flight.id);
        }
      }
    }
  }

  lemma CloseAccounted(x: System, c: nat, evicted: Option<CacheKey>, y: System)
    requires Accounted(x) && CloseStep(x, c, evicted, y)
    ensures RepliesOnce(y.log) && FailuresUnanswered(y.r, y.log) && CallersUnanswered(y.callers, y.log)
  {
    var k := x.callers[c];
    assert PhaseUnanswered(k.phase, x.log);
    FinishShape(x.r, k.key, k.phase.flight, OutcomeOf(k.phase), evicted, y.r);
    hide RepliedTo, Finish;
    forall i | i in y.r.results && y.r.results[i].Failed? ensures !RepliedTo(y.log, i) { NoReply(x.log, Other, i); }
    forall d | d in y.callers ensures PhaseUnanswered(y.callers[d].phase, y.log) {
      var p := y.callers[d].phase;
      if p.Fetching? || (p.Answered? && p.answer == None) {
        assert PhaseUnanswered(x.callers[d].phase, x.log);
        NoReply(x.log, Other, p.flight.id);
      }
    }
  }

  lemma OpenAccounted(x: System, c: nat, opening: Opening, y: System)
    requires Accounted(x) && OpenStep(x, c, opening, y)
    ensures RepliesOnce(y.log) && FailuresUnanswered(y.r, y.log) && CallersUnanswered(y.callers, y.log)
  {
    var k := x.callers[c];
    BeginShape(x.r, k.key, x.now, |x.log|, y.r, opening);
    Unreplied(x.log);
    hide Begin, RepliedTo;
    QuietAccounted(x, OpenEvent(k, opening), y);
  }

  lemma ConsultAccounted(x: System, c: nat, hit: Option<Entry>, y: System)
    requires Accounted(x) && ConsultStep(x, c, hit, y)
    ensures RepliesOnce(y.log) && FailuresUnanswered(y.r, y.log) && CallersUnanswered(y.callers, y.log)
  {
    LookupShape(x.r, x.callers[c].key, x.now, y.r, hit);
    hide Lookup, RepliedTo;
    QuietAccounted(x, Other, y);
  }

  // The steps that may change what replies, results and waiting callers say.
  lemma RepliesAccounted(x: System, step: Step, y: System)
    requires Inv(x) && Accounted(x) && Next(x, step, y)
    ensures RepliesOnce(y.log) && FailuresUnanswered(y.r, y.log) && CallersUnanswered(y.callers, y.log)
  {
    hide Inv, RepliedTo;
    match step
    case Answer(c, answer) => AnswerAccounted(x, c, answer, y);
    case Close(c, evicted) => CloseAccounted(x, c, evicted, y);
    case Open(c, opening) => OpenAccounted(x, c, opening, y);
    case Consult(c, hit) => ConsultAccounted(x, c, hit, y);
    case InvalidateGroup(gv) => QuietAccounted(x, GroupInvalidated(gv), y);
    case InvalidateOne(key) => QuietAccounted(x, ResourceInvalidated(key), y);
    case InvalidateEvery => QuietAccounted(x, AllInvalidated, y);
    case _ => QuietAccounted(x, Other, y);
  }

  /* ---------- versions ---------- */

  lemma CurrentKept(r: State, log: seq<Event>, r': State, e: Event)
    requires CleanIsCurrent(r, log)
    requires forall k :: !Covers(e, k) ==> VersionOf(r', k) == VersionOf(r, k)
    requires e.Began? ==> e.version == VersionOf(r, e.key)
    ensures CleanIsCurrent(r', log + [e])
  {
    var log' := log + [e];
    forall i | 0 <= i < |log'| && log'[i].Began? && CleanSince(log', i, log'[i].key)
      ensures log'[i].version == VersionOf(r', log'[i].key)
    {
      if i < |log| {
        assert forall j :: 0 <= j < |log| ==> log'[j] == log[j];
        assert CleanSince(log, i, log[i].key);
        assert log'[|log|] == e;
      }
    }
  }

  lemma InvalidationLeaves(r: State, e: Event, r': State)
    requires Invalidation(r, e, r')
    ensures forall k :: !Covers(e, k) ==> VersionOf(r', k) == VersionOf(r, k)
  {
    forall k | !Covers(e, k) ensures VersionOf(r', k) == VersionOf(r, k) { UncoveredVersion(r, e, r', k); }
  }

  // The step leaves the versions of all keys alone that its event does not cover.
  lemma VersionsLeft(x: System, step: Step, y: System)
    requires Inv(x) && Next(x, step, y)
    ensures |y.log| == |x.log| + 1 && y.log == x.log + [y.log[|x.log|]]
    ensures var e := y.log[|x.log|];
            && (forall k :: !Covers(e, k) ==> VersionOf(y.r, k) == VersionOf(x.r, k))
            && (e.Began? ==> e.version == VersionOf(x.r, e.key))
  {
    hide Inv;
    match step
    case Close(c, evicted) =>
      var k := x.callers[c];
      FinishShape(x.r, k.key, k.phase.flight, OutcomeOf(k.phase), evicted, y.r);
    case Open(c, opening) => BeginShape(x.r, x.callers[c].key, x.now, |x.log|, y.r, opening);
    case Consult(c, hit) => LookupShape(x.r, x.callers[c].key, x.now, y.r, hit);
    case InvalidateGroup(gv) =>
      GroupQualifies(x.r, gv);
      InvalidationLeaves(x.r, GroupInvalidated(gv), y.r);
    case InvalidateOne(key) =>
      ResourceQualifies(x.r, key);
      InvalidationLeaves(x.r, ResourceInvalidated(key), y.r);
    case InvalidateEvery =>
      AllQualifies(x.r);
      InvalidationLeaves(x.r, AllInvalidated, y.r);
    case _ =>
  }

  lemma {:induction false} RunAccounted(run: seq<System>, steps: seq<Step>, n: nat)
    requires IsRun(run, steps) && n < |run|
    ensures Accounted(run[n])
  {
    hide Next, Inv;
    if n > 0 {
      RunAccounted(run, steps, n - 1);
      RunInvariant(run, steps, n - 1);
      RepliesAccounted(run[n - 1], steps[n - 1], run[n]);
      VersionsLeft(run[n - 1], steps[n - 1], run[n]);
      CurrentKept(run[n - 1].r, run[n - 1].log, run[n].r, run[n].log[|run[n - 1].log|]);
    }
  }

  /* ---------- the theorems ---------- */

  // Discovery gave this answer to the refresh.
  ghost predicate RepliedWith(log: seq<Event>, id: nat, res: Resolution) {
    exists j, at :: 0 <= j < |log| && log[j] == Replied(id, res, at)
  }

  lemma OnlyReply(log: seq<Event>, id: nat, res: Resolution)
    requires RepliesOnce(log) && RepliedWith(log, id, res)
    ensures RepliedTo(log, id) && forall other :: RepliedWith(log, id, other) <==> other == res
  {
  }

  lemma NoneReplied(log: seq<Event>, id: nat)
    requires !RepliedTo(log, id)
    ensures forall other :: !RepliedWith(log, id, other)
  {
  }

  lemma ToldIsReplied(log: seq<Event>, key: CacheKey, id: nat, res: Resolution)
    requires Told(log, key, id, res)
    ensures RepliedWith(log, id, res)
  {
    var at :| ToldAt(log, key, id, res, at);
  }

  // The end of a call by an answer to this refresh, or for want of one.
  ghost predicate EndsBy(p: Phase, log: seq<Event>, id: nat) {
    && (p.Returned? || p.Erred?)
    && (forall res :: p == Returned(res, id) <==> RepliedWith(log, id, res))
    && (p.Erred? <==> !RepliedTo(log, id))
  }

  lemma AnsweredEnds(log: seq<Event>, id: nat, res: Resolution)
    requires RepliesOnce(log) && RepliedWith(log, id, res)
    ensures EndsBy(Returned(res, id), log, id)
  {
    hide RepliedWith, RepliedTo, RepliesOnce;
    OnlyReply(log, id, res);
  }

  lemma UnansweredEnds(log: seq<Event>, id: nat)
    requires !RepliedTo(log, id)
    ensures EndsBy(Erred, log, id)
  {
    NoneReplied(log, id);
  }

  lemma ConfirmEnds(x: System, c: nat, y: System)
    requires Inv(x) && Truthful(x) && Accounted(x) && ConfirmStep(x, c, y)
    ensures var k, p := x.callers[c], y.callers[c].phase;
            if VersionOf(x.r, k.key) == k.phase.flight.version then EndsBy(p, x.log, k.phase.flight.id) else p.Missed?
  {
    hide Inv, EndsBy, Told, RepliedWith, RepliedTo, RepliesOnce, CleanIsCurrent, CacheTold;
    var k := x.callers[c];
    var id := k.phase.flight.id;
    assert PhaseTold(k.key, k.phase, x.ttl, x.log);
    if k.phase.Confirming? {
      ToldIsReplied(x.log, k.key, id, k.phase.resolution);
      AnsweredEnds(x.log, id, k.phase.resolution);
    } else if x.r.results[id].Failed? {
      UnansweredEnds(x.log, id);
    } else {
      ToldIsReplied(x.log, x.log[id].key, id, x.r.results[id].entry.resolution);
      AnsweredEnds(x.log, id, x.r.results[id].entry.resolution);
    }
  }

  // Confirming a refresh under its key's version ends the call: with a resolution exactly when discovery gave it to
  // that refresh, and with an error exactly when discovery gave none.
  lemma ConfirmedAnswers(run: seq<System>, steps: seq<Step>, n: nat, c: nat)
    requires IsRun(run, steps) && n < |steps| && steps[n] == Confirm(c)
    ensures c in run[n].callers && c in run[n + 1].callers && HasFlight(run[n].callers[c].phase)
    ensures var k, p, log := run[n].callers[c], run[n + 1].callers[c].phase, run[n].log;
            var f := k.phase.flight;
            if VersionOf(run[n].r, k.key) == f.version then
              && (p.Returned? || p.Erred?)
              && (forall res :: p == Returned(res, f.id) <==>
                    exists j, at :: 0 <= j < |log| && log[j] == Replied(f.id, res, at))
              && (p.Erred? <==> !exists j :: 0 <= j < |log| && log[j].Replied? && log[j].flight == f.id)
            else p.Missed?
  {
    RunInvariant(run, steps, n);
    RunTold(run, steps, n);
    RunAccounted(run, steps, n);
    hide Inv, Truthful, Accounted;
    assert Next(run[n], steps[n], run[n + 1]);
    ConfirmEnds(run[n], c, run[n + 1]);
    EndsMean(run[n + 1].callers[c].phase, run[n].log, run[n].callers[c].phase.flight.id);
  }

  lemma EndsMean(p: Phase, log: seq<Event>, id: nat)
    ensures EndsBy(p, log, id) <==>
            && (p.Returned? || p.Erred?)
            && (forall res :: p == Returned(res, id) <==>
                  exists j, at :: 0 <= j < |log| && log[j] == Replied(id, res, at))
            && (p.Erred? <==> !exists j :: 0 <= j < |log| && log[j].Replied? && log[j].flight == id)
  {
    forall res
      ensures RepliedWith(log, id, res) <==> exists j, at :: 0 <= j < |log| && log[j] == Replied(id, res, at) {}
  }

  // A call goes on to another attempt only when an invalidation of its key was logged after its refresh began.
  lemma RetriesAreDue(run: seq<System>, steps: seq<Step>, n: nat, c: nat)
    requires IsRun(run, steps) && n < |steps| && steps[n] == Confirm(c) && c in run[n].callers
    requires HasFlight(run[n].callers[c].phase) && c in run[n + 1].callers && run[n + 1].callers[c].phase.Missed?
    ensures var k, log := run[n].callers[c], run[n].log;
            exists i :: k.phase.flight.id < i < |log| && Covers(log[i], k.key)
  {
    RunInvariant(run, steps, n);
    RunAccounted(run, steps, n);
    ConfirmedAnswers(run, steps, n, c);
    FlightBegan(run[n], c);
    hide Inv, Next;
    var k, log := run[n].callers[c], run[n].log;
    assert !CleanSince(log, k.phase.flight.id, k.key);
  }

  // A call ends with an error only by giving up its wait, or when discovery gave no answer to the refresh that it
  // owned or waited for; and finishing its own refresh ends it so exactly when discovery gave none.
  lemma ErrorsAreDue(run: seq<System>, steps: seq<Step>, n: nat, c: nat)
    requires IsRun(run, steps) && n < |steps| && c in run[n].callers
    ensures c in run[n + 1].callers
    ensures var p, q, log := run[n].callers[c].phase, run[n + 1].callers[c].phase, run[n].log;
            && (q.Erred? && !p.Erred? ==>
                  (steps[n] == GiveUp(c) && p.Waiting?) || (HasFlight(p) && !RepliedTo(log, p.flight.id)))
            && (steps[n].Close? && steps[n].c == c ==>
                  HasFlight(p) && if RepliedTo(log, p.flight.id) then Confirms(q, p.flight, log) else q.Erred?)
  {
    RunInvariant(run, steps, n);
    RunTold(run, steps, n);
    RunAccounted(run, steps, n);
    assert Next(run[n], steps[n], run[n + 1]);
    hide Inv, Truthful, Accounted, RepliedTo, Next, IsRun;
    match steps[n]
    case Confirm(d) => ConfirmedEnd(run[n], d, c, run[n + 1]);
    case Close(d, evicted) => ClosedEnd(run[n], d, evicted, c, run[n + 1]);
    case _ => OtherEnd(run[n], steps[n], c, run[n + 1]);
  }

  // About to confirm what discovery told this refresh.
  ghost predicate Confirms(q: Phase, f: Flight, log: seq<Event>) {
    q.Confirming? && q.flight == f && RepliedWith(log, f.id, q.resolution)
  }

  lemma OtherEnd(x: System, step: Step, c: nat, y: System)
    requires Next(x, step, y) && !step.Confirm? && !step.Close? && c in x.callers
    ensures c in y.callers
    ensures y.callers[c].phase.Erred? && !x.callers[c].phase.Erred? ==>
              step == GiveUp(c) && x.callers[c].phase.Waiting?
  {
    hide Lookup, Begin;
  }

  lemma ConfirmedEnd(x: System, d: nat, c: nat, y: System)
    requires Inv(x) && Truthful(x) && Accounted(x) && Next(x, Confirm(d), y) && c in x.callers
    ensures c in y.callers
    ensures var p, q := x.callers[c].phase, y.callers[c].phase;
            q.Erred? && !p.Erred? ==> HasFlight(p) && !RepliedTo(x.log, p.flight.id)
  {
    hide Inv, Truthful, Accounted, RepliedTo, RepliedWith;
    ConfirmEnds(x, d, y);
  }

  lemma ClosedEnd(x: System, d: nat, evicted: Option<CacheKey>, c: nat, y: System)
    requires Truthful(x) && Accounted(x) && Next(x, Close(d, evicted), y) && c in x.callers
    ensures c in y.callers
    ensures var p, q := x.callers[c].phase, y.callers[c].phase;
            if d == c then
              HasFlight(p) && if RepliedTo(x.log, p.flight.id) then Confirms(q, p.flight, x.log) else q.Erred?
            else q == p
  {
    hide CacheTold, ResultsTold, FailuresUnanswered, CleanIsCurrent, Finish, RepliesOnce, RepliedTo, RepliedWith, Told;
    var k := x.callers[d];
    assert PhaseTold(k.key, k.phase, x.ttl, x.log) && PhaseUnanswered(k.phase, x.log);
    if k.phase.answer.Some? {
      AnswerReplied(x.log, k.key, k.phase.flight.id, k.phase.answer.value, k.phase.expiresAt - x.ttl);
    }
  }

  lemma AnswerReplied(log: seq<Event>, key: CacheKey, id: nat, res: Resolution, at: int)
    requires ToldAt(log, key, id, res, at)
    ensures RepliedTo(log, id) && RepliedWith(log, id, res)
  {
  }

  // The key is cached, and discovery gave the cached answer less than one ttl ago.
  ghost predicate Fresh(x: System, k: CacheKey) {
    k in x.r.cache && exists at ::
      ToldAt(x.log, k, x.r.cache[k].origin, x.r.cache[k].resolution, at) && x.now < at + x.ttl
  }

  lemma OneTime(log: seq<Event>, k: CacheKey, origin: nat, res: Resolution, at: int, when: int)
    requires RepliesOnce(log) && ToldAt(log, k, origin, res, at) && ToldAt(log, k, origin, res, when)
    ensures at == when
  {
  }

  lemma FreshMeans(x: System, k: CacheKey)
    requires CacheTold(x.r, x.ttl, x.log) && RepliesOnce(x.log)
    ensures Fresh(x, k) <==> k in x.r.cache && x.now < x.r.cache[k].expiresAt
  {
    hide ToldAt, RepliesOnce;
    if k in x.r.cache {
      var e := x.r.cache[k];
      assert ToldAt(x.log, k, e.origin, e.resolution, e.expiresAt - x.ttl);
      forall at | ToldAt(x.log, k, e.origin, e.resolution, at) ensures at == e.expiresAt - x.ttl {
        OneTime(x.log, k, e.origin, e.resolution, at, e.expiresAt - x.ttl);
      }
    }
  }

  // Asking the cache, before or when a refresh would begin, serves the call exactly when the cached answer is fresh.
  lemma ServedWhenFresh(run: seq<System>, steps: seq<Step>, n: nat, c: nat)
    requires IsRun(run, steps) && n < |steps|
    requires (steps[n].Consult? || steps[n].Open?) && steps[n].c == c
    ensures c in run[n].callers && c in run[n + 1].callers
    ensures run[n + 1].callers[c].phase.Returned? <==> Fresh(run[n], run[n].callers[c].key)
  {
    RunInvariant(run, steps, n);
    RunTold(run, steps, n);
    RunAccounted(run, steps, n);
    assert Next(run[n], steps[n], run[n + 1]);
    hide Inv, Truthful, Accounted, Fresh, IsRun, Next;
    AskedServed(run[n], steps[n], c, run[n + 1]);
  }

  lemma AskedServed(x: System, step: Step, c: nat, y: System)
    requires Inv(x) && Truthful(x) && Accounted(x) && Next(x, step, y)
    requires (step.Consult? || step.Open?) && step.c == c
    ensures c in x.callers && c in y.callers
    ensures y.callers[c].phase.Returned? <==> Fresh(x, x.callers[c].key)
  {
    hide Inv, CacheTold, RepliesOnce, Fresh, Touched;
    FreshMeans(x, x.callers[c].key);
    CurrentEntry(x, x.callers[c].key);
    hide ResultsTold, CallersTold, FailuresUnanswered, CallersUnanswered, CleanIsCurrent, VersionOf;
  }

  lemma CurrentEntry(x: System, k: CacheKey)
    requires Inv(x)
    ensures k in x.r.cache ==> x.r.cache[k].version == VersionOf(x.r, k)
  {
  }
}
