/** Every resolution handed out is an answer discovery gave, to a refresh that no covering invalidation outdates. */
module DiscoveryAnswers {
  import opened Common
  import opened DiscoveryCache
  import opened DiscoveryRuns

  // At `at`, discovery gave this answer to the refresh of this key that began at `origin`.
  ghost predicate ToldAt(log: seq<Event>, key: CacheKey, origin: nat, res: Resolution, at: int) {
    && origin < |log| && log[origin].Began? && log[origin].key == key
    && exists j :: origin < j < |log| && log[j] == Replied(origin, res, at)
  }

  ghost predicate Told(log: seq<Event>, key: CacheKey, origin: nat, res: Resolution) {
    exists at :: ToldAt(log, key, origin, res, at)
  }

  // A cached entry expires one ttl after its answer.
  ghost predicate CacheTold(r: State, ttl: int, log: seq<Event>) {
    forall k :: k in r.cache ==> ToldAt(log, k, r.cache[k].origin, r.cache[k].resolution, r.cache[k].expiresAt - ttl)
  }

  ghost predicate ResultsTold(r: State, log: seq<Event>) {
    forall i :: i in r.results && r.results[i].Fetched? ==>
      i < |log| && log[i].Began? && r.results[i].entry.origin == i
          && Told(log, log[i].key, i, r.results[i].entry.resolution)
  }

  ghost predicate PhaseTold(key: CacheKey, p: Phase, ttl: int, log: seq<Event>) {
    match p
    case Answered(f, Some(res), expiresAt) => ToldAt(log, key, f.id, res, expiresAt - ttl)
    case Confirming(f, res) => Told(log, key, f.id, res)
    case Returned(res, origin) => Told(log, key, origin, res)
    case _ => true
  }

  ghost predicate CallersTold(callers: map<nat, Caller>, ttl: int, log: seq<Event>) {
    forall c :: c in callers ==> PhaseTold(callers[c].key, callers[c].phase, ttl, log)
  }

  ghost predicate Truthful(x: System) {
    CacheTold(x.r, x.ttl, x.log) && ResultsTold(x.r, x.log) && CallersTold(x.callers, x.ttl, x.log)
  }

  lemma StillToldAt(log: seq<Event>, e: Event, key: CacheKey, origin: nat, res: Resolution, at: int)
    requires ToldAt(log, key, origin, res, at)
    ensures ToldAt(log + [e], key, origin, res, at)
  {
    var j :| origin < j < |log| && log[j] == Replied(origin, res, at);
    assert (log + [e])[j] == Replied(origin, res, at);
  }

  lemma StillTold(log: seq<Event>, e: Event, key: CacheKey, origin: nat, res: Resolution)
    requires Told(log, key, origin, res)
    ensures Told(log + [e], key, origin, res)
  {
    var at :| ToldAt(log, key, origin, res, at);
    StillToldAt(log, e, key, origin, res, at);
  }

  lemma PhaseStillTold(key: CacheKey, p: Phase, ttl: int, log: seq<Event>, e: Event)
    requires PhaseTold(key, p, ttl, log)
    ensures PhaseTold(key, p, ttl, log + [e])
  {
    hide Told, ToldAt;
    match p
    case Answered(f, Some(res), expiresAt) => StillToldAt(log, e, key, f.id, res, expiresAt - ttl);
    case Confirming(f, res) => StillTold(log, e, key, f.id, res);
    case Returned(res, origin) => StillTold(log, e, key, origin, res);
    case _ =>
  }

  // A caller that does not move, or moves to a told phase, leaves the callers told.
  lemma CallersStillTold(callers: map<nat, Caller>, ttl: int, log: seq<Event>, e: Event, callers': map<nat, Caller>)
    requires CallersTold(callers, ttl, log)
    requires forall c :: c in callers' ==>
        (c in callers && callers'[c] == callers[c]) || PhaseTold(callers'[c].key, callers'[c].phase, ttl, log + [e])
    ensures CallersTold(callers', ttl, log + [e])
  {
    hide PhaseTold;
    forall c | c in callers' ensures PhaseTold(callers'[c].key, callers'[c].phase, ttl, log + [e]) {
      if c in callers && callers'[c] == callers[c] { PhaseStillTold(callers[c].key, callers[c].phase, ttl, log, e); }
    }
  }

  // Entries that were there before, apart from their access order, are still told.
  lemma ShrunkTold(r: State, ttl: int, log: seq<Event>, e: Event, r': State)
    requires CacheTold(r, ttl, log) && Shrunk(r, r')
    ensures CacheTold(r', ttl, log + [e])
  {
    hide ToldAt;
    forall k | k in r'.cache
      ensures ToldAt(log + [e], k, r'.cache[k].origin, r'.cache[k].resolution, r'.cache[k].expiresAt - ttl)
    {
      assert r'.cache[k] == r.cache[k].(access := r'.cache[k].access);
      StillToldAt(log, e, k, r.cache[k].origin, r.cache[k].resolution, r.cache[k].expiresAt - ttl);
    }
  }

  lemma ResultsStillTold(r: State, log: seq<Event>, e: Event, r': State)
    requires ResultsTold(r, log) && r'.results == r.results
    ensures ResultsTold(r', log + [e])
  {
    hide Told;
    forall i | i in r'.results && r'.results[i].Fetched?
      ensures Told(log + [e], log[i].key, i, r'.results[i].entry.resolution)
    {
      StillTold(log, e, log[i].key, i, r.results[i].entry.resolution);
    }
  }

  // A step whose resolver keeps its results and only loses or touches cache entries.
  lemma QuietTold(x: System, e: Event, y: System)
    requires Truthful(x) && y.log == x.log + [e] && y.ttl == x.ttl && Shrunk(x.r, y.r) && y.r.results == x.r.results
    requires forall c :: c in y.callers ==>
        (c in x.callers && y.callers[c] == x.callers[c])
            || PhaseTold(y.callers[c].key, y.callers[c].phase, y.ttl, y.log)
    ensures Truthful(y)
  {
    hide CacheTold, ResultsTold, CallersTold, PhaseTold, Shrunk;
    ShrunkTold(x.r, x.ttl, x.log, e, y.r);
    ResultsStillTold(x.r, x.log, e, y.r);
    CallersStillTold(x.callers, x.ttl, x.log, e, y.callers);
  }

  lemma CacheTells(r: State, ttl: int, log: seq<Event>, k: CacheKey)
    requires CacheTold(r, ttl, log) && k in r.cache
    ensures Told(log, k, r.cache[k].origin, r.cache[k].resolution)
  {
    hide ToldAt;
  }

  lemma ConsultTold(x: System, c: nat, hit: Option<Entry>, y: System)
    requires Truthful(x) && ConsultStep(x, c, hit, y)
    ensures Truthful(y)
  {
    var k := x.callers[c].key;
    LookupShape(x.r, k, x.now, y.r, hit);
    ShrunkTold(x.r, x.ttl, x.log, Other, y.r);
    if hit.Some? { CacheTells(y.r, x.ttl, y.log, k); }
    hide Told, CacheTold, ResultsTold, CallersTold, Lookup;
    QuietTold(x, Other, y);
  }

  lemma OpenTold(x: System, c: nat, opening: Opening, y: System)
    requires Truthful(x) && OpenStep(x, c, opening, y)
    ensures Truthful(y)
  {
    var k := x.callers[c];
    BeginShape(x.r, k.key, x.now, |x.log|, y.r, opening);
    ShrunkTold(x.r, x.ttl, x.log, OpenEvent(k, opening), y.r);
    if opening.Cached? { CacheTells(y.r, x.ttl, y.log, k.key); }
    hide Told, CacheTold, ResultsTold, CallersTold, Begin;
    QuietTold(x, OpenEvent(k, opening), y);
  }

  lemma AnswerTold(x: System, c: nat, answer: Option<Resolution>, y: System)
    requires Truthful(x) && AnswerStep(x, c, answer, y) && BeganFor(x.log, x.callers[c].phase.flight, x.callers[c].key)
    ensures Truthful(y)
  {
    hide CacheTold, ResultsTold, CallersTold;
    var e := ReplyEvent(x.callers[c].phase.flight, answer, x.now);
    if answer.Some? { assert y.log[|x.log|] == e; }
    QuietTold(x, e, y);
  }

  lemma CloseTold(x: System, c: nat, evicted: Option<CacheKey>, y: System)
    requires Truthful(x) && CloseStep(x, c, evicted, y) && BeganFor(x.log, x.callers[c].phase.flight, x.callers[c].key)
    ensures Truthful(y)
  {
    hide Told;
    var k := x.callers[c];
    var o := OutcomeOf(k.phase);
    assert PhaseTold(k.key, k.phase, x.ttl, x.log);
    PhaseStillTold(k.key, k.phase, x.ttl, x.log, Other);
    FinishShape(x.r, k.key, k.phase.flight, o, evicted, y.r);
    hide Finish;
    FinishTold(x.r, x.ttl, x.log, k.key, k.phase.flight, o, y.r);
    hide CacheTold, ResultsTold;
    CallersStillTold(x.callers, x.ttl, x.log, Other, y.callers);
  }

  lemma FinishTold(r: State, ttl: int, log: seq<Event>, key: CacheKey, f: Flight, o: Outcome, r': State)
    requires CacheTold(r, ttl, log) && ResultsTold(r, log) && Finished(r, key, f, o, r')
    requires BeganFor(log, f, key)
    requires o.Fetched? ==>
        o.entry.origin == f.id && ToldAt(log, key, f.id, o.entry.resolution, o.entry.expiresAt - ttl)
    ensures CacheTold(r', ttl, log + [Other]) && ResultsTold(r', log + [Other])
  {
    hide ToldAt;
    if o.Fetched? { StillToldAt(log, Other, key, f.id, o.entry.resolution, o.entry.expiresAt - ttl); }
    forall k | k in r'.cache
      ensures ToldAt(log + [Other], k, r'.cache[k].origin, r'.cache[k].resolution, r'.cache[k].expiresAt - ttl)
    {
      if k in r.cache && r'.cache[k] == r.cache[k].(access := r'.cache[k].access) {
        StillToldAt(log, Other, k, r.cache[k].origin, r.cache[k].resolution, r.cache[k].expiresAt - ttl);
      }
    }
    forall i | i in r'.results && r'.results[i].Fetched?
      ensures i < |log| && log[i].Began? && r'.results[i].entry.origin == i
          && Told(log + [Other], log[i].key, i, r'.results[i].entry.resolution)
    {
      if i != f.id { StillTold(log, Other, log[i].key, i, r.results[i].entry.resolution); }
    }
  }

  lemma ConfirmTold(x: System, c: nat, y: System)
    requires Truthful(x) && ConfirmStep(x, c, y) && BeganFor(x.log, x.callers[c].phase.flight, x.callers[c].key)
    ensures Truthful(y)
  {
    hide Told, CacheTold;
    var k := x.callers[c];
    assert PhaseTold(k.key, k.phase, x.ttl, x.log);
    PhaseStillTold(k.key, k.phase, x.ttl, x.log, Other);
    ResultsStillTold(x.r, x.log, Other, y.r);
    hide CallersTold;
    QuietTold(x, Other, y);
  }

  lemma InvalidateTold(x: System, r': State, e: Event, y: System)
    requires Truthful(x) && InvalidateStep(x, r', e, y) && Shrunk(x.r, r') && r'.results == x.r.results
    ensures Truthful(y)
  {
    QuietTold(x, e, y);
  }

  lemma NextTold(x: System, step: Step, y: System)
    requires Inv(x) && Truthful(x) && Next(x, step, y)
    ensures Truthful(y)
  {
    hide Truthful, Inv;
    match step
    case Call(c, key) => CallTold(x, c, key, y);
    case Consult(c, hit) => ConsultTold(x, c, hit, y);
    case Open(c, opening) => OpenTold(x, c, opening, y);
    case Answer(c, answer) =>
      FlightBegan(x, c);
      AnswerTold(x, c, answer, y);
    case Close(c, evicted) =>
      FlightBegan(x, c);
      CloseTold(x, c, evicted, y);
    case Confirm(c) =>
      FlightBegan(x, c);
      ConfirmTold(x, c, y);
    case GiveUp(c) => GiveUpTold(x, c, y);
    case InvalidateGroup(gv) => InvalidateTold(x, InvalidatedGroup(x.r, gv), GroupInvalidated(gv), y);
    case InvalidateOne(key) => InvalidateTold(x, InvalidatedResource(x.r, key), ResourceInvalidated(key), y);
    case InvalidateEvery => InvalidateTold(x, InvalidatedAll(x.r), AllInvalidated, y);
    case Tick(_) => TickTold(x, y);
  }

  lemma CallTold(x: System, c: nat, key: CacheKey, y: System)
    requires Truthful(x) && CallStep(x, c, key, y)
    ensures Truthful(y)
  {
    hide CacheTold, ResultsTold, CallersTold;
    QuietTold(x, Other, y);
  }

  lemma GiveUpTold(x: System, c: nat, y: System)
    requires Truthful(x) && GiveUpStep(x, c, y)
    ensures Truthful(y)
  {
    hide CacheTold, ResultsTold, CallersTold;
    QuietTold(x, Other, y);
  }

  lemma TickTold(x: System, y: System)
    requires Truthful(x) && y == x.(now := y.now, log := x.log + [Other])
    ensures Truthful(y)
  {
    hide CacheTold, ResultsTold, CallersTold;
    QuietTold(x, Other, y);
  }

  lemma FlightBegan(x: System, c: nat)
    requires Inv(x) && c in x.callers && HasFlight(x.callers[c].phase)
    ensures BeganFor(x.log, x.callers[c].phase.flight, x.callers[c].key)
  {
    CallerOf(x, c);
  }

  lemma {:induction false} RunTold(run: seq<System>, steps: seq<Step>, n: nat)
    requires IsRun(run, steps) && n < |run|
    ensures Truthful(run[n])
  {
    hide Next, Inv;
    if n > 0 {
      RunTold(run, steps, n - 1);
      RunInvariant(run, steps, n - 1);
      NextTold(run[n - 1], steps[n - 1], run[n]);
    }
  }

  // A returned resolution is an answer that discovery gave after every covering invalidation preceding the call,
  // to a refresh of the same key that began after it: caching and sharing never show.
  lemma AnswersAreFresh(run: seq<System>, steps: seq<Step>, n: nat, c: nat)
    requires IsRun(run, steps) && n < |run| && c in run[n].callers && run[n].callers[c].phase.Returned?
    ensures var k, log := run[n].callers[c], run[n].log;
            k.phase.origin < |log| && log[k.phase.origin].Began? && log[k.phase.origin].key == k.key
    ensures var k, log := run[n].callers[c], run[n].log;
            exists j, at :: k.phase.origin < j < |log| && log[j] == Replied(k.phase.origin, k.phase.resolution, at)
                        && forall i :: 0 <= i < k.start && i < |log| && Covers(log[i], k.key) ==> i < k.phase.origin
  {
    RunTold(run, steps, n);
    var k, log := run[n].callers[c], run[n].log;
    assert PhaseTold(k.key, k.phase, run[n].ttl, log);
    assert Told(log, k.key, k.phase.origin, k.phase.resolution);
    var at :| ToldAt(log, k.key, k.phase.origin, k.phase.resolution, at);
    var j :| k.phase.origin < j < |log| && log[j] == Replied(k.phase.origin, k.phase.resolution, at);
    forall i | 0 <= i < k.start && i < |log| && Covers(log[i], k.key) ensures i < k.phase.origin {
      NoStaleResolution(run, steps, n, c, i);
    }
  }

  // The step serves caller c from the cache, with this entry.
  ghost predicate ServedFromCache(step: Step, c: nat, e: Entry) {
    match step
    case Consult(d, hit) => d == c && hit == Some(e)
    case Open(d, opening) => d == c && opening == Cached(e)
    case _ => false
  }

  // A caller served from the cache gets an answer to its key that discovery gave less than one ttl earlier.
  lemma CachedWithinTtl(run: seq<System>, steps: seq<Step>, n: nat, c: nat, e: Entry)
    requires IsRun(run, steps) && n < |steps| && ServedFromCache(steps[n], c, e)
    ensures c in run[n].callers && c in run[n + 1].callers
    ensures run[n + 1].callers[c].phase == Returned(e.resolution, e.origin)
    ensures exists at :: ToldAt(run[n].log, run[n].callers[c].key, e.origin, e.resolution, at)
                         && run[n].now < at + run[n].ttl
  {
    var x, y := run[n], run[n + 1];
    RunTold(run, steps, n);
    assert Next(x, steps[n], y);
    hide ToldAt, ResultsTold, CallersTold;
    TakenFresh(x, x.callers[c].key, e);
  }

  lemma TakenFresh(x: System, k: CacheKey, e: Entry)
    requires CacheTold(x.r, x.ttl, x.log) && k in x.r.cache && x.now < x.r.cache[k].expiresAt
    requires e == x.r.cache[k].(access := e.access)
    ensures exists at :: ToldAt(x.log, k, e.origin, e.resolution, at) && x.now < at + x.ttl
  {
    assert ToldAt(x.log, k, e.origin, e.resolution, e.expiresAt - x.ttl);
  }
}
