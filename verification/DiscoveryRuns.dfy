/**
 Every interleaving of Resolve callers, waiters, finishing refreshes and the three invalidations.

 A step is one critical section of the resolver's lock, or one event outside it (a call starting, a
 discovery response arriving, a waiter giving up, time passing). Every step appends one event to `log`,
 so positions in the log are logical times, and a refresh is identified by the position at which it began.
 */
module DiscoveryRuns {
  import opened Common
  import opened DiscoveryCache

  datatype Event =
    | Began(key: CacheKey, version: Version)
    | GroupInvalidated(groupVersion: string)
    | ResourceInvalidated(key: CacheKey)
    | AllInvalidated
    | Replied(flight: nat, resolution: Resolution, at: int) // discovery answered the refresh that began there
    | Other

  predicate Covers(e: Event, k: CacheKey) {
    match e
    case GroupInvalidated(gv) => gv == k.groupVersion
    case ResourceInvalidated(key) => key == k
    case AllInvalidated => true
    case _ => false
  }

  datatype Phase =
    | Started                                                         // before freshCacheEntry
    | Missed                                                          // before beginRefresh
    | Waiting(flight: Flight)                                         // joined another caller's refresh
    | Fetching(flight: Flight)                                        // own discovery request in flight
    | Answered(flight: Flight, answer: Option<Resolution>, expiresAt: int) // before finishRefresh
    | Confirming(flight: Flight, resolution: Resolution)              // before the final version check
    | Returned(resolution: Resolution, origin: nat)
    | Erred

  // `bumps` is the sum of the key's two epochs when the call started; `attempts` counts beginRefresh calls.
  datatype Caller = Caller(key: CacheKey, start: nat, bumps: nat, attempts: nat, phase: Phase)

  datatype System = System(r: State, log: seq<Event>, now: int, ttl: int, callers: map<nat, Caller>)

  datatype Step =
    | Call(c: nat, key: CacheKey)
    | Consult(c: nat, hit: Option<Entry>)
    | Open(c: nat, opening: Opening)
    | Answer(c: nat, answer: Option<Resolution>)
    | Close(c: nat, evicted: Option<CacheKey>)
    | Confirm(c: nat)
    | GiveUp(c: nat)
    | InvalidateGroup(groupVersion: string)
    | InvalidateOne(key: CacheKey)
    | InvalidateEvery
    | Tick(elapsed: nat)

  function Bumps(v: Version): nat { v.all + v.key }

  function OutcomeOf(p: Phase): Outcome
    requires p.Answered?
  {
    match p.answer
    case None => Failed
    case Some(res) => Fetched(Entry(res, p.expiresAt, 0, p.flight.version, p.flight.id))
  }

  // What the waiter or the owner of flight `f` returns once it has seen the version is still current.
  function Conclude(r: State, p: Phase): Phase
    requires p.Waiting? ==> p.flight.id in r.results
    requires p.Waiting? || p.Confirming?
  {
    if p.Confirming? then Returned(p.resolution, p.flight.id)
    else match r.results[p.flight.id]
      case Failed => Erred
      case Fetched(e) => Returned(e.resolution, e.origin)
  }

  // Caller c moves to phase p while the resolver becomes r' and event e is logged.
  ghost predicate Advance(x: System, c: nat, p: Phase, r': State, e: Event, x': System)
    requires c in x.callers
  {
    x' == x.(r := r', log := x.log + [e], callers := x.callers[c := x.callers[c].(phase := p)])
  }

  ghost predicate CallStep(x: System, c: nat, key: CacheKey, x': System) {
    && c !in x.callers
    && x' == x.(log := x.log + [Other],
                callers := x.callers[c := Caller(key, |x.log|, Bumps(VersionOf(x.r, key)), 0, Started)])
  }

  ghost predicate ConsultStep(x: System, c: nat, hit: Option<Entry>, x': System) {
    && c in x.callers && x.callers[c].phase.Started?
    && Lookup(x.r, x.callers[c].key, x.now, x'.r, hit)
    && Advance(x, c, if hit == None then Missed else Returned(hit.value.resolution, hit.value.origin), x'.r, Other, x')
  }

  function Opened(opening: Opening): Phase {
    match opening
    case Cached(e) => Returned(e.resolution, e.origin)
    case Joined(f) => Waiting(f)
    case Owned(f) => Fetching(f)
  }

  function OpenEvent(k: Caller, opening: Opening): Event {
    if opening.Owned? then Began(k.key, opening.flight.version) else Other
  }

  function Attempted(k: Caller, opening: Opening): Caller {
    k.(attempts := k.attempts + 1, phase := Opened(opening))
  }

  ghost predicate OpenStep(x: System, c: nat, opening: Opening, x': System) {
    && c in x.callers && x.callers[c].phase.Missed?
    && Begin(x.r, x.callers[c].key, x.now, |x.log|, x'.r, opening)
    && x' == x.(r := x'.r, log := x.log + [OpenEvent(x.callers[c], opening)],
                callers := x.callers[c := Attempted(x.callers[c], opening)])
  }

  function ReplyEvent(f: Flight, answer: Option<Resolution>, now: int): Event {
    match answer case None => Other case Some(res) => Replied(f.id, res, now)
  }

  ghost predicate AnswerStep(x: System, c: nat, answer: Option<Resolution>, x': System) {
    && c in x.callers && x.callers[c].phase.Fetching?
    && var f := x.callers[c].phase.flight;
       Advance(x, c, Answered(f, answer, x.now + x.ttl), x.r, ReplyEvent(f, answer, x.now), x')
  }

  ghost predicate CloseStep(x: System, c: nat, evicted: Option<CacheKey>, x': System) {
    && c in x.callers && x.callers[c].phase.Answered?
    && var p := x.callers[c].phase;
       && Finish(x.r, x.callers[c].key, p.flight, OutcomeOf(p), evicted, x'.r)
       && Advance(x, c, if p.answer == None then Erred else Confirming(p.flight, p.answer.value), x'.r, Other, x')
  }

  ghost predicate ConfirmStep(x: System, c: nat, x': System) {
    && c in x.callers
    && var k := x.callers[c];
       && (k.phase.Confirming? || (k.phase.Waiting? && k.phase.flight.id in x.r.results))
       && Advance(x, c, Confirmed(x.r, k), x.r, Other, x')
  }

  ghost predicate GiveUpStep(x: System, c: nat, x': System) {
    && c in x.callers && x.callers[c].phase.Waiting?
    && Advance(x, c, Erred, x.r, Other, x')
  }

  ghost predicate InvalidateStep(x: System, r': State, e: Event, x': System) {
    x' == x.(r := r', log := x.log + [e])
  }

  ghost predicate Next(x: System, step: Step, x': System) {
    match step
    case Call(c, key) => CallStep(x, c, key, x')
    case Consult(c, hit) => ConsultStep(x, c, hit, x')
    case Open(c, opening) => OpenStep(x, c, opening, x')
    case Answer(c, answer) => AnswerStep(x, c, answer, x')
    case Close(c, evicted) => CloseStep(x, c, evicted, x')
    case Confirm(c) => ConfirmStep(x, c, x')
    case GiveUp(c) => GiveUpStep(x, c, x')
    case InvalidateGroup(gv) => InvalidateStep(x, InvalidatedGroup(x.r, gv), GroupInvalidated(gv), x')
    case InvalidateOne(key) => InvalidateStep(x, InvalidatedResource(x.r, key), ResourceInvalidated(key), x')
    case InvalidateEvery => InvalidateStep(x, InvalidatedAll(x.r), AllInvalidated, x')
    case Tick(elapsed) => x' == x.(now := x.now + elapsed, log := x.log + [Other])
  }

  ghost predicate Init(x: System) {
    && x.r.cache == map[] && x.r.flights == map[] && x.r.results == map[] && x.r.sequence == 0
    && x.r.keyEpoch == map[] && x.r.allEpoch == 0
    && 1 <= x.r.capacity < SEQUENCE_LIMIT - 1
    && x.log == [] && x.callers == map[]
  }

  ghost predicate IsRun(run: seq<System>, steps: seq<Step>) {
    && |run| == |steps| + 1
    && Init(run[0])
    && forall i :: 0 <= i < |steps| ==> Next(run[i], steps[i], run[i + 1])
  }

  /* ---------- invariants ---------- */

  // No invalidation covering k was logged after position f.
  ghost predicate CleanSince(log: seq<Event>, f: nat, k: CacheKey) {
    forall i :: f < i < |log| ==> !Covers(log[i], k)
  }

  ghost predicate BeganFor(log: seq<Event>, f: Flight, k: CacheKey) {
    f.id < |log| && log[f.id] == Began(k, f.version)
  }

  ghost predicate AtMost(a: Version, b: Version) {
    a.all <= b.all && a.key <= b.key
  }

  // Everything ever begun for a key began under a version not above the current one.
  ghost predicate VersionsGrow(r: State, log: seq<Event>) {
    forall i :: 0 <= i < |log| && log[i].Began? ==> AtMost(log[i].version, VersionOf(r, log[i].key))
  }

  ghost predicate CacheOk(r: State, log: seq<Event>) {
    && CacheCurrent(r)
    && forall k :: k in r.cache ==>
         r.cache[k].origin < |log| && log[r.cache[k].origin].Began? && CleanSince(log, r.cache[k].origin, k)
  }

  ghost predicate FlightsOk(r: State, log: seq<Event>) {
    forall k :: k in r.flights ==>
      && BeganFor(log, r.flights[k], k)
      && r.flights[k].id !in r.results
      && (r.flights[k].version == VersionOf(r, k) ==> CleanSince(log, r.flights[k].id, k))
  }

  ghost predicate ResultsOk(r: State, log: seq<Event>) {
    forall i :: i in r.results ==> i < |log| && (r.results[i].Fetched? ==> r.results[i].entry.origin == i)
  }

  ghost predicate InFlight(r: State, log: seq<Event>, i: nat) {
    i < |log| && log[i].Began? && i !in r.results
  }

  // An unfinished refresh opened under the current version of its key is the registered one.
  ghost predicate Registered(r: State, log: seq<Event>) {
    forall i: nat :: InFlight(r, log, i) && log[i].version == VersionOf(r, log[i].key) ==>
      log[i].key in r.flights && r.flights[log[i].key].id == i
  }

  // No two unfinished refreshes of one key were opened under the same version.
  ghost predicate SingleFlight(r: State, log: seq<Event>) {
    forall i: nat, j: nat :: InFlight(r, log, i) && InFlight(r, log, j) && i != j && log[i].key == log[j].key ==>
      log[i].version != log[j].version
  }

  ghost predicate ResolverInv(r: State, log: seq<Event>) {
    VersionsGrow(r, log) && CacheOk(r, log) && FlightsOk(r, log) && ResultsOk(r, log) && Registered(r, log)
        && SingleFlight(r, log)
  }

  // Every invalidation that covers the caller's key and precedes the call precedes position f.
  ghost predicate FreshFor(log: seq<Event>, k: Caller, f: nat) {
    forall i :: 0 <= i < k.start && i < |log| && Covers(log[i], k.key) ==> i < f
  }

  ghost predicate OwnsFlight(p: Phase) { p.Fetching? || p.Answered? }

  ghost predicate HasFlight(p: Phase) { p.Waiting? || p.Fetching? || p.Answered? || p.Confirming? }

  ghost predicate CallerOk(r: State, log: seq<Event>, k: Caller) {
    && k.start < |log|
    && (HasFlight(k.phase) ==> BeganFor(log, k.phase.flight, k.key) && FreshFor(log, k, k.phase.flight.id))
    && (OwnsFlight(k.phase) ==> k.phase.flight.id !in r.results)
    && (k.phase.Returned? ==> FreshFor(log, k, k.phase.origin))
  }

  function CoveringCount(log: seq<Event>, from: nat, k: CacheKey): nat
    requires from <= |log|
    decreases |log| - from
  {
    if from == |log| then 0 else (if Covers(log[from], k) then 1 else 0) + CoveringCount(log, from + 1, k)
  }

  // Retries are paid for by version bumps, and version bumps by covering invalidations.
  ghost predicate AttemptsOk(r: State, log: seq<Event>, k: Caller) {
    var current := Bumps(VersionOf(r, k.key));
    && k.start <= |log| && k.bumps <= current <= k.bumps + CoveringCount(log, k.start, k.key)
    && (k.phase.Started? ==> k.attempts == 0)
    && (k.phase.Missed? ==> k.attempts <= current - k.bumps)
    && (HasFlight(k.phase) ==> k.attempts <= 1 + Bumps(k.phase.flight.version) - k.bumps)
    && k.attempts <= 1 + current - k.bumps
  }

  ghost predicate CallerInv(r: State, log: seq<Event>, k: Caller) {
    CallerOk(r, log, k) && AttemptsOk(r, log, k)
  }

  ghost predicate CallersInv(x: System) {
    forall c :: c in x.callers ==> CallerInv(x.r, x.log, x.callers[c])
  }

  // A refresh has one owner.
  ghost predicate Owners(x: System) {
    forall c, d ::
        c in x.callers && d in x.callers && c != d && OwnsFlight(x.callers[c].phase)
            && OwnsFlight(x.callers[d].phase) ==>
      x.callers[c].phase.flight.id != x.callers[d].phase.flight.id
  }

  ghost predicate Inv(x: System) {
    Bounded(x.r) && ResolverInv(x.r, x.log) && CallersInv(x) && Owners(x)
  }

  /* ---------- preservation ---------- */

  lemma {:induction false} CountAppend(log: seq<Event>, e: Event, from: nat, k: CacheKey)
    requires from <= |log|
    ensures CoveringCount(log + [e], from, k) == CoveringCount(log, from, k) + (if Covers(e, k) then 1 else 0)
    decreases |log| - from
  {
    if from < |log| {
      CountAppend(log, e, from + 1, k);
    } else {
      assert CoveringCount(log + [e], from + 1, k) == 0;
    }
  }

  // What a step does to the resolver is enough for the invariants that mention no caller.
  ghost predicate Quiet(r: State, r': State) {
    && r'.allEpoch == r.allEpoch && r'.keyEpoch == r.keyEpoch && r'.capacity == r.capacity
  }

  ghost predicate Shrunk(r: State, r': State) {
    forall k :: k in r'.cache ==> k in r.cache && r'.cache[k] == r.cache[k].(access := r'.cache[k].access)
  }

  lemma PlacedShape(s: State, rest: map<CacheKey, Entry>, size: nat, k: CacheKey, e: Entry, s': State)
    requires Placed(s, rest, size, k, e, s') && k !in rest
    ensures Quiet(s, s') && s'.flights == s.flights && s'.results == s.results
    ensures forall l :: l in s'.cache && l != k ==> l in rest && s'.cache[l] == rest[l].(access := s'.cache[l].access)
    ensures k in s'.cache && s'.cache[k] == e.(access := s'.cache[k].access)
  {
    forall l | l in s'.cache && l != k ensures l in rest && s'.cache[l] == rest[l].(access := s'.cache[l].access) {
      assert l in s'.cache - {k};
    }
  }

  lemma LookupShape(s: State, k: CacheKey, now: int, s': State, hit: Option<Entry>)
    requires Lookup(s, k, now, s', hit)
    ensures Quiet(s, s') && Shrunk(s, s') && s'.flights == s.flights && s'.results == s.results
    ensures hit.Some? ==> k in s'.cache && hit.value == s'.cache[k]
  {
    if k in s.cache && s.cache[k].version == VersionOf(s, k) && now < s.cache[k].expiresAt {
      PlacedShape(s, s.cache - {k}, |s.cache|, k, s.cache[k], s');
    }
  }

  lemma BeginShape(s: State, k: CacheKey, now: int, id: nat, s': State, r: Opening)
    requires Begin(s, k, now, id, s', r)
    ensures Quiet(s, s') && Shrunk(s, s') && s'.results == s.results
    ensures r.Cached? ==> s'.flights == s.flights && k in s'.cache && r.entry == s'.cache[k]
    ensures r.Joined? ==>
        s'.flights == s.flights && k in s.flights && r.flight == s.flights[k] && r.flight.version == VersionOf(s, k)
    ensures r.Owned? ==> r.flight == Flight(id, VersionOf(s, k)) && s'.flights == s.flights[k := r.flight]
    ensures r.Owned? ==> (k in s.flights ==> s.flights[k].version != VersionOf(s, k))
  {
    if k in s.cache && s.cache[k].version == VersionOf(s, k) && now < s.cache[k].expiresAt {
      PlacedShape(s, s.cache - {k}, |s.cache|, k, s.cache[k], s');
    }
  }

  ghost predicate Finished(s: State, k: CacheKey, f: Flight, o: Outcome, s': State) {
    && Quiet(s, s') && s'.results == s.results[f.id := o]
    && (forall l :: l in s'.flights <==> l in s.flights && !(l == k && s.flights[k].id == f.id))
    && (forall l :: l in s'.flights ==> s'.flights[l] == s.flights[l])
    && (forall l :: l in s'.cache ==>
          || (l in s.cache && s'.cache[l] == s.cache[l].(access := s'.cache[l].access))
          || (l == k && k in s.flights && s.flights[k].id == f.id && o.Fetched? && f.version == VersionOf(s, k)
              && s'.cache[k] == o.entry.(version := f.version, access := s'.cache[k].access)))
  }

  lemma FinishShape(s: State, k: CacheKey, f: Flight, o: Outcome, evicted: Option<CacheKey>, s': State)
    requires Finish(s, k, f, o, evicted, s')
    ensures Finished(s, k, f, o, s')
  {
    hide Finished, Finish;
    if k in s.flights && s.flights[k].id == f.id && o.Fetched? && f.version == VersionOf(s, k) {
      FinishRetains(s, k, f, o, evicted, s');
    } else {
      FinishDrops(s, k, f, o, evicted, s');
    }
  }

  lemma FinishDrops(s: State, k: CacheKey, f: Flight, o: Outcome, evicted: Option<CacheKey>, s': State)
    requires Finish(s, k, f, o, evicted, s')
    requires !(k in s.flights && s.flights[k].id == f.id && o.Fetched? && f.version == VersionOf(s, k))
    ensures Finished(s, k, f, o, s')
  {
    hide Retained;
  }

  lemma FinishRetains(s: State, k: CacheKey, f: Flight, o: Outcome, evicted: Option<CacheKey>, s': State)
    requires Finish(s, k, f, o, evicted, s')
    requires k in s.flights && s.flights[k].id == f.id && o.Fetched? && f.version == VersionOf(s, k)
    ensures Finished(s, k, f, o, s')
  {
    hide Finished, Retained;
    var t := s.(results := s.results[f.id := o]);
    RetainedShape(t, k, o.entry.(version := f.version), evicted, s'.(flights := t.flights));
    RetainedFinish(s, k, f, o, s');
  }

  ghost predicate CacheGains(before: map<CacheKey, Entry>, k: CacheKey, e: Entry, after: map<CacheKey, Entry>) {
    forall l :: l in after ==>
      || (l in before && after[l] == before[l].(access := after[l].access))
      || (l == k && after[k] == e.(access := after[k].access))
  }

  // Retaining an entry changes the cache only: it may evict others, and adds at most this one.
  lemma RetainedShape(t: State, k: CacheKey, e: Entry, evicted: Option<CacheKey>, u: State)
    requires Retained(t, k, e, evicted, u)
    ensures Quiet(t, u) && u.flights == t.flights && u.results == t.results && CacheGains(t.cache, k, e, u.cache)
  {
    var cleared := t.(cache := t.cache - {k});
    if HasRoom(cleared, evicted) {
      PlacedShape(cleared, Remaining(cleared, evicted), |Remaining(cleared, evicted)|, k, e, u);
    }
  }

  lemma RetainedFinish(s: State, k: CacheKey, f: Flight, o: Outcome, s': State)
    requires k in s.flights && s.flights[k].id == f.id && o.Fetched? && f.version == VersionOf(s, k)
    requires s'.flights == s.flights - {k} && s'.results == s.results[f.id := o] && Quiet(s, s')
    requires CacheGains(s.cache, k, o.entry.(version := f.version), s'.cache)
    ensures Finished(s, k, f, o, s')
  {
  }

  // Neither a refresh nor an invalidation.
  predicate Silent(e: Event) { e.Other? || e.Replied? }

  lemma QuietStep(r: State, log: seq<Event>, r': State, e: Event)
    requires Silent(e) && ResolverInv(r, log) && Quiet(r, r') && Shrunk(r, r') && r'.flights == r.flights
        && r'.results == r.results
    ensures ResolverInv(r', log + [e])
  {
    QuietHistory(r, log, r', e);
    QuietRegistered(r, log, r', e);
  }

  lemma QuietHistory(r: State, log: seq<Event>, r': State, e: Event)
    requires Silent(e) && VersionsGrow(r, log) && CacheOk(r, log) && FlightsOk(r, log) && ResultsOk(r, log)
    requires Quiet(r, r') && Shrunk(r, r') && r'.flights == r.flights && r'.results == r.results
    ensures var log' := log + [e];
            VersionsGrow(r', log') && CacheOk(r', log') && FlightsOk(r', log') && ResultsOk(r', log')
  {
    forall k ensures VersionOf(r', k) == VersionOf(r, k) {}
  }

  lemma QuietRegistered(r: State, log: seq<Event>, r': State, e: Event)
    requires Silent(e) && Registered(r, log) && SingleFlight(r, log)
    requires Quiet(r, r') && r'.flights == r.flights && r'.results == r.results
    ensures Registered(r', log + [e]) && SingleFlight(r', log + [e])
  {
    forall k ensures VersionOf(r', k) == VersionOf(r, k) {}
    assert forall i: nat :: InFlight(r', log + [e], i) <==> InFlight(r, log, i);
  }

  lemma OwnedHistory(r: State, log: seq<Event>, r': State, k: CacheKey)
    requires VersionsGrow(r, log) && CacheOk(r, log) && FlightsOk(r, log) && ResultsOk(r, log)
    requires Quiet(r, r') && Shrunk(r, r') && r'.results == r.results
    requires r'.flights == r.flights[k := Flight(|log|, VersionOf(r, k))]
    ensures var log' := log + [Began(k, VersionOf(r, k))];
            VersionsGrow(r', log') && CacheOk(r', log') && FlightsOk(r', log') && ResultsOk(r', log')
  {
    forall l ensures VersionOf(r', l) == VersionOf(r, l) {}
  }

  lemma OwnedStep(r: State, log: seq<Event>, r': State, k: CacheKey)
    requires ResolverInv(r, log) && Quiet(r, r') && Shrunk(r, r') && r'.results == r.results
    requires k in r.flights ==> r.flights[k].version != VersionOf(r, k)
    requires r'.flights == r.flights[k := Flight(|log|, VersionOf(r, k))]
    ensures ResolverInv(r', log + [Began(k, VersionOf(r, k))])
  {
    OwnedHistory(r, log, r', k);
    OwnedRegistered(r, log, r', k);
  }

  lemma OwnedRegistered(r: State, log: seq<Event>, r': State, k: CacheKey)
    requires FlightsOk(r, log) && ResultsOk(r, log) && Registered(r, log) && SingleFlight(r, log)
    requires Quiet(r, r') && r'.results == r.results
    requires k in r.flights ==> r.flights[k].version != VersionOf(r, k)
    requires r'.flights == r.flights[k := Flight(|log|, VersionOf(r, k))]
    ensures var log' := log + [Began(k, VersionOf(r, k))]; Registered(r', log') && SingleFlight(r', log')
  {
    var log' := log + [Began(k, VersionOf(r, k))];
    forall l ensures VersionOf(r', l) == VersionOf(r, l) {}
    assert forall i: nat :: InFlight(r', log', i) <==> InFlight(r, log, i) || i == |log|;
    assert forall i: nat :: InFlight(r, log, i) && log[i].key == k ==> log[i].version != VersionOf(r, k);
  }

  lemma FinishCache(r: State, log: seq<Event>, k: CacheKey, f: Flight, o: Outcome, r': State)
    requires CacheOk(r, log) && FlightsOk(r, log) && Finished(r, k, f, o, r')
    requires BeganFor(log, f, k) && (o.Fetched? ==> o.entry.origin == f.id)
    ensures CacheOk(r', log + [Other])
  {
    forall l ensures VersionOf(r', l) == VersionOf(r, l) {}
    forall l | l in r'.cache
      ensures r'.cache[l].origin < |log| && log[r'.cache[l].origin].Began?
          && CleanSince(log + [Other], r'.cache[l].origin, l)
      ensures r'.cache[l].version == VersionOf(r, l)
    {
      if l !in r.cache || r'.cache[l] != r.cache[l].(access := r'.cache[l].access) {
        assert CleanSince(log, r.flights[k].id, k);
      } else {
        assert CleanSince(log, r.cache[l].origin, l);
      }
    }
  }

  lemma FinishFlights(r: State, log: seq<Event>, k: CacheKey, f: Flight, o: Outcome, r': State)
    requires VersionsGrow(r, log) && FlightsOk(r, log) && ResultsOk(r, log) && Finished(r, k, f, o, r')
    requires BeganFor(log, f, k) && (o.Fetched? ==> o.entry.origin == f.id)
    ensures VersionsGrow(r', log + [Other]) && FlightsOk(r', log + [Other]) && ResultsOk(r', log + [Other])
  {
    forall l ensures VersionOf(r', l) == VersionOf(r, l) {}
    forall l | l in r'.flights ensures r'.flights[l].id != f.id {
      assert log[r.flights[l].id].key == l;
    }
  }

  lemma FinishStep(r: State, log: seq<Event>, k: CacheKey, f: Flight, o: Outcome, r': State)
    requires ResolverInv(r, log) && Finished(r, k, f, o, r')
    requires BeganFor(log, f, k) && (o.Fetched? ==> o.entry.origin == f.id)
    ensures ResolverInv(r', log + [Other])
  {
    FinishCache(r, log, k, f, o, r');
    FinishFlights(r, log, k, f, o, r');
    FinishRegistered(r, log, k, f, o, r');
  }

  lemma FinishRegistered(r: State, log: seq<Event>, k: CacheKey, f: Flight, o: Outcome, r': State)
    requires Registered(r, log) && SingleFlight(r, log) && Finished(r, k, f, o, r')
    ensures Registered(r', log + [Other]) && SingleFlight(r', log + [Other])
  {
    forall l ensures VersionOf(r', l) == VersionOf(r, l) {}
    assert forall i: nat :: InFlight(r', log + [Other], i) <==> InFlight(r, log, i) && i != f.id;
  }

  // What an invalidation must do: every covered key that is cached or being refreshed gets a new version.
  ghost predicate Invalidation(r: State, e: Event, r': State) {
    && !e.Began? && r'.flights == r.flights && r'.results == r.results
    && (forall k :: k in r'.cache ==> k in r.cache && r'.cache[k] == r.cache[k] && !Covers(e, k))
    && (forall k :: AtMost(VersionOf(r, k), VersionOf(r', k)))
    && (forall k :: Bumps(VersionOf(r', k)) <= Bumps(VersionOf(r, k)) + (if Covers(e, k) then 1 else 0))
    && (forall k :: k in r.flights && Covers(e, k) ==> VersionOf(r', k) != VersionOf(r, k))
  }

  lemma GroupQualifies(r: State, gv: string)
    ensures Invalidation(r, GroupInvalidated(gv), InvalidatedGroup(r, gv))
  {
    var r' := InvalidatedGroup(r, gv);
    forall k
        ensures VersionOf(r', k)
            == VersionOf(r, k).(key := KeyEpoch(r, k) + (if k in GroupKeys(r, gv) then 1 else 0)) {}
  }

  lemma ResourceQualifies(r: State, k: CacheKey)
    ensures Invalidation(r, ResourceInvalidated(k), InvalidatedResource(r, k))
  {
    var r' := InvalidatedResource(r, k);
    forall l ensures VersionOf(r', l) == VersionOf(r, l).(key := KeyEpoch(r, l) + (if l == k then 1 else 0)) {}
  }

  lemma AllQualifies(r: State)
    ensures Invalidation(r, AllInvalidated, InvalidatedAll(r))
  {
    var r' := InvalidatedAll(r);
    forall l ensures VersionOf(r', l) == VersionOf(r, l).(all := r.allEpoch + 1) {}
  }

  // A version that an invalidation did not touch.
  lemma UncoveredVersion(r: State, e: Event, r': State, k: CacheKey)
    requires Invalidation(r, e, r') && !Covers(e, k)
    ensures VersionOf(r', k) == VersionOf(r, k)
  {
    assert AtMost(VersionOf(r, k), VersionOf(r', k));
    assert Bumps(VersionOf(r', k)) <= Bumps(VersionOf(r, k));
  }

  // A refresh whose version is still current after an invalidation was current before, and is not covered.
  lemma StillCurrent(r: State, log: seq<Event>, e: Event, r': State, i: nat)
    requires Invalidation(r, e, r') && VersionsGrow(r, log)
    requires i < |log| && log[i].Began? && log[i].version == VersionOf(r', log[i].key)
    ensures log[i].version == VersionOf(r, log[i].key)
    ensures log[i].key in r.flights ==> !Covers(e, log[i].key)
  {
    assert AtMost(log[i].version, VersionOf(r, log[i].key));
    assert AtMost(VersionOf(r, log[i].key), VersionOf(r', log[i].key));
  }

  lemma InvalidationHistory(r: State, log: seq<Event>, e: Event, r': State)
    requires VersionsGrow(r, log) && CacheOk(r, log) && FlightsOk(r, log) && ResultsOk(r, log) && Invalidation(r, e, r')
    ensures var log' := log + [e];
            VersionsGrow(r', log') && CacheOk(r', log') && FlightsOk(r', log') && ResultsOk(r', log')
  {
    var log' := log + [e];
    forall i | 0 <= i < |log'| && log'[i].Began? ensures AtMost(log'[i].version, VersionOf(r', log'[i].key)) {
      assert AtMost(VersionOf(r, log[i].key), VersionOf(r', log[i].key));
    }
    forall k | k in r'.cache ensures r'.cache[k].version == VersionOf(r', k) {
      UncoveredVersion(r, e, r', k);
    }
    forall k | k in r'.flights && r'.flights[k].version == VersionOf(r', k)
      ensures CleanSince(log', r'.flights[k].id, k)
    {
      StillCurrent(r, log, e, r', r.flights[k].id);
    }
  }

  lemma InvalidationStep(r: State, log: seq<Event>, e: Event, r': State)
    requires ResolverInv(r, log) && Invalidation(r, e, r')
    ensures ResolverInv(r', log + [e])
  {
    InvalidationHistory(r, log, e, r');
    var log' := log + [e];
    assert forall i: nat :: InFlight(r', log', i) <==> InFlight(r, log, i);
    forall i: nat | InFlight(r', log', i) && log'[i].version == VersionOf(r', log'[i].key)
      ensures log'[i].key in r'.flights && r'.flights[log'[i].key].id == i
    {
      StillCurrent(r, log, e, r', i);
    }
  }

  lemma CallerStable(r: State, log: seq<Event>, k: Caller, r': State, e: Event)
    requires CallerInv(r, log, k)
    requires OwnsFlight(k.phase) ==> k.phase.flight.id !in r'.results
    requires AtMost(VersionOf(r, k.key), VersionOf(r', k.key))
    requires Bumps(VersionOf(r', k.key)) <= Bumps(VersionOf(r, k.key)) + (if Covers(e, k.key) then 1 else 0)
    ensures CallerInv(r', log + [e], k)
  {
    CountAppend(log, e, k.start, k.key);
  }

  lemma CallerOf(x: System, c: nat)
    requires CallersInv(x) && c in x.callers
    ensures CallerInv(x.r, x.log, x.callers[c])
  {
  }

  // A caller owns a flight after a step only if it owned it before, or has just opened it.
  ghost predicate KeepsOwnership(x: System, c: nat, k': Caller) {
    OwnsFlight(k'.phase) ==>
      || k'.phase.flight.id == |x.log|
      || (c in x.callers && OwnsFlight(x.callers[c].phase) && x.callers[c].phase.flight == k'.phase.flight)
  }

  lemma OwnersStable(x: System, c: nat, k': Caller, x': System)
    requires CallersInv(x) && Owners(x) && KeepsOwnership(x, c, k') && x'.callers == x.callers[c := k']
    ensures Owners(x')
  {
    forall d | d in x.callers && OwnsFlight(x.callers[d].phase) ensures x.callers[d].phase.flight.id < |x.log| {
      assert CallerInv(x.r, x.log, x.callers[d]);
    }
  }

  lemma CallersStable(x: System, c: nat, k': Caller, r': State, e: Event, x': System)
    requires CallersInv(x)
    requires x' == x.(r := r', log := x.log + [e], callers := x.callers[c := k'])
    requires forall d :: d in x.callers && d != c && OwnsFlight(x.callers[d].phase) ==>
        x.callers[d].phase.flight.id !in r'.results
    requires Quiet(x.r, r') && CallerInv(r', x.log + [e], k')
    ensures CallersInv(x')
  {
    forall d | d in x'.callers && d != c ensures CallerInv(x'.r, x'.log, x'.callers[d]) {
      CallerStable(x.r, x.log, x.callers[d], r', e);
    }
  }

  lemma CallerStep(x: System, c: nat, k': Caller, r': State, e: Event, x': System)
    requires CallersInv(x) && Owners(x)
    requires x' == x.(r := r', log := x.log + [e], callers := x.callers[c := k'])
    requires r'.results == x.r.results && Quiet(x.r, r')
    requires CallerInv(r', x.log + [e], k') && KeepsOwnership(x, c, k')
    ensures CallersInv(x') && Owners(x')
  {
    forall d | d in x.callers && d != c && OwnsFlight(x.callers[d].phase)
      ensures x.callers[d].phase.flight.id !in r'.results
    {
      assert CallerInv(x.r, x.log, x.callers[d]);
    }
    CallersStable(x, c, k', r', e, x');
    OwnersStable(x, c, k', x');
  }

  lemma CallKeeps(x: System, c: nat, key: CacheKey, x': System)
    requires Inv(x) && CallStep(x, c, key, x')
    ensures Inv(x')
  {
    hide Bounded, ResolverInv, CallersInv, CallerInv, Owners, Lookup, Begin, Finish;
    QuietStep(x.r, x.log, x.r, Other);
    NewCaller(x, key);
    CallerStep(x, c, x'.callers[c], x.r, Other, x');
  }

  lemma NewCaller(x: System, key: CacheKey)
    ensures CallerInv(x.r, x.log + [Other], Caller(key, |x.log|, Bumps(VersionOf(x.r, key)), 0, Started))
  {
    CountAppend(x.log, Other, |x.log|, key);
  }

  // A cached entry is fresh for every call that has started.
  lemma HitFresh(r: State, log: seq<Event>, k: Caller, r': State, e: Event)
    requires ResolverInv(r, log) && CallerOk(r, log, k) && Shrunk(r, r') && k.key in r'.cache
    ensures FreshFor(log + [e], k, r'.cache[k.key].origin)
  {
    assert CleanSince(log, r.cache[k.key].origin, k.key);
  }

  lemma ConsultKeeps(x: System, c: nat, hit: Option<Entry>, x': System)
    requires Inv(x) && ConsultStep(x, c, hit, x')
    ensures Inv(x')
  {
    hide Bounded, ResolverInv, CallersInv, CallerInv, Owners, Lookup, Begin, Finish;
    var k := x.callers[c];
    LookupShape(x.r, k.key, x.now, x'.r, hit);
    LookupBounded(x.r, k.key, x.now, x'.r, hit);
    QuietStep(x.r, x.log, x'.r, Other);
    CallerOf(x, c);
    ConsultCaller(x, k, hit, x'.r);
    CallerStep(x, c, x'.callers[c], x'.r, Other, x');
  }

  lemma ConsultCaller(x: System, k: Caller, hit: Option<Entry>, r': State)
    requires ResolverInv(x.r, x.log) && CallerInv(x.r, x.log, k) && k.phase.Started?
    requires Quiet(x.r, r') && Shrunk(x.r, r') && r'.results == x.r.results
    requires hit.Some? ==> k.key in r'.cache && hit.value == r'.cache[k.key]
    ensures var phase := if hit == None then Missed else Returned(hit.value.resolution, hit.value.origin);
            CallerInv(r', x.log + [Other], k.(phase := phase))
  {
    CallerStable(x.r, x.log, k, r', Other);
    if hit.Some? { HitFresh(x.r, x.log, k, r', Other); }
  }

  lemma OpenKeeps(x: System, c: nat, opening: Opening, x': System)
    requires Inv(x) && OpenStep(x, c, opening, x')
    ensures Inv(x')
  {
    hide Bounded, ResolverInv, CallersInv, CallerInv, Owners, Lookup, Begin, Finish;
    var k := x.callers[c];
    BeginShape(x.r, k.key, x.now, |x.log|, x'.r, opening);
    BeginBounded(x.r, k.key, x.now, |x.log|, x'.r, opening);
    if opening.Owned? {
      OwnedStep(x.r, x.log, x'.r, k.key);
    } else {
      QuietStep(x.r, x.log, x'.r, Other);
    }
    OpenCallers(x, c, opening, x');
  }

  lemma OpenCallers(x: System, c: nat, opening: Opening, x': System)
    requires ResolverInv(x.r, x.log) && CallersInv(x) && Owners(x) && OpenStep(x, c, opening, x')
    ensures CallersInv(x') && Owners(x')
  {
    hide ResolverInv, CallersInv, CallerInv, Owners, Begin;
    var k := x.callers[c];
    BeginShape(x.r, k.key, x.now, |x.log|, x'.r, opening);
    CallerOf(x, c);
    OpenCaller(x, k, opening, x'.r);
    CallerStep(x, c, Attempted(k, opening), x'.r, OpenEvent(k, opening), x');
  }

  // What the opening must bring for the caller to go on.
  ghost predicate Sound(r: State, log: seq<Event>, k: Caller, opening: Opening) {
    match opening
    case Cached(e) => FreshFor(log, k, e.origin)
    case Joined(f) => BeganFor(log, f, k.key) && FreshFor(log, k, f.id) && f.version == VersionOf(r, k.key)
    case Owned(f) =>
      BeganFor(log, f, k.key) && FreshFor(log, k, f.id) && f.version == VersionOf(r, k.key) && f.id !in r.results
  }

  lemma SoundGoesOn(r: State, log: seq<Event>, k: Caller, opening: Opening)
    requires CallerInv(r, log, k) && k.phase.Missed? && Sound(r, log, k, opening)
    ensures CallerInv(r, log, Attempted(k, opening))
  {
  }

  lemma OpeningSound(x: System, k: Caller, opening: Opening, r': State)
    requires ResolverInv(x.r, x.log) && CallerOk(x.r, x.log, k)
    requires Begin(x.r, k.key, x.now, |x.log|, r', opening)
    ensures Sound(r', x.log + [OpenEvent(k, opening)], k, opening)
  {
    var e := OpenEvent(k, opening);
    BeginShape(x.r, k.key, x.now, |x.log|, r', opening);
    hide Begin, VersionsGrow, Registered, SingleFlight;
    match opening
    case Cached(_) => HitFresh(x.r, x.log, k, r', e);
    case Joined(f) =>
      hide CacheOk;
      assert BeganFor(x.log, f, k.key) && CleanSince(x.log, f.id, k.key);
    case Owned(_) =>
      hide CacheOk, FlightsOk;
  }

  lemma OpenCaller(x: System, k: Caller, opening: Opening, r': State)
    requires ResolverInv(x.r, x.log) && CallerInv(x.r, x.log, k) && k.phase.Missed?
    requires Begin(x.r, k.key, x.now, |x.log|, r', opening)
    ensures CallerInv(r', x.log + [OpenEvent(k, opening)], Attempted(k, opening))
  {
    hide ResolverInv, Sound;
    var e := OpenEvent(k, opening);
    BeginShape(x.r, k.key, x.now, |x.log|, r', opening);
    OpeningSound(x, k, opening, r');
    hide Begin, Shrunk;
    CallerStable(x.r, x.log, k, r', e);
    hide CallerInv;
    SoundGoesOn(r', x.log + [e], k, opening);
  }

  lemma FlightOf(x: System, c: nat)
    requires CallersInv(x) && c in x.callers && HasFlight(x.callers[c].phase)
    ensures BeganFor(x.log, x.callers[c].phase.flight, x.callers[c].key)
  {
    CallerOf(x, c);
  }

  lemma CloseKeeps(x: System, c: nat, evicted: Option<CacheKey>, x': System)
    requires Inv(x) && CloseStep(x, c, evicted, x')
    ensures Inv(x')
  {
    hide Bounded, ResolverInv, CallersInv, CallerInv, Owners, Lookup, Begin, Finish;
    var k := x.callers[c];
    var p := k.phase;
    FinishShape(x.r, k.key, p.flight, OutcomeOf(p), evicted, x'.r);
    FinishBounded(x.r, k.key, p.flight, OutcomeOf(p), evicted, x'.r);
    FlightOf(x, c);
    FinishStep(x.r, x.log, k.key, p.flight, OutcomeOf(p), x'.r);
    FinishedCallers(x, c, x');
  }

  lemma FinishedCallers(x: System, c: nat, x': System)
    requires CallersInv(x) && Owners(x) && c in x.callers && x.callers[c].phase.Answered?
    requires Quiet(x.r, x'.r)
        && x'.r.results == x.r.results[x.callers[c].phase.flight.id := OutcomeOf(x.callers[c].phase)]
    requires var p := x.callers[c].phase;
             Advance(x, c, if p.answer == None then Erred else Confirming(p.flight, p.answer.value), x'.r, Other, x')
    ensures CallersInv(x') && Owners(x')
  {
    var k := x.callers[c];
    CountAppend(x.log, Other, k.start, k.key);
    forall d | d in x.callers && d != c && OwnsFlight(x.callers[d].phase)
      ensures x.callers[d].phase.flight.id !in x'.r.results
    {
      assert CallerInv(x.r, x.log, x.callers[d]);
    }
    CallersStable(x, c, x'.callers[c], x'.r, Other, x');
    OwnersStable(x, c, x'.callers[c], x');
  }

  lemma ConfirmKeeps(x: System, c: nat, x': System)
    requires Inv(x) && ConfirmStep(x, c, x')
    ensures Inv(x')
  {
    hide Bounded, ResolverInv, CallersInv, CallerInv, Owners, Lookup, Begin, Finish;
    var k := x.callers[c];
    QuietStep(x.r, x.log, x.r, Other);
    CallerOf(x, c);
    ConfirmCaller(x, k);
    CallerStep(x, c, x'.callers[c], x.r, Other, x');
  }

  function Confirmed(r: State, k: Caller): Phase
    requires k.phase.Waiting? ==> k.phase.flight.id in r.results
    requires k.phase.Waiting? || k.phase.Confirming?
  {
    if VersionOf(r, k.key) != k.phase.flight.version then Missed else Conclude(r, k.phase)
  }

  lemma ConfirmCaller(x: System, k: Caller)
    requires ResolverInv(x.r, x.log) && CallerInv(x.r, x.log, k)
    requires k.phase.Confirming? || (k.phase.Waiting? && k.phase.flight.id in x.r.results)
    ensures CallerInv(x.r, x.log + [Other], k.(phase := Confirmed(x.r, k)))
  {
    CallerStable(x.r, x.log, k, x.r, Other);
    assert AtMost(x.log[k.phase.flight.id].version, VersionOf(x.r, k.key));
  }

  lemma QuietCaller(x: System, k: Caller, p: Phase, e: Event)
    requires CallerInv(x.r, x.log, k) && (p.Erred? || (p.Answered? && k.phase == Fetching(p.flight))) && Silent(e)
    ensures CallerInv(x.r, x.log + [e], k.(phase := p))
  {
    CallerStable(x.r, x.log, k, x.r, e);
  }

  lemma QuietKeeps(x: System, c: nat, p: Phase, e: Event, x': System)
    requires Inv(x) && c in x.callers && Advance(x, c, p, x.r, e, x') && Silent(e)
    requires p.Erred? || (p.Answered? && x.callers[c].phase == Fetching(p.flight))
    ensures Inv(x')
  {
    hide Bounded, ResolverInv, CallersInv, CallerInv, Owners, Lookup, Begin, Finish;
    QuietStep(x.r, x.log, x.r, e);
    CallerOf(x, c);
    QuietCaller(x, x.callers[c], p, e);
    CallerStep(x, c, x'.callers[c], x.r, e, x');
  }

  lemma InvalidateKeeps(x: System, r': State, e: Event, x': System)
    requires Inv(x) && InvalidateStep(x, r', e, x') && Invalidation(x.r, e, r') && Bounded(r')
    ensures Inv(x')
  {
    InvalidationStep(x.r, x.log, e, r');
    forall c | c in x'.callers ensures CallerInv(x'.r, x'.log, x'.callers[c]) {
      CallerStable(x.r, x.log, x.callers[c], r', e);
    }
  }

  lemma TickKeeps(x: System, x': System)
    requires Inv(x) && x' == x.(now := x'.now, log := x.log + [Other])
    ensures Inv(x')
  {
    QuietStep(x.r, x.log, x.r, Other);
    forall c | c in x'.callers ensures CallerInv(x'.r, x'.log, x'.callers[c]) {
      CallerStable(x.r, x.log, x.callers[c], x.r, Other);
    }
  }

  lemma GroupKeeps(x: System, gv: string, x': System)
    requires Inv(x) && InvalidateStep(x, InvalidatedGroup(x.r, gv), GroupInvalidated(gv), x')
    ensures Inv(x')
  {
    GroupQualifies(x.r, gv);
    InvalidationBounded(x.r, gv, CacheKey("", ""));
    InvalidateKeeps(x, x'.r, GroupInvalidated(gv), x');
  }

  lemma ResourceKeeps(x: System, key: CacheKey, x': System)
    requires Inv(x) && InvalidateStep(x, InvalidatedResource(x.r, key), ResourceInvalidated(key), x')
    ensures Inv(x')
  {
    ResourceQualifies(x.r, key);
    InvalidationBounded(x.r, "", key);
    InvalidateKeeps(x, x'.r, ResourceInvalidated(key), x');
  }

  lemma AllKeeps(x: System, x': System)
    requires Inv(x) && InvalidateStep(x, InvalidatedAll(x.r), AllInvalidated, x')
    ensures Inv(x')
  {
    AllQualifies(x.r);
    InvalidationBounded(x.r, "", CacheKey("", ""));
    InvalidateKeeps(x, x'.r, AllInvalidated, x');
  }

  predicate Invalidating(step: Step) {
    step.InvalidateGroup? || step.InvalidateOne? || step.InvalidateEvery?
  }

  predicate Sectional(step: Step) {
    step.Consult? || step.Open? || step.Close? || step.Confirm?
  }

  lemma InvalidatingKeeps(x: System, step: Step, x': System)
    requires Inv(x) && Next(x, step, x') && Invalidating(step)
    ensures Inv(x')
  {
    match step
    case InvalidateGroup(gv) => GroupKeeps(x, gv, x');
    case InvalidateOne(key) => ResourceKeeps(x, key, x');
    case InvalidateEvery => AllKeeps(x, x');
    case _ =>
  }

  lemma SectionalKeeps(x: System, step: Step, x': System)
    requires Inv(x) && Next(x, step, x') && Sectional(step)
    ensures Inv(x')
  {
    match step
    case Consult(c, hit) => ConsultKeeps(x, c, hit, x');
    case Open(c, opening) => OpenKeeps(x, c, opening, x');
    case Close(c, evicted) => CloseKeeps(x, c, evicted, x');
    case Confirm(c) => ConfirmKeeps(x, c, x');
    case _ =>
  }

  lemma NextKeeps(x: System, step: Step, x': System)
    requires Inv(x) && Next(x, step, x')
    ensures Inv(x')
  {
    hide Inv;
    if Invalidating(step) {
      InvalidatingKeeps(x, step, x');
    } else if Sectional(step) {
      SectionalKeeps(x, step, x');
    } else {
      match step
      case Call(c, key) => CallKeeps(x, c, key, x');
      case Answer(c, answer) =>
        var f := x.callers[c].phase.flight;
        QuietKeeps(x, c, Answered(f, answer, x.now + x.ttl), ReplyEvent(f, answer, x.now), x');
      case GiveUp(c) => QuietKeeps(x, c, Erred, Other, x');
      case Tick(elapsed) => TickKeeps(x, x');
      case _ =>
    }
  }

  lemma {:induction false} RunInvariant(run: seq<System>, steps: seq<Step>, i: nat)
    requires IsRun(run, steps) && i < |run|
    ensures Inv(run[i])
  {
    if i > 0 {
      RunInvariant(run, steps, i - 1);
      NextKeeps(run[i - 1], steps[i - 1], run[i]);
    }
  }

  /* ---------- the theorems ---------- */

  // A Resolve that starts after an invalidation covering its key never returns a resolution whose
  // refresh began before that invalidation.
  lemma NoStaleResolution(run: seq<System>, steps: seq<Step>, n: nat, c: nat, i: nat)
    requires IsRun(run, steps) && n < |run| && c in run[n].callers
    requires var k := run[n].callers[c];
             k.phase.Returned? && i < k.start && i < |run[n].log| && Covers(run[n].log[i], k.key)
    ensures i < run[n].callers[c].phase.origin
  {
    RunInvariant(run, steps, n);
  }

  // Two refreshes of one key that are in flight together were opened under different versions.
  lemma FlightsHaveDistinctVersions(run: seq<System>, steps: seq<Step>, n: nat, i: nat, j: nat)
    requires IsRun(run, steps) && n < |run| && i != j
    requires InFlight(run[n].r, run[n].log, i) && InFlight(run[n].r, run[n].log, j)
    requires run[n].log[i].key == run[n].log[j].key
    ensures run[n].log[i].version != run[n].log[j].version
  {
    RunInvariant(run, steps, n);
  }

  // One Resolve makes at most one more attempt than version bumps, and than invalidations, of its key during the call.
  lemma AttemptsBounded(run: seq<System>, steps: seq<Step>, n: nat, c: nat)
    requires IsRun(run, steps) && n < |run| && c in run[n].callers
    ensures var k := run[n].callers[c];
            && k.start <= |run[n].log| && k.attempts <= 1 + CoveringCount(run[n].log, k.start, k.key)
            && k.attempts <= 1 + Bumps(VersionOf(run[n].r, k.key)) - k.bumps
  {
    RunInvariant(run, steps, n);
  }

  // In every run the cache stays within capacity and access sequences stay distinct and below the counter.
  lemma CacheBounded(run: seq<System>, steps: seq<Step>, n: nat)
    requires IsRun(run, steps) && n < |run|
    ensures |run[n].r.cache| <= run[n].r.capacity && Distinct(run[n].r.cache)
        && Within(run[n].r.cache, run[n].r.sequence)
    ensures run[n].r.sequence < SEQUENCE_LIMIT
  {
    RunInvariant(run, steps, n);
  }
}
