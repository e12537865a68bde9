/**
 The discovery cache of the resolver: every critical section of the resolver's lock is one
 two-state relation over `State`, and the class `Resolver` performs it in place.
 */
module DiscoveryCache {
  import opened Common

  // Access sequences are unsigned 64-bit counters.
  const SEQUENCE_LIMIT: nat := 0x1_0000_0000_0000_0000

  datatype CacheKey = CacheKey(groupVersion: string, kind: string)
  datatype Version = Version(all: nat, key: nat)
  datatype Resolution = Resolution(resource: string, namespaced: bool)

  // `origin` names the refresh that produced the entry; no step branches on it.
  datatype Entry = Entry(resolution: Resolution, expiresAt: int, access: nat, version: Version, origin: nat)

  // One allocated refresh state: its identity and the version it was opened under.
  datatype Flight = Flight(id: nat, version: Version)
  datatype Outcome = Fetched(entry: Entry) | Failed

  // `results` holds the outcome of every refresh whose done channel has been closed.
  datatype State = State(
    cache: map<CacheKey, Entry>,
    flights: map<CacheKey, Flight>,
    results: map<nat, Outcome>,
    sequence: nat,
    allEpoch: nat,
    keyEpoch: map<CacheKey, nat>,
    capacity: nat)

  function KeyEpoch(s: State, k: CacheKey): nat {
    if k in s.keyEpoch then s.keyEpoch[k] else 0
  }

  function VersionOf(s: State, k: CacheKey): Version {
    Version(s.allEpoch, KeyEpoch(s, k))
  }

  predicate CacheKeyLess(a: CacheKey, b: CacheKey) {
    if a.groupVersion != b.groupVersion then StringLess(a.groupVersion, b.groupVersion)
    else StringLess(a.kind, b.kind)
  }

  /* ---------- recency ---------- */

  // Everything but the access sequence is the same.
  ghost predicate SameButAccess(a: map<CacheKey, Entry>, b: map<CacheKey, Entry>) {
    a.Keys == b.Keys && forall k :: k in a ==> b[k] == a[k].(access := b[k].access)
  }

  ghost predicate Distinct(c: map<CacheKey, Entry>) {
    forall k, l :: k in c && l in c && k != l ==> c[k].access != c[l].access
  }

  ghost predicate Within(c: map<CacheKey, Entry>, bound: nat) {
    forall k :: k in c ==> 1 <= c[k].access <= bound
  }

  // Allocating the next access sequence while `size` entries are cached: `rest` are the entries
  // whose own sequence is kept. A counter that wraps renumbers them in an unspecified order.
  ghost predicate NextAccess(rest: map<CacheKey, Entry>, sequence: nat, size: nat, rest': map<CacheKey, Entry>,
      sequence': nat)
  {
    if sequence + 1 < SEQUENCE_LIMIT then
      rest' == rest && sequence' == sequence + 1
    else
      SameButAccess(rest, rest') && Distinct(rest') && Within(rest', size) && sequence' == size + 1
  }

  // `k` becomes the most recently used key, with entry `e`; `rest` are the other entries.
  ghost predicate Placed(s: State, rest: map<CacheKey, Entry>, size: nat, k: CacheKey, e: Entry, s': State) {
    && s' == s.(cache := s'.cache, sequence := s'.sequence)
    && k in s'.cache
    && s'.cache[k] == e.(access := s'.sequence)
    && NextAccess(rest, s.sequence, size, s'.cache - {k}, s'.sequence)
  }

  ghost predicate Touched(s: State, k: CacheKey, s': State)
    requires k in s.cache
  {
    Placed(s, s.cache - {k}, |s.cache|, k, s.cache[k], s')
  }

  ghost predicate Candidate(s: State, k: CacheKey) {
    k in s.cache && k !in s.flights
  }

  predicate OlderThan(c: map<CacheKey, Entry>, a: CacheKey, b: CacheKey)
    requires a in c && b in c
  {
    c[a].access < c[b].access || (c[a].access == c[b].access && CacheKeyLess(a, b))
  }

  lemma OlderThanOrder(c: map<CacheKey, Entry>, a: CacheKey, b: CacheKey, d: CacheKey)
    requires a in c && b in c && d in c
    ensures a == b || OlderThan(c, a, b) || OlderThan(c, b, a)
    ensures OlderThan(c, a, b) && OlderThan(c, b, d) ==> OlderThan(c, a, d)
  {
    StringLessTotal(a.groupVersion, b.groupVersion);
    StringLessTotal(a.kind, b.kind);
    if StringLess(a.groupVersion, b.groupVersion) && StringLess(b.groupVersion, d.groupVersion) {
      StringLessTransitive(a.groupVersion, b.groupVersion, d.groupVersion);
      StringLessTotal(a.groupVersion, d.groupVersion);
    }
    if StringLess(a.kind, b.kind) && StringLess(b.kind, d.kind) {
      StringLessTransitive(a.kind, b.kind, d.kind);
    }
  }

  // The entry evicted next: of those not being refreshed, the smallest access sequence.
  ghost predicate Victim(s: State, v: CacheKey) {
    && Candidate(s, v)
    && forall k :: Candidate(s, k) && k != v ==>
         OlderThan(s.cache, v, k)
  }

  // Making room in a full cache evicts the oldest candidate; `evicted` is None when none is needed or none exists.
  ghost predicate Eviction(s: State, evicted: Option<CacheKey>) {
    if |s.cache| < s.capacity then evicted == None
    else match evicted
      case None => forall v :: !Candidate(s, v)
      case Some(v) => Victim(s, v)
  }

  predicate HasRoom(s: State, evicted: Option<CacheKey>) {
    |s.cache| < s.capacity || evicted.Some?
  }

  function Remaining(s: State, evicted: Option<CacheKey>): map<CacheKey, Entry> {
    if evicted.Some? then s.cache - {evicted.value} else s.cache
  }

  // Storing a refreshed entry; with a full cache and nothing to evict, the entry is not kept.
  ghost predicate Retained(s: State, k: CacheKey, e: Entry, evicted: Option<CacheKey>, s': State) {
    var cleared := s.(cache := s.cache - {k});
    && Eviction(cleared, evicted)
    && if HasRoom(cleared, evicted)
       then Placed(cleared, Remaining(cleared, evicted), |Remaining(cleared, evicted)|, k, e, s')
       else s' == cleared
  }

  /* ---------- the critical sections ---------- */

  ghost predicate Lookup(s: State, k: CacheKey, now: int, s': State, hit: Option<Entry>) {
    if k !in s.cache then s' == s && hit == None
    else if s.cache[k].version != VersionOf(s, k) then s' == s.(cache := s.cache - {k}) && hit == None
    else if now >= s.cache[k].expiresAt then s' == s && hit == None
    else Touched(s, k, s') && hit == Some(s'.cache[k])
  }

  datatype Opening = Cached(entry: Entry) | Joined(flight: Flight) | Owned(flight: Flight)

  ghost predicate Begin(s: State, k: CacheKey, now: int, id: nat, s': State, r: Opening) {
    var v := VersionOf(s, k);
    if k in s.cache && s.cache[k].version == v && now < s.cache[k].expiresAt then
      Touched(s, k, s') && r == Cached(s'.cache[k])
    else
      var t := if k in s.cache && s.cache[k].version != v then s.(cache := s.cache - {k}) else s;
      if k in s.flights && s.flights[k].version == v then
        s' == t && r == Joined(s.flights[k])
      else
        s' == t.(flights := t.flights[k := Flight(id, v)]) && r == Owned(Flight(id, v))
  }

  ghost predicate Finish(s: State, k: CacheKey, f: Flight, o: Outcome, evicted: Option<CacheKey>, s': State) {
    var t := s.(results := s.results[f.id := o]);
    if k in s.flights && s.flights[k].id == f.id then
      if o.Fetched? && f.version == VersionOf(s, k) then
        && s' == s'.(flights := t.flights - {k})
        && Retained(t, k, o.entry.(version := f.version), evicted, s'.(flights := t.flights))
      else
        s' == t.(flights := t.flights - {k})
    else s' == t
  }

  function GroupKeys(s: State, gv: string): set<CacheKey> {
    set k | k in s.cache.Keys + s.flights.Keys && k.groupVersion == gv
  }

  function InvalidatedGroup(s: State, gv: string): State {
    s.(cache := map k | k in s.cache && k.groupVersion != gv :: s.cache[k],
       keyEpoch := map k | k in s.keyEpoch.Keys + GroupKeys(s, gv) ::
         KeyEpoch(s, k) + (if k in GroupKeys(s, gv) then 1 else 0))
  }

  function InvalidatedResource(s: State, k: CacheKey): State {
    s.(cache := s.cache - {k}, keyEpoch := s.keyEpoch[k := KeyEpoch(s, k) + 1])
  }

  function InvalidatedAll(s: State): State {
    s.(cache := map[], allEpoch := s.allEpoch + 1)
  }

  /* ---------- what every critical section keeps ---------- */

  ghost predicate Sized(s: State) {
    && 1 <= s.capacity < SEQUENCE_LIMIT - 1
    && |s.cache| <= s.capacity
    && s.sequence < SEQUENCE_LIMIT
  }

  ghost predicate Bounded(s: State) {
    && Sized(s)
    && Distinct(s.cache)
    && Within(s.cache, s.sequence)
  }

  // Every cached entry carries the current version of its key.
  ghost predicate CacheCurrent(s: State) {
    forall k :: k in s.cache ==> s.cache[k].version == VersionOf(s, k)
  }

  lemma PlacedBounded(s: State, rest: map<CacheKey, Entry>, size: nat, k: CacheKey, e: Entry, s': State)
    requires Placed(s, rest, size, k, e, s')
    requires 1 <= s.capacity < SEQUENCE_LIMIT - 1 && s.sequence < SEQUENCE_LIMIT
    requires k !in rest && |rest| < s.capacity && size <= s.capacity
    requires Distinct(rest) && Within(rest, s.sequence)
    ensures Bounded(s')
  {
    var others := s'.cache - {k};
    assert |s'.cache| <= s.capacity by {
      assert s'.cache.Keys == rest.Keys + {k};
      assert |rest| == |rest.Keys| && |s'.cache| == |s'.cache.Keys|;
    }
    assert Distinct(others) && Within(others, s'.sequence - 1);
    forall l | l in s'.cache ensures 1 <= s'.cache[l].access <= s'.sequence {
      if l != k { assert s'.cache[l] == others[l]; }
    }
    forall a, b | a in s'.cache && b in s'.cache && a != b ensures s'.cache[a].access != s'.cache[b].access {
      if a != k { assert s'.cache[a] == others[a]; }
      if b != k { assert s'.cache[b] == others[b]; }
    }
  }

  lemma TouchedBounded(s: State, k: CacheKey, s': State)
    requires Bounded(s) && k in s.cache && Touched(s, k, s')
    ensures Bounded(s')
  {
    var rest := s.cache - {k};
    assert rest.Keys == s.cache.Keys - {k};
    assert |rest| == |rest.Keys| && |s.cache| == |s.cache.Keys|;
    PlacedBounded(s, rest, |s.cache|, k, s.cache[k], s');
  }

  lemma RemovedBounded(s: State, cache': map<CacheKey, Entry>)
    requires Bounded(s)
    requires cache'.Keys <= s.cache.Keys && forall k :: k in cache' ==> cache'[k] == s.cache[k]
    ensures Bounded(s.(cache := cache'))
  {
    SubsetSize(cache'.Keys, s.cache.Keys);
    assert |cache'| == |cache'.Keys| && |s.cache| == |s.cache.Keys|;
  }

  lemma RemoveAbsent(c: map<CacheKey, Entry>, k: CacheKey)
    requires k !in c
    ensures c - {k} == c
  {
  }

  lemma RetainedBounded(s: State, k: CacheKey, e: Entry, evicted: Option<CacheKey>, s': State)
    requires Bounded(s) && Retained(s, k, e, evicted, s')
    ensures Bounded(s')
  {
    var cleared := s.(cache := s.cache - {k});
    RemovedBounded(s, s.cache - {k});
    if HasRoom(cleared, evicted) {
      var rest := Remaining(cleared, evicted);
      RemovedBounded(cleared, rest);
      if evicted.Some? {
        assert rest.Keys == cleared.cache.Keys - {evicted.value};
        assert |rest| == |rest.Keys| && |cleared.cache| == |cleared.cache.Keys|;
      }
      PlacedBounded(cleared, rest, |rest|, k, e, s');
    }
  }

  // Capacity, distinct access sequences and the counter bound hold after every critical section,
  // including the ones in which the 64-bit counter wraps.
  lemma LookupBounded(s: State, k: CacheKey, now: int, s': State, hit: Option<Entry>)
    requires Bounded(s) && Lookup(s, k, now, s', hit)
    ensures Bounded(s')
  {
    RemovedBounded(s, s.cache - {k});
    if k in s.cache && s.cache[k].version == VersionOf(s, k) && now < s.cache[k].expiresAt {
      TouchedBounded(s, k, s');
    }
  }

  lemma BeginBounded(s: State, k: CacheKey, now: int, id: nat, s': State, r: Opening)
    requires Bounded(s) && Begin(s, k, now, id, s', r)
    ensures Bounded(s')
  {
    RemovedBounded(s, s.cache - {k});
    if k in s.cache && s.cache[k].version == VersionOf(s, k) && now < s.cache[k].expiresAt {
      TouchedBounded(s, k, s');
    }
  }

  lemma FinishBounded(s: State, k: CacheKey, f: Flight, o: Outcome, evicted: Option<CacheKey>, s': State)
    requires Bounded(s) && Finish(s, k, f, o, evicted, s')
    ensures Bounded(s')
  {
    var t := s.(results := s.results[f.id := o]);
    if k in s.flights && s.flights[k].id == f.id && o.Fetched? && f.version == VersionOf(s, k) {
      RetainedBounded(t, k, o.entry.(version := f.version), evicted, s'.(flights := t.flights));
    }
  }

  lemma InvalidationBounded(s: State, gv: string, k: CacheKey)
    requires Bounded(s)
    ensures Bounded(InvalidatedGroup(s, gv)) && Bounded(InvalidatedResource(s, k)) && Bounded(InvalidatedAll(s))
  {
    RemovedBounded(s, InvalidatedGroup(s, gv).cache);
    RemovedBounded(s, s.cache - {k});
  }
}
