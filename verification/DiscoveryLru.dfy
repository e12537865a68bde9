/** The cache seen as a list of keys, least recently used first: what each critical section and each run does to it. */
module DiscoveryLru {
  import opened Common
  import opened Bags
  import opened DiscoveryCache
  import opened DiscoveryRuns

  // Listed from the least recently used on.
  ghost predicate Rising(c: map<CacheKey, Entry>, l: seq<CacheKey>) {
    && (forall i :: 0 <= i < |l| ==> l[i] in c)
    && forall i, j :: 0 <= i < j < |l| ==> c[l[i]].access < c[l[j]].access
  }

  // `l` lists exactly the cached keys.
  ghost predicate RecencyList(c: map<CacheKey, Entry>, l: seq<CacheKey>) {
    Rising(c, l) && forall k :: k in c ==> k in l
  }

  function Kept(l: seq<CacheKey>, gone: set<CacheKey>): (r: seq<CacheKey>)
    ensures forall k :: k in r <==> k in l && k !in gone
  {
    if l == [] then []
    else if l[0] in gone then Kept(l[1..], gone)
    else [l[0]] + Kept(l[1..], gone)
  }

  lemma {:induction false} KeptRising(c: map<CacheKey, Entry>, l: seq<CacheKey>, gone: set<CacheKey>)
    requires Rising(c, l)
    ensures Rising(c - gone, Kept(l, gone))
  {
    if l != [] {
      KeptRising(c, l[1..], gone);
      FirstEarliest(c, l);
      if l[0] !in gone { RisingFrom(c - gone, l[0], Kept(l[1..], gone)); }
    }
  }

  lemma FirstEarliest(c: map<CacheKey, Entry>, l: seq<CacheKey>)
    requires Rising(c, l) && l != []
    ensures forall k :: k in l[1..] ==> k in c && c[l[0]].access < c[k].access
  {
    forall k | k in l[1..] ensures k in c && c[l[0]].access < c[k].access {
      var i :| 0 <= i < |l[1..]| && l[1..][i] == k;
      assert l[i + 1] == k;
    }
  }

  lemma RisingFrom(c: map<CacheKey, Entry>, k: CacheKey, rest: seq<CacheKey>)
    requires Rising(c, rest) && k in c && forall x :: x in rest ==> x in c && c[k].access < c[x].access
    ensures Rising(c, [k] + rest)
  {
    var l := [k] + rest;
    assert forall i :: 0 < i < |l| ==> l[i] == rest[i - 1] && l[i] in rest;
  }

  lemma KeptRecency(c: map<CacheKey, Entry>, l: seq<CacheKey>, gone: set<CacheKey>)
    requires RecencyList(c, l)
    ensures RecencyList(c - gone, Kept(l, gone))
  {
    KeptRising(c, l, gone);
  }

  // A recency list has each key once, and as many as are cached.
  lemma RecencySize(c: map<CacheKey, Entry>, l: seq<CacheKey>)
    requires RecencyList(c, l)
    ensures Different(l) && |l| == |c|
  {
    DifferentSize(l);
    assert Elements(l) == c.Keys;
    assert |c| == |c.Keys|;
  }

  /* ---------- one critical section ---------- */

  // A key placed over entries that stay in order comes last.
  lemma PlacedLast(s: State, rest: map<CacheKey, Entry>, size: nat, k: CacheKey, e: Entry, s': State, l: seq<CacheKey>)
    requires Placed(s, rest, size, k, e, s') && Within(s'.cache - {k}, s'.sequence - 1)
    requires RecencyList(s'.cache - {k}, l)
    ensures RecencyList(s'.cache, l + [k])
  {
    var others, m := s'.cache - {k}, l + [k];
    assert forall i :: 0 <= i < |l| ==> m[i] == l[i] && l[i] in others && s'.cache[l[i]] == others[l[i]];
    forall x | x in s'.cache ensures x in m { assert x == k || x in others; }
  }

  lemma PlacedWithin(s: State, rest: map<CacheKey, Entry>, size: nat, k: CacheKey, e: Entry, s': State)
    requires Placed(s, rest, size, k, e, s') && Within(rest, s.sequence)
    ensures Within(s'.cache - {k}, s'.sequence - 1)
    ensures s.sequence + 1 < SEQUENCE_LIMIT ==> s'.cache - {k} == rest
  {
  }

  // A cache hit moves the key to the recent end of the list.
  lemma HitRefinesLru(s: State, k: CacheKey, s': State, l: seq<CacheKey>)
    requires Bounded(s) && k in s.cache && Touched(s, k, s')
    requires s.sequence + 1 < SEQUENCE_LIMIT && RecencyList(s.cache, l)
    ensures RecencyList(s'.cache, Kept(l, {k}) + [k])
  {
    KeptRecency(s.cache, l, {k});
    PlacedWithin(s, s.cache - {k}, |s.cache|, k, s.cache[k], s');
    PlacedLast(s, s.cache - {k}, |s.cache|, k, s.cache[k], s', Kept(l, {k}));
  }

  // The first listed key that is not being refreshed, if there is one.
  function Oldest(l: seq<CacheKey>, busy: set<CacheKey>): Option<CacheKey> {
    if l == [] then None
    else if l[0] !in busy then Some(l[0])
    else Oldest(l[1..], busy)
  }

  // Eviction by access sequence is eviction of the oldest evictable key in the list.
  lemma OldestIsVictim(s: State, l: seq<CacheKey>, evicted: Option<CacheKey>)
    requires RecencyList(s.cache, l)
    requires match evicted case None => (forall k :: !Candidate(s, k)) case Some(v) => Victim(s, v)
    ensures Oldest(l, s.flights.Keys) == evicted
  {
    var n := OldestIndex(l, s.flights.Keys, 0);
    if n < |l| {
      assert Candidate(s, l[n]);
      var i :| 0 <= i < |l| && l[i] == evicted.value;
    }
  }

  lemma {:induction false} OldestIndex(l: seq<CacheKey>, busy: set<CacheKey>, from: nat) returns (n: nat)
    requires from <= |l|
    ensures from <= n <= |l|
    ensures forall i :: from <= i < n ==> l[i] in busy
    ensures n < |l| ==> l[n] !in busy && Oldest(l[from..], busy) == Some(l[n])
    ensures n == |l| ==> Oldest(l[from..], busy) == None
    ensures from == 0 ==> l[from..] == l
    decreases |l| - from
  {
    if from == |l| {
      n := from;
    } else if l[from] !in busy {
      n := from;
    } else {
      n := OldestIndex(l, busy, from + 1);
      assert l[from..][1..] == l[from + 1..];
    }
  }

  // What an insertion does to the list: drop the key, drop the oldest evictable key when full
  // (or give up when there is none), and append the key at the recent end.
  function LruInsert(l: seq<CacheKey>, busy: set<CacheKey>, capacity: nat, k: CacheKey): seq<CacheKey> {
    var rest := Kept(l, {k});
    if |rest| < capacity then rest + [k]
    else match Oldest(rest, busy)
      case None => rest
      case Some(v) => Kept(rest, {v}) + [k]
  }

  lemma InsertionRefinesLru(s: State, k: CacheKey, e: Entry, evicted: Option<CacheKey>, s': State, l: seq<CacheKey>)
    requires Bounded(s) && Retained(s, k, e, evicted, s')
    requires s.sequence + 1 < SEQUENCE_LIMIT && RecencyList(s.cache, l)
    ensures RecencyList(s'.cache, LruInsert(l, s.flights.Keys, s.capacity, k))
  {
    var cleared := s.(cache := s.cache - {k});
    var rest := Kept(l, {k});
    KeptRecency(s.cache, l, {k});
    RemovedBounded(s, s.cache - {k});
    RecencySize(cleared.cache, rest);
    hide Kept, RecencyList;
    if |rest| < s.capacity {
      InsertedLast(cleared, cleared.cache, k, e, s', rest);
    } else {
      OldestIsVictim(cleared, rest, evicted);
      if evicted.Some? {
        var v := evicted.value;
        KeptRecency(cleared.cache, rest, {v});
        RemovedBounded(cleared, cleared.cache - {v});
        InsertedLast(cleared, cleared.cache - {v}, k, e, s', Kept(rest, {v}));
      }
    }
  }

  lemma InsertedLast(s: State, rest: map<CacheKey, Entry>, k: CacheKey, e: Entry, s': State, l: seq<CacheKey>)
    requires Placed(s, rest, |rest|, k, e, s') && Within(rest, s.sequence) && s.sequence + 1 < SEQUENCE_LIMIT
    requires RecencyList(rest, l)
    ensures RecencyList(s'.cache, l + [k])
  {
    PlacedWithin(s, rest, |rest|, k, e, s');
    hide RecencyList;
    PlacedLast(s, rest, |rest|, k, e, s', l);
  }

  function GroupOf(l: seq<CacheKey>, gv: string): set<CacheKey> { set k | k in l && k.groupVersion == gv }

  // An invalidation takes its keys out of the list.
  lemma InvalidationRefinesLru(s: State, gv: string, k: CacheKey, l: seq<CacheKey>)
    requires RecencyList(s.cache, l)
    ensures RecencyList(InvalidatedGroup(s, gv).cache, Kept(l, GroupOf(l, gv)))
    ensures RecencyList(InvalidatedResource(s, k).cache, Kept(l, {k}))
    ensures RecencyList(InvalidatedAll(s).cache, [])
  {
    KeptRecency(s.cache, l, GroupOf(l, gv));
    KeptRecency(s.cache, l, {k});
    assert InvalidatedGroup(s, gv).cache == s.cache - GroupOf(l, gv);
  }

  /* ---------- the wrap of the counter ---------- */

  // At a wrap the other entries may be renumbered backwards.
  function Reversed(rest: map<CacheKey, Entry>, l: seq<CacheKey>): map<CacheKey, Entry>
    requires RecencyList(rest, l)
  {
    map x | x in rest :: rest[x].(access := |l| - At(l, x))
  }

  function Backwards(s: State, rest: map<CacheKey, Entry>, size: nat, k: CacheKey, e: Entry, l: seq<CacheKey>): State
    requires RecencyList(rest, l)
  {
    s.(cache := Reversed(rest, l)[k := e.(access := size + 1)], sequence := size + 1)
  }

  function At(l: seq<CacheKey>, k: CacheKey): (i: nat)
    requires k in l
    ensures i < |l| && l[i] == k
  {
    if l[0] == k then 0 else 1 + At(l[1..], k)
  }

  lemma BackwardsPlaces(s: State, rest: map<CacheKey, Entry>, size: nat, k: CacheKey, e: Entry, l: seq<CacheKey>)
    requires s.sequence + 1 >= SEQUENCE_LIMIT && k !in rest && RecencyList(rest, l) && |l| <= size
    ensures Placed(s, rest, size, k, e, Backwards(s, rest, size, k, e, l))
  {
    ReversedRenumbers(rest, l);
    hide Reversed, RecencyList, SameButAccess, Distinct;
    DropAdded(Reversed(rest, l), k, e.(access := size + 1));
  }

  lemma DropAdded<K, V>(m: map<K, V>, k: K, e: V)
    requires k !in m
    ensures m[k := e] - {k} == m
  {
  }

  lemma ReversedRenumbers(rest: map<CacheKey, Entry>, l: seq<CacheKey>)
    requires RecencyList(rest, l)
    ensures SameButAccess(rest, Reversed(rest, l)) && Distinct(Reversed(rest, l)) && Within(Reversed(rest, l), |l|)
    ensures Reversed(rest, l).Keys == rest.Keys
  {
  }

  // Placing a key keeps the others' order, whatever the renumbering, exactly while the counter does not wrap or at
  // most one other entry is kept.
  lemma PlacedRefinesExactly(s: State, rest: map<CacheKey, Entry>, size: nat, k: CacheKey, e: Entry, l: seq<CacheKey>)
    requires k !in rest && Within(rest, s.sequence) && RecencyList(rest, l) && |rest| <= size
    ensures (forall s' :: Placed(s, rest, size, k, e, s') ==> RecencyList(s'.cache, l + [k]))
            <==> s.sequence + 1 < SEQUENCE_LIMIT || |rest| <= 1
  {
    RecencySize(rest, l);
    if s.sequence + 1 < SEQUENCE_LIMIT || |rest| <= 1 {
      forall s' | Placed(s, rest, size, k, e, s') ensures RecencyList(s'.cache, l + [k]) {
        PlacedWithin(s, rest, size, k, e, s');
        if s.sequence + 1 >= SEQUENCE_LIMIT { assert (s'.cache - {k}).Keys == rest.Keys; }
        PlacedLast(s, rest, size, k, e, s', l);
      }
    } else {
      BackwardsPlaces(s, rest, size, k, e, l);
      BackwardsDiffers(s, rest, size, k, e, l);
    }
  }

  lemma BackwardsDiffers(s: State, rest: map<CacheKey, Entry>, size: nat, k: CacheKey, e: Entry, l: seq<CacheKey>)
    requires k !in rest && RecencyList(rest, l) && |l| >= 2
    ensures !RecencyList(Backwards(s, rest, size, k, e, l).cache, l + [k])
  {
    RecencySize(rest, l);
    var w, m := Backwards(s, rest, size, k, e, l), l + [k];
    assert m[0] == l[0] && m[1] == l[1];
    assert At(l, l[0]) == 0 && At(l, l[1]) == 1;
    assert w.cache[m[0]].access > w.cache[m[1]].access;
  }

  lemma RestSize(c: map<CacheKey, Entry>, k: CacheKey)
    requires k in c
    ensures |c - {k}| == |c| - 1
  {
    assert (c - {k}).Keys == c.Keys - {k};
    assert |c - {k}| == |(c - {k}).Keys| && |c| == |c.Keys|;
  }

  // A hit refines the list, whatever the renumbering, exactly while the counter does not wrap or there are at most two
  // entries: from three on, a wrap may renumber the others in another order.
  lemma HitRefinesExactly(s: State, k: CacheKey, l: seq<CacheKey>)
    requires Bounded(s) && k in s.cache && RecencyList(s.cache, l)
    ensures (forall s' :: Touched(s, k, s') ==> RecencyList(s'.cache, Kept(l, {k}) + [k]))
            <==> s.sequence + 1 < SEQUENCE_LIMIT || |s.cache| <= 2
  {
    var rest := s.cache - {k};
    KeptRecency(s.cache, l, {k});
    RestSize(s.cache, k);
    hide RecencyList, Placed, Kept, Distinct, Sized;
    PlacedRefinesExactly(s, rest, |s.cache|, k, s.cache[k], Kept(l, {k}));
  }

  /* ---------- runs ---------- */

  // What a lookup does to the list: a fresh entry moves to the recent end, an outdated one goes.
  function Consulted(r: State, k: CacheKey, now: int, l: seq<CacheKey>): seq<CacheKey> {
    if k !in r.cache then l
    else if r.cache[k].version != VersionOf(r, k) then Kept(l, {k})
    else if now >= r.cache[k].expiresAt then l
    else Kept(l, {k}) + [k]
  }

  // What a finished refresh does: only the registered one, with an answer under the current version, inserts.
  function Closed(r: State, k: CacheKey, p: Phase, l: seq<CacheKey>): seq<CacheKey>
    requires p.Answered?
  {
    if k in r.flights && r.flights[k].id == p.flight.id && p.answer.Some? && p.flight.version == VersionOf(r, k)
    then LruInsert(l, r.flights.Keys, r.capacity, k)
    else l
  }

  ghost function After(x: System, step: Step, l: seq<CacheKey>): seq<CacheKey> {
    match step
    case Consult(c, _) => if c in x.callers then Consulted(x.r, x.callers[c].key, x.now, l) else l
    case Open(c, _) => if c in x.callers then Consulted(x.r, x.callers[c].key, x.now, l) else l
    case Close(c, _) =>
      if c in x.callers && x.callers[c].phase.Answered? then Closed(x.r, x.callers[c].key, x.callers[c].phase, l) else l
    case InvalidateGroup(gv) => Kept(l, GroupOf(l, gv))
    case InvalidateOne(key) => Kept(l, {key})
    case InvalidateEvery => []
    case _ => l
  }

  lemma LookupRefines(s: State, k: CacheKey, now: int, s': State, hit: Option<Entry>, l: seq<CacheKey>)
    requires Bounded(s) && Lookup(s, k, now, s', hit) && s.sequence + 1 < SEQUENCE_LIMIT && RecencyList(s.cache, l)
    ensures RecencyList(s'.cache, Consulted(s, k, now, l))
  {
    KeptRecency(s.cache, l, {k});
    hide RecencyList, Bounded, Kept, VersionOf;
    if k in s.cache && s.cache[k].version == VersionOf(s, k) && now < s.cache[k].expiresAt {
      HitRefinesLru(s, k, s', l);
    }
  }

  lemma BeginRefines(s: State, k: CacheKey, now: int, id: nat, s': State, r: Opening, l: seq<CacheKey>)
    requires Bounded(s) && Begin(s, k, now, id, s', r) && s.sequence + 1 < SEQUENCE_LIMIT && RecencyList(s.cache, l)
    ensures RecencyList(s'.cache, Consulted(s, k, now, l))
  {
    KeptRecency(s.cache, l, {k});
    hide RecencyList, Bounded, Kept, VersionOf;
    if k in s.cache && s.cache[k].version == VersionOf(s, k) && now < s.cache[k].expiresAt {
      HitRefinesLru(s, k, s', l);
    }
  }

  lemma FinishRefines(s: State, k: CacheKey, p: Phase, evicted: Option<CacheKey>, s': State, l: seq<CacheKey>)
    requires p.Answered? && Bounded(s) && Finish(s, k, p.flight, OutcomeOf(p), evicted, s')
    requires s.sequence + 1 < SEQUENCE_LIMIT && RecencyList(s.cache, l)
    ensures RecencyList(s'.cache, Closed(s, k, p, l))
  {
    hide RecencyList, LruInsert, Retained, Bounded, VersionOf;
    if k in s.flights && s.flights[k].id == p.flight.id && p.answer.Some? && p.flight.version == VersionOf(s, k) {
      FinishInserts(s, k, p.flight, OutcomeOf(p), evicted, s', l);
    }
  }

  lemma FinishInserts(s: State, k: CacheKey, f: Flight, o: Outcome, evicted: Option<CacheKey>, s': State,
      l: seq<CacheKey>)
    requires Bounded(s) && Finish(s, k, f, o, evicted, s') && s.sequence + 1 < SEQUENCE_LIMIT && RecencyList(s.cache, l)
    requires k in s.flights && s.flights[k].id == f.id && o.Fetched? && f.version == VersionOf(s, k)
    ensures RecencyList(s'.cache, LruInsert(l, s.flights.Keys, s.capacity, k))
  {
    var t := s.(results := s.results[f.id := o]);
    assert Bounded(t);
    hide RecencyList, LruInsert, Retained, Bounded, VersionOf;
    InsertionRefinesLru(t, k, o.entry.(version := f.version), evicted, s'.(flights := t.flights), l);
  }

  lemma NextRefinesLru(x: System, step: Step, y: System, l: seq<CacheKey>)
    requires Bounded(x.r) && Next(x, step, y) && x.r.sequence + 1 < SEQUENCE_LIMIT && RecencyList(x.r.cache, l)
    ensures RecencyList(y.r.cache, After(x, step, l))
  {
    hide RecencyList, Bounded, Lookup, Begin, Finish, Consulted, Closed;
    match step
    case Consult(c, hit) => LookupRefines(x.r, x.callers[c].key, x.now, y.r, hit, l);
    case Open(c, opening) => BeginRefines(x.r, x.callers[c].key, x.now, |x.log|, y.r, opening, l);
    case Close(c, evicted) => FinishRefines(x.r, x.callers[c].key, x.callers[c].phase, evicted, y.r, l);
    case InvalidateGroup(gv) => InvalidationRefinesLru(x.r, gv, CacheKey("", ""), l);
    case InvalidateOne(key) => InvalidationRefinesLru(x.r, "", key, l);
    case InvalidateEvery => InvalidationRefinesLru(x.r, "", CacheKey("", ""), l);
    case _ =>
  }

  // The list after the steps from position m to position n.
  ghost function Along(run: seq<System>, steps: seq<Step>, m: nat, n: nat, l: seq<CacheKey>): seq<CacheKey>
    requires m <= n < |run| && |run| == |steps| + 1
  {
    if m == n then l else After(run[n - 1], steps[n - 1], Along(run, steps, m, n - 1, l))
  }

  // Between wraps of the counter, every run keeps the cache a least-recently-used list.
  lemma {:induction false} RunRefinesLru(run: seq<System>, steps: seq<Step>, m: nat, n: nat, l: seq<CacheKey>)
    requires IsRun(run, steps) && m <= n < |run| && RecencyList(run[m].r.cache, l)
    requires forall i :: m <= i < n ==> run[i].r.sequence + 1 < SEQUENCE_LIMIT
    ensures RecencyList(run[n].r.cache, Along(run, steps, m, n, l))
  {
    hide RecencyList, Next, After;
    if m < n {
      RunRefinesLru(run, steps, m, n - 1, l);
      RunInvariant(run, steps, n - 1);
      NextRefinesLru(run[n - 1], steps[n - 1], run[n], Along(run, steps, m, n - 1, l));
    }
  }

  lemma StartsEmpty(run: seq<System>, steps: seq<Step>)
    requires IsRun(run, steps)
    ensures RecencyList(run[0].r.cache, [])
  {
  }

  // Until the counter wraps for the first time, a run is the list operations of its steps on the empty list.
  lemma RunIsLru(run: seq<System>, steps: seq<Step>, n: nat)
    requires IsRun(run, steps) && n < |run| && forall i :: 0 <= i < n ==> run[i].r.sequence + 1 < SEQUENCE_LIMIT
    ensures RecencyList(run[n].r.cache, Along(run, steps, 0, n, []))
  {
    hide RecencyList, Along, Next, Init;
    StartsEmpty(run, steps);
    RunRefinesLru(run, steps, 0, n, []);
  }
}
