/** The resolver object: each method is one critical section of its lock, performed in place. */
module DiscoveryResolver {
  import opened Common
  import opened DiscoveryCache

  class Resolver {
    var cache: map<CacheKey, Entry>
    var flights: map<CacheKey, Flight>
    var results: map<nat, Outcome>
    var accessSequence: nat
    var invalidationEpoch: nat
    var keyEpoch: map<CacheKey, nat>
    var cacheCapacity: nat

    ghost function Contents(): State
      reads this
    {
      State(cache, flights, results, accessSequence, invalidationEpoch, keyEpoch, cacheCapacity)
    }

    constructor (capacity: int)
      requires capacity < SEQUENCE_LIMIT - 1
      ensures Contents() == State(map[], map[], map[], 0, 0, map[], if capacity > 0 then capacity else 1024)
    {
      cache, flights, results, accessSequence, invalidationEpoch, keyEpoch := map[], map[], map[], 0, 0, map[];
      cacheCapacity := if capacity > 0 then capacity else 1024;
    }

    method VersionLocked(key: CacheKey) returns (v: Version)
      ensures v == VersionOf(Contents(), key)
    {
      v := Version(invalidationEpoch, if key in keyEpoch then keyEpoch[key] else 0);
    }

    method Renumber() returns (sequence: nat)
      modifies this`cache
      ensures sequence == |old(cache)|
      ensures SameButAccess(old(cache), cache) && Distinct(cache) && Within(cache, sequence)
    {
      sequence := 0;
      var todo := cache.Keys;
      ghost var done: map<CacheKey, Entry> := map[];
      assert |cache| == |cache.Keys|;
      while todo != {}
        invariant todo <= cache.Keys && sequence + |todo| == |old(cache)|
        invariant SameButAccess(old(cache), cache)
        invariant done == cache - todo && Distinct(done) && Within(done, sequence)
      {
        var key :| key in todo;
        todo := todo - {key};
        sequence := sequence + 1;
        cache := cache[key := cache[key].(access := sequence)];
        done := done[key := cache[key]];
        assert done == cache - todo;
      }
      assert done == cache;
    }

    method NextAccessLocked() returns (n: nat)
      requires |cache| + 1 < SEQUENCE_LIMIT && accessSequence < SEQUENCE_LIMIT
      modifies this`cache, this`accessSequence
      ensures n == accessSequence
      ensures NextAccess(old(cache), old(accessSequence), |old(cache)|, cache, accessSequence)
    {
      accessSequence := (accessSequence + 1) % SEQUENCE_LIMIT;
      if accessSequence == 0 {
        var sequence := Renumber();
        accessSequence := sequence + 1;
      }
      n := accessSequence;
    }

    // Marks a cached key most recently used and stores `entry` for it.
    method Store(key: CacheKey, entry: Entry) returns (stored: Entry)
      requires |cache| + 1 < SEQUENCE_LIMIT && accessSequence < SEQUENCE_LIMIT
      modifies this`cache, this`accessSequence
      ensures Placed(old(Contents()), old(cache) - {key}, |old(cache)|, key, entry, Contents())
      ensures stored == cache[key]
    {
      var n := NextAccessLocked();
      ghost var renumbered := cache;
      stored := entry.(access := n);
      cache := cache[key := stored];
      assert cache - {key} == renumbered - {key};
    }

    method FreshCacheEntry(key: CacheKey, now: int) returns (hit: Option<Entry>)
      requires Sized(Contents())
      modifies this`cache, this`accessSequence
      ensures Lookup(old(Contents()), key, now, Contents(), hit)
    {
      if key !in cache { return None; }
      var entry := cache[key];
      var version := VersionLocked(key);
      if entry.version != version {
        cache := cache - {key};
        return None;
      }
      if !(now < entry.expiresAt) { return None; }
      var stored := Store(key, entry);
      return Some(stored);
    }

    method BeginRefresh(key: CacheKey, now: int, identity: nat) returns (r: Opening)
      requires Sized(Contents())
      modifies this`cache, this`accessSequence, this`flights
      ensures Begin(old(Contents()), key, now, identity, Contents(), r)
    {
      var version := VersionLocked(key);
      if key in cache {
        var entry := cache[key];
        if entry.version != version {
          cache := cache - {key};
        } else if now < entry.expiresAt {
          var stored := Store(key, entry);
          return Cached(stored);
        }
      }
      if key in flights {
        if flights[key].version == version { return Joined(flights[key]); }
        flights := flights - {key};
      }
      var state := Flight(identity, version);
      flights := flights[key := state];
      assert flights == old(flights)[key := state];
      return Owned(state);
    }

    method LruVictimLocked() returns (victim: Option<CacheKey>)
      ensures match victim
              case None => forall k :: !Candidate(Contents(), k)
              case Some(v) => Victim(Contents(), v)
    {
      victim := None;
      var todo := cache.Keys;
      while todo != {}
        invariant todo <= cache.Keys
        invariant victim == None ==> forall k :: k in cache && k !in todo ==> k in flights
        invariant victim.Some? ==> victim.value !in todo && Candidate(Contents(), victim.value)
        invariant victim.Some? ==> forall k :: k in cache && k !in todo && k !in flights && k != victim.value ==>
                                     OlderThan(cache, victim.value, k)
      {
        var key :| key in todo;
        todo := todo - {key};
        if key in flights { continue; }
        if victim == None || OlderThan(cache, key, victim.value) {
          forall k | victim.Some? && k in cache && k !in todo && k !in flights && k != victim.value && k != key
            ensures OlderThan(cache, key, k)
          {
            OlderThanOrder(cache, key, victim.value, k);
          }
          victim := Some(key);
        } else {
          OlderThanOrder(cache, victim.value, key, key);
        }
      }
    }

    // Evicts one key when the cache is full; reports whether there is room afterwards.
    method MakeRoom() returns (room: bool, ghost evicted: Option<CacheKey>)
      requires Sized(Contents())
      modifies this`cache
      ensures Eviction(old(Contents()), evicted)
      ensures room == HasRoom(old(Contents()), evicted) && cache == Remaining(old(Contents()), evicted)
      ensures |cache| <= |old(cache)|
    {
      room, evicted := true, None;
      if |cache| >= cacheCapacity {
        var victim := LruVictimLocked();
        evicted := victim;
        assert Contents() == old(Contents());
        if victim == None { return false, None; }
        SubsetSize((cache - {victim.value}).Keys, cache.Keys);
        cache := cache - {victim.value};
      }
    }

    method RetainEntryLocked(key: CacheKey, entry: Entry) returns (ghost evicted: Option<CacheKey>)
      requires Sized(Contents())
      modifies this`cache, this`accessSequence
      ensures Retained(old(Contents()), key, entry, evicted, Contents())
    {
      SubsetSize((cache - {key}).Keys, cache.Keys);
      cache := cache - {key};
      var room;
      room, evicted := MakeRoom();
      if room {
        RemoveAbsent(cache, key);
        var _ := Store(key, entry);
      }
    }

    method FinishRefresh(key: CacheKey, flight: Flight, outcome: Outcome) returns (ghost evicted: Option<CacheKey>)
      requires Sized(Contents())
      modifies this`cache, this`accessSequence, this`flights, this`results
      ensures Finish(old(Contents()), key, flight, outcome, evicted, Contents())
    {
      evicted := None;
      results := results[flight.id := outcome];
      if key in flights && flights[key].id == flight.id {
        var version := VersionLocked(key);
        if outcome.Fetched? && flight.version == version {
          evicted := RetainEntryLocked(key, outcome.entry.(version := flight.version));
        }
        flights := flights - {key};
      }
    }

    method RefreshVersionCurrent(key: CacheKey, version: Version) returns (current: bool)
      ensures current <==> VersionOf(Contents(), key) == version
    {
      var v := VersionLocked(key);
      current := v == version;
    }

    // `canonical` is the canonical group/version, or None for input that has none.
    method InvalidateGroupVersion(canonical: Option<string>)
      modifies this`cache, this`keyEpoch
      ensures Contents() == if canonical == None then old(Contents())
          else InvalidatedGroup(old(Contents()), canonical.value)
    {
      if canonical == None { return; }
      var keys := RemoveGroup(canonical.value);
      var todo := flights.Keys;
      while todo != {}
        invariant todo <= flights.Keys && keyEpoch == old(keyEpoch)
        invariant cache == InvalidatedGroup(old(Contents()), canonical.value).cache
        invariant keys == set k | k in old(cache).Keys + (flights.Keys - todo) && k.groupVersion == canonical.value
      {
        var key :| key in todo;
        todo := todo - {key};
        if key.groupVersion == canonical.value { keys := keys + {key}; }
      }
      assert keys == GroupKeys(old(Contents()), canonical.value);
      AdvanceEpochs(keys);
    }

    method RemoveGroup(gv: string) returns (keys: set<CacheKey>)
      modifies this`cache
      ensures keys == set k | k in old(cache) && k.groupVersion == gv
      ensures cache == InvalidatedGroup(old(Contents()), gv).cache
    {
      keys := {};
      var todo := cache.Keys;
      while todo != {}
        invariant todo <= old(cache).Keys
        invariant keys == set k | k in old(cache) && k !in todo && k.groupVersion == gv
        invariant cache == map k | k in old(cache) && (k in todo || k.groupVersion != gv) :: old(cache)[k]
      {
        var key :| key in todo;
        todo := todo - {key};
        if key.groupVersion == gv {
          keys := keys + {key};
          cache := cache - {key};
        }
      }
    }

    method AdvanceEpochs(keys: set<CacheKey>)
      modifies this`keyEpoch
      ensures keyEpoch == map k | k in old(keyEpoch).Keys + keys ::
                            KeyEpoch(old(Contents()), k) + (if k in keys then 1 else 0)
    {
      var todo := keys;
      while todo != {}
        invariant todo <= keys
        invariant keyEpoch.Keys == old(keyEpoch).Keys + (keys - todo)
        invariant forall k :: k in keyEpoch ==>
                    keyEpoch[k] == KeyEpoch(old(Contents()), k) + (if k in keys && k !in todo then 1 else 0)
      {
        var key :| key in todo;
        todo := todo - {key};
        keyEpoch := keyEpoch[key := (if key in keyEpoch then keyEpoch[key] else 0) + 1];
      }
    }

    method InvalidateResource(canonical: Option<string>, kind: string)
      modifies this`cache, this`keyEpoch
      ensures Contents() == if canonical == None || kind == "" then old(Contents())
                            else InvalidatedResource(old(Contents()), CacheKey(canonical.value, kind))
    {
      if canonical == None || kind == "" { return; }
      var key := CacheKey(canonical.value, kind);
      cache := cache - {key};
      keyEpoch := keyEpoch[key := (if key in keyEpoch then keyEpoch[key] else 0) + 1];
    }

    method InvalidateAll()
      modifies this`cache, this`invalidationEpoch
      ensures Contents() == InvalidatedAll(old(Contents()))
    {
      invalidationEpoch := invalidationEpoch + 1;
      cache := map[];
    }
  }
}
