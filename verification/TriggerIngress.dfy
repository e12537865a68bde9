/** The trigger source: a bounded, coalescing ingress with a one-slot wake channel, and enqueue-all intents. */
module TriggerIngress {
  import opened Common
  import opened Sorting

  const DEFAULT_MAX_PENDING_TRIGGERS: nat := 4096

  // `token` is the one slot of the wake channel.
  datatype Source = Source(
    pending: set<NamespacedName>, capacity: int, overloaded: bool, token: bool,
    requested: bool, started: bool, running: bool)

  // The capacity a setting stands for.
  function Room(capacity: int): nat { if capacity <= 0 then DEFAULT_MAX_PENDING_TRIGGERS else capacity }

  function Enqueued(s: Source, key: NamespacedName): Source {
    if key.name == "" then s
    else
      var t := s.(capacity := Room(s.capacity));
      if key in t.pending then t
      else if |t.pending| >= t.capacity then t.(overloaded := true, token := true)
      else t.(pending := t.pending + {key}, token := true)
  }

  function Begun(s: Source): Source { s.(started := true, capacity := Room(s.capacity)) }

  function Taken(s: Source): Source {
    s.(pending := {}, overloaded := false)
  }

  function Requested(s: Source): Source {
    s.(requested := true)
  }

  // The flag tells whether a worker goroutine was started.
  function Launched(s: Source): (Source, bool) {
    if !s.started || s.running then (s, false) else (s.(running := true), true)
  }

  // The flag tells whether the worker found a request to serve.
  function Polled(s: Source): (Source, bool) {
    if !s.requested then (s.(running := false), false) else (s.(requested := false), true)
  }

  ghost predicate Enumerates<T(!new)>(l: seq<T>, s: set<T>) {
    && (forall x :: x in l <==> x in s)
    && Different(l)
  }

  // A batch leaves the ingress in (namespace, name) order.
  ghost predicate Batch(l: seq<NamespacedName>, s: set<NamespacedName>) {
    Enumerates(l, s) && InNameOrder(l)
  }

  lemma SortEnumerates(l: seq<NamespacedName>, s: set<NamespacedName>)
    requires Enumerates(l, s)
    ensures Batch(Sort(ByKey(NameKey), l), s)
  {
    var r := Sort(ByKey(NameKey), l);
    NamesSorted(l);
    forall x ensures x in r <==> x in s {
      assert x in r <==> x in multiset(r);
      assert x in l <==> x in multiset(l);
    }
    forall i, j | 0 <= i < j < |r| ensures r[i] != r[j] { SortDistinct(ByKey(NameKey), l, i, j); }
  }

  /* ---------- enqueue-all ---------- */

  // The text under which enqueue-all remembers a listed object.
  function SeenKey(n: NamespacedName): string {
    n.namespace + ['\0'] + n.name
  }

  // The keys kept from a listing: complete identities, first occurrence of each remembered text.
  function Listed(items: seq<NamespacedName>, seen: set<string>): seq<NamespacedName> {
    if items == [] then []
    else if items[0].name == "" || items[0].namespace == "" || SeenKey(items[0]) in seen then Listed(items[1..], seen)
    else [items[0]] + Listed(items[1..], seen + {SeenKey(items[0])})
  }

  function FirstNul(t: string): nat {
    if t == [] || t[0] == '\0' then 0 else 1 + FirstNul(t[1..])
  }

  lemma {:induction false} FirstNulAfter(namespace: string, name: string)
    requires '\0' !in namespace
    ensures FirstNul(namespace + ['\0'] + name) == |namespace|
  {
    if namespace != [] {
      assert (namespace + ['\0'] + name)[1..] == namespace[1..] + ['\0'] + name;
      FirstNulAfter(namespace[1..], name);
    }
  }

  lemma SeenKeyInjective(a: NamespacedName, b: NamespacedName)
    requires '\0' !in a.namespace && '\0' !in b.namespace && SeenKey(a) == SeenKey(b)
    ensures a == b
  {
    FirstNulAfter(a.namespace, a.name);
    FirstNulAfter(b.namespace, b.name);
    var t, n := SeenKey(a), |a.namespace|;
    assert a.namespace == t[..n] && a.name == t[n + 1..];
    assert b.namespace == SeenKey(b)[..n] && b.name == SeenKey(b)[n + 1..];
  }

  // Namespaces carry no NUL byte, so a listing enqueues every complete identity exactly once.
  lemma {:induction false} ListedComplete(items: seq<NamespacedName>, seen: set<NamespacedName>, texts: set<string>)
    requires forall i :: 0 <= i < |items| ==> '\0' !in items[i].namespace
    requires forall n :: n in seen ==> '\0' !in n.namespace
    requires texts == set n | n in seen :: SeenKey(n)
    ensures Enumerates(Listed(items, texts),
                       set i | 0 <= i < |items| && items[i].name != "" && items[i].namespace != ""
                           && items[i] !in seen :: items[i])
  {
    if items != [] {
      var rest := items[1..];
      var head := items[0];
      if SeenKey(head) in texts {
        var n :| n in seen && SeenKey(n) == SeenKey(head);
        SeenKeyInjective(n, head);
      }
      var skip := head.name == "" || head.namespace == "" || head in seen;
      var seen' := if skip then seen else seen + {head};
      var texts' := if skip then texts else texts + {SeenKey(head)};
      ListedComplete(rest, seen', texts');
      var all := set i | 0 <= i < |items| && items[i].name != "" && items[i].namespace != "" && items[i] !in seen ::
          items[i];
      var tail := set i | 0 <= i < |rest| && rest[i].name != "" && rest[i].namespace != "" && rest[i] !in seen' ::
          rest[i];
      assert all == if skip then tail else {head} + tail by {
        forall x | x in all ensures x in tail || (!skip && x == head) {
          var i :| 0 <= i < |items| && items[i] == x;
          if i > 0 { assert rest[i - 1] == x; }
        }
        forall x | x in tail ensures x in all {
          var i :| 0 <= i < |rest| && rest[i] == x;
          assert items[i + 1] == x;
        }
      }
    }
  }

  class TriggerSource {
    var pending: set<NamespacedName>
    var pendingCapacity: int
    var overloaded: bool
    var wake: bool
    var requested: bool
    var started: bool
    var running: bool
    var queue: seq<NamespacedName>

    ghost function Contents(): Source
      reads this
    {
      Source(pending, pendingCapacity, overloaded, wake, requested, started, running)
    }

    constructor (capacity: int)
      ensures Contents() == Source({}, capacity, false, false, false, false, false) && queue == []
    {
      pending, pendingCapacity, overloaded, wake := {}, capacity, false, false;
      requested, started, running, queue := false, false, false, [];
    }

    // Start's critical section; `before` tells whether an enqueue-all was requested earlier.
    method BeginStart() returns (ok: bool, before: bool)
      modifies this`started, this`pendingCapacity
      ensures ok == !old(started) && before == (ok && requested)
      ensures Contents() == if ok then Begun(old(Contents())) else old(Contents())
    {
      if started { return false, false; }
      started := true;
      if pendingCapacity <= 0 { pendingCapacity := DEFAULT_MAX_PENDING_TRIGGERS; }
      return true, requested;
    }

    method Enqueue(key: NamespacedName)
      modifies this`pending, this`pendingCapacity, this`overloaded, this`wake
      ensures Contents() == Enqueued(old(Contents()), key)
    {
      if key.name == "" { return; }
      if pendingCapacity <= 0 { pendingCapacity := DEFAULT_MAX_PENDING_TRIGGERS; }
      if key in pending { return; }
      if |pending| >= pendingCapacity {
        overloaded := true;
        SignalWakeLocked();
        return;
      }
      pending := pending + {key};
      SignalWakeLocked();
    }

    // A non-blocking send: the single slot ends up full either way.
    method SignalWakeLocked()
      modifies this`wake
      ensures wake
    {
      if !wake { wake := true; }
    }

    // One round of the drain loop, after a token was received: the batch, sorted, and the overload flag.
    method TakeBatch() returns (keys: seq<NamespacedName>, recover: bool)
      modifies this`pending, this`overloaded
      ensures Contents() == Taken(old(Contents()))
      ensures Batch(keys, old(pending)) && recover == old(overloaded)
    {
      var collected: seq<NamespacedName> := [];
      while pending != {}
        invariant pending <= old(pending) && Enumerates(collected, old(pending) - pending)
            && overloaded == old(overloaded)
        decreases pending
      {
        var key :| key in pending;
        collected := collected + [key];
        pending := pending - {key};
      }
      recover := overloaded;
      overloaded := false;
      assert old(pending) - pending == old(pending);
      SortEnumerates(collected, old(pending));
      keys := Sort(ByKey(NameKey), collected);
    }

    method AddAll(keys: seq<NamespacedName>)
      modifies this`queue
      ensures queue == old(queue) + keys
    {
      for i := 0 to |keys|
        invariant queue == old(queue) + keys[..i]
      {
        queue := queue + [keys[i]];
      }
    }

    method RequestEnqueueAll() returns (launch: bool)
      modifies this`requested
      ensures Contents() == Requested(old(Contents())) && launch == started
    {
      requested := true;
      launch := started;
    }

    method StartEnqueueWorker() returns (spawned: bool)
      modifies this`running
      ensures (Contents(), spawned) == Launched(old(Contents()))
    {
      if !started || running { return false; }
      running := true;
      return true;
    }

    method PollIntent() returns (serve: bool)
      modifies this`running, this`requested
      ensures (Contents(), serve) == Polled(old(Contents()))
    {
      if !requested {
        running := false;
        return false;
      }
      requested := false;
      return true;
    }

    method EnqueueAll(items: seq<NamespacedName>)
      modifies this`queue
      ensures queue == old(queue) + Sort(ByKey(NameKey), Listed(items, {}))
      ensures InNameOrder(queue[|old(queue)|..])
    {
      var seen: set<string> := {};
      var keys: seq<NamespacedName> := [];
      for i := 0 to |items|
        invariant queue == old(queue)
        invariant keys + Listed(items[i..], seen) == Listed(items, {})
      {
        var item := items[i];
        assert items[i..][1..] == items[i + 1..];
        if item.name == "" || item.namespace == "" || SeenKey(item) in seen { continue; }
        seen := seen + {SeenKey(item)};
        keys := keys + [item];
      }
      assert keys == Listed(items, {});
      NamesSorted(keys);
      AddAll(Sort(ByKey(NameKey), keys));
      assert queue[|old(queue)|..] == Sort(ByKey(NameKey), keys);
    }
  }
}
