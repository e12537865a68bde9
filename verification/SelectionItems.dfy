/** What walking pages of objects accepts and keeps, told from the objects alone. */
module SelectionItems {
  import opened Common
  import opened Accounting
  import opened Selection

  /* ---------- walking several pages ---------- */

  // The walk looks at nothing but what it charges and collects.
  lemma {:induction false} WalkFrame(cfg: Config, l: Loop, m: Loop, items: seq<Item>)
    requires m == l.(token := m.token, restarted := m.restarted, events := m.events)
    ensures var w := WalkPage(cfg, l, items);
            WalkPage(cfg, m, items)
            == w.(loop := w.loop.(token := m.token, restarted := m.restarted, events := m.events))
    ensures var w := WalkPage(cfg, l, items);
            w.loop.token == l.token && w.loop.restarted == l.restarted && w.loop.events == l.events
    decreases |items|
  {
    if items != [] {
      match Judge(cfg, l.budget, items[0])
      case Reject(_) =>
      case Skip => WalkFrame(cfg, l, m, items[1..]);
      case Keep(size) => WalkFrame(cfg, Take(cfg, l, items[0], size), Take(cfg, m, items[0], size), items[1..]);
    }
  }

  lemma {:induction false} WalkConcat(cfg: Config, l: Loop, a: seq<Item>, b: seq<Item>)
    ensures var w := WalkPage(cfg, l, a);
            WalkPage(cfg, l, a + b) == if w.stop.Some? then w else WalkPage(cfg, w.loop, b)
    decreases |a|
  {
    if a == [] {
      assert a + b == b;
    } else {
      assert (a + b)[0] == a[0] && (a + b)[1..] == a[1..] + b;
      match Judge(cfg, l.budget, a[0])
      case Reject(_) =>
      case Skip => WalkConcat(cfg, l, a[1..], b);
      case Keep(size) => WalkConcat(cfg, Take(cfg, l, a[0], size), a[1..], b);
    }
  }

  /* ---------- what is accepted and kept ---------- */

  // The object is the first with its UID, here and among those retained before.
  predicate New(seen: set<string>, from: seq<Item>, j: nat)
    requires j < |from|
  {
    from[j].uid !in seen && forall i :: 0 <= i < j ==> from[i].uid != from[j].uid
  }

  // The positions of the new objects, in order.
  function NewOnes(seen: set<string>, from: seq<Item>): seq<nat> {
    if from == [] then []
    else
      var n := |from| - 1;
      NewOnes(seen, from[..n]) + if New(seen, from, n) then [n] else []
  }

  function SizeOf(item: Item): int { if item.size.Some? then item.size.value else 0 }

  function NewBytes(seen: set<string>, from: seq<Item>): int {
    if from == [] then 0
    else
      var n := |from| - 1;
      NewBytes(seen, from[..n]) + if New(seen, from, n) then SizeOf(from[n]) else 0
  }

  // Every object can be identified, every new one can be sized, and together they fit under both ceilings.
  ghost predicate Acceptable(cfg: Config, b: Budget, from: seq<Item>) {
    && (forall j :: 0 <= j < |from| ==> from[j].name != "" && from[j].uid != "")
    && (forall j :: 0 <= j < |from| && New(b.seen, from, j) ==> from[j].size.Some? && from[j].size.value >= 0)
    && |b.seen| + |NewOnes(b.seen, from)| <= cfg.maxResources
    && b.used + NewBytes(b.seen, from) <= cfg.maxInputBytes
  }

  // These are exactly the new objects, in order, each with its body, its size and its identity.
  ghost predicate KeepsNew(cfg: Config, seen: set<string>, from: seq<Item>, items: seq<Selected>) {
    exists at: seq<nat> ::
      && |at| == |items|
      && (forall m, n :: 0 <= m < n < |at| ==> at[m] < at[n])
      && (forall j :: j in at <==> 0 <= j < |from| && New(seen, from, j))
      && forall m :: 0 <= m < |at| ==> KeptAs(cfg, from, at[m], items[m])
  }

  predicate KeptAs(cfg: Config, from: seq<Item>, j: nat, s: Selected) {
    && j < |from| && s.body == from[j].body && from[j].size == Some(s.size)
    && s.provenance == Provenance(cfg.apiVersion, cfg.kind, from[j].namespace, from[j].name, from[j].uid)
  }

  lemma {:induction false} NewOnesExact(seen: set<string>, from: seq<Item>)
    ensures var at := NewOnes(seen, from);
            && (forall m, n :: 0 <= m < n < |at| ==> at[m] < at[n])
            && (forall j :: j in at <==> 0 <= j < |from| && New(seen, from, j))
  {
    if from != [] {
      var n := |from| - 1;
      NewOnesExact(seen, from[..n]);
      forall j | 0 <= j < n ensures New(seen, from[..n], j) <==> New(seen, from, j) { NewBefore(seen, from, n, j); }
      hide New;
      var at := NewOnes(seen, from[..n]);
      forall m | 0 <= m < |at| ensures at[m] < n { assert at[m] in at; }
    }
  }

  lemma NewBefore(seen: set<string>, from: seq<Item>, n: nat, j: nat)
    requires j < n <= |from|
    ensures New(seen, from[..n], j) <==> New(seen, from, j)
  {
  }

  function UidsOf(from: seq<Item>): set<string> { set i | i in from :: i.uid }

  // What a walk that has accepted everything so far has done.
  ghost predicate Walked(cfg: Config, l: Loop, from: seq<Item>, m: Loop) {
    && m.budget.seen == l.budget.seen + UidsOf(from)
    && |m.budget.seen| == |l.budget.seen| + |NewOnes(l.budget.seen, from)|
    && m.budget.used == l.budget.used + NewBytes(l.budget.seen, from)
    && |m.items| == |l.items| + |NewOnes(l.budget.seen, from)| && m.items[..|l.items|] == l.items
    && forall k :: 0 <= k < |NewOnes(l.budget.seen, from)| ==>
         KeptAs(cfg, from, NewOnes(l.budget.seen, from)[k], m.items[|l.items| + k])
  }

  lemma AcceptablePrefix(cfg: Config, b: Budget, from: seq<Item>)
    requires from != []
    ensures var n := |from| - 1;
            Acceptable(cfg, b, from) <==>
            && Acceptable(cfg, b, from[..n]) && from[n].name != "" && from[n].uid != ""
            && (New(b.seen, from, n) ==>
                 && from[n].size.Some? && from[n].size.value >= 0
                 && |b.seen| + |NewOnes(b.seen, from[..n])| < cfg.maxResources
                 && b.used + NewBytes(b.seen, from[..n]) + from[n].size.value <= cfg.maxInputBytes)
  {
    var n := |from| - 1;
    forall j | 0 <= j < n ensures New(b.seen, from[..n], j) <==> New(b.seen, from, j) { NewBefore(b.seen, from, n, j); }
    hide New;
  }

  lemma NewMeansUnseen(seen: set<string>, from: seq<Item>)
    requires from != []
    ensures var n := |from| - 1; New(seen, from, n) <==> from[n].uid !in seen + UidsOf(from[..n])
    ensures UidsOf(from) == UidsOf(from[..|from| - 1]) + {from[|from| - 1].uid}
  {
    var n := |from| - 1;
    assert from == from[..n] + [from[n]];
    forall i | 0 <= i < n ensures from[i].uid in UidsOf(from[..n]) { assert from[..n][i] in from[..n]; }
  }

  lemma WalkOne(cfg: Config, m: Loop, item: Item)
    ensures var j := Judge(cfg, m.budget, item);
            WalkPage(cfg, m, [item])
            == Walk(if j.Keep? then Take(cfg, m, item, j.size) else m, if j.Reject? then Some(j.reason) else None)
  {
    assert [item][1..] == [];
  }

  // A walk stops nowhere exactly when the objects are acceptable, and then it has kept exactly the new ones.
  lemma {:induction false} WalkExactly(cfg: Config, l: Loop, from: seq<Item>)
    requires Within(cfg, l.budget)
    ensures var w := WalkPage(cfg, l, from);
            (w.stop == None <==> Acceptable(cfg, l.budget, from)) && (w.stop == None ==> Walked(cfg, l, from, w.loop))
  {
    hide WalkPage, Acceptable, Walked, New;
    if from == [] {
      WalkNothing(cfg, l);
    } else {
      var n := |from| - 1;
      WalkExactly(cfg, l, from[..n]);
      assert from == from[..n] + [from[n]];
      WalkConcat(cfg, l, from[..n], [from[n]]);
      AcceptablePrefix(cfg, l.budget, from);
      var w := WalkPage(cfg, l, from[..n]);
      if w.stop == None {
        WalkOne(cfg, w.loop, from[n]);
        WalkLast(cfg, l, from, w.loop);
      }
    }
  }

  lemma WalkNothing(cfg: Config, l: Loop)
    requires Within(cfg, l.budget)
    ensures WalkPage(cfg, l, []) == Walk(l, None) && Acceptable(cfg, l.budget, []) && Walked(cfg, l, [], l)
  {
    assert UidsOf([]) == {};
  }

  lemma WalkLast(cfg: Config, l: Loop, from: seq<Item>, m: Loop)
    requires from != [] && Walked(cfg, l, from[..|from| - 1], m)
    ensures var n, j := |from| - 1, Judge(cfg, m.budget, from[|from| - 1]);
            (!j.Reject? <==>
              && from[n].name != "" && from[n].uid != ""
              && (New(l.budget.seen, from, n) ==>
                   && from[n].size.Some? && from[n].size.value >= 0
                   && |l.budget.seen| + |NewOnes(l.budget.seen, from[..n])| < cfg.maxResources
                   && l.budget.used + NewBytes(l.budget.seen, from[..n]) + from[n].size.value <= cfg.maxInputBytes))
            && (j.Skip? ==> Walked(cfg, l, from, m))
            && (j.Keep? ==> Walked(cfg, l, from, Take(cfg, m, from[n], j.size)))
  {
    NewMeansUnseen(l.budget.seen, from);
    var n, j := |from| - 1, Judge(cfg, m.budget, from[|from| - 1]);
    if j.Skip? { WalkedSkip(cfg, l, from, m); }
    if j.Keep? { WalkedKeep(cfg, l, from, m); }
    hide New, NewOnes, NewBytes, KeptAs, UidsOf;
  }

  lemma KeptStill(cfg: Config, from: seq<Item>, n: nat, j: nat, s: Selected)
    requires n <= |from| && KeptAs(cfg, from[..n], j, s)
    ensures KeptAs(cfg, from, j, s)
  {
  }

  lemma WalkedSkip(cfg: Config, l: Loop, from: seq<Item>, m: Loop)
    requires from != [] && Walked(cfg, l, from[..|from| - 1], m) && from[|from| - 1].uid in m.budget.seen
    ensures Walked(cfg, l, from, m)
  {
    NewMeansUnseen(l.budget.seen, from);
    hide New, KeptAs;
    var n := |from| - 1;
    var at := NewOnes(l.budget.seen, from[..n]);
    forall k | 0 <= k < |at| ensures KeptAs(cfg, from, at[k], m.items[|l.items| + k]) {
      KeptStill(cfg, from, n, at[k], m.items[|l.items| + k]);
    }
    hide UidsOf;
  }

  lemma WalkedKeep(cfg: Config, l: Loop, from: seq<Item>, m: Loop)
    requires from != [] && Walked(cfg, l, from[..|from| - 1], m)
    requires Judge(cfg, m.budget, from[|from| - 1]).Keep?
    ensures Walked(cfg, l, from, Take(cfg, m, from[|from| - 1], Judge(cfg, m.budget, from[|from| - 1]).size))
  {
    NewMeansUnseen(l.budget.seen, from);
    var n := |from| - 1;
    var t := Take(cfg, m, from[n], from[n].size.value);
    assert KeptAs(cfg, from, n, t.items[|m.items|]);
    hide New, KeptAs, UidsOf;
    var at := NewOnes(l.budget.seen, from[..n]);
    forall k | 0 <= k < |at| ensures KeptAs(cfg, from, at[k], t.items[|l.items| + k]) {
      KeptStill(cfg, from, n, at[k], m.items[|l.items| + k]);
    }
    assert t.items[..|l.items|] == m.items[..|l.items|];
  }

  lemma {:induction false} SameEnumeration(a: seq<nat>, b: seq<nat>)
    requires forall m, n :: 0 <= m < n < |a| ==> a[m] < a[n]
    requires forall m, n :: 0 <= m < n < |b| ==> b[m] < b[n]
    requires forall j :: j in a <==> j in b
    ensures a == b
  {
    if a == [] {
      assert forall i :: 0 <= i < |b| ==> b[i] in b;
    } else {
      assert a[0] in b;
      var m, n := |a| - 1, |b| - 1;
      assert a[m] in b && b[n] in a;
      AllButLast(a);
      AllButLast(b);
      forall j ensures j in a[..m] <==> j in b[..n] {
        assert j in a <==> j in b;
      }
      SameEnumeration(a[..m], b[..n]);
    }
  }

  lemma AllButLast(a: seq<nat>)
    requires a != [] && forall m, n :: 0 <= m < n < |a| ==> a[m] < a[n]
    ensures forall j :: j in a[..|a| - 1] <==> j in a && j != a[|a| - 1]
  {
    assert a == a[..|a| - 1] + [a[|a| - 1]];
  }

  lemma KeptUnique(cfg: Config, seen: set<string>, from: seq<Item>, items: seq<Selected>, others: seq<Selected>)
    requires KeepsNew(cfg, seen, from, items) && KeepsNew(cfg, seen, from, others)
    ensures items == others
  {
    hide New;
    var at: seq<nat> :|
      && |at| == |items|
      && (forall m, n :: 0 <= m < n < |at| ==> at[m] < at[n])
      && (forall j :: j in at <==> 0 <= j < |from| && New(seen, from, j))
      && forall m :: 0 <= m < |at| ==> KeptAs(cfg, from, at[m], items[m]);
    var here: seq<nat> :|
      && |here| == |others|
      && (forall m, n :: 0 <= m < n < |here| ==> here[m] < here[n])
      && (forall j :: j in here <==> 0 <= j < |from| && New(seen, from, j))
      && forall m :: 0 <= m < |here| ==> KeptAs(cfg, from, here[m], others[m]);
    SameEnumeration(at, here);
    forall m | 0 <= m < |items| ensures items[m] == others[m] { KeptSame(cfg, from, at[m], items[m], others[m]); }
  }

  lemma KeptSame(cfg: Config, from: seq<Item>, j: nat, s: Selected, t: Selected)
    requires KeptAs(cfg, from, j, s) && KeptAs(cfg, from, j, t)
    ensures s == t
  {
  }

  lemma WalkedKeeps(cfg: Config, start: Budget, from: seq<Item>, m: Loop)
    requires Walked(cfg, Fresh(start, []), from, m)
    ensures KeepsNew(cfg, start.seen, from, m.items)
  {
    NewOnesExact(start.seen, from);
    hide New, KeptAs;
    var at := NewOnes(start.seen, from);
    hide NewOnes;
    assert forall k :: 0 <= k < |at| ==> KeptAs(cfg, from, at[k], m.items[k]);
  }

  /* ---------- where a walk stops ---------- */

  // The first object that cannot be accepted after these, and what is wrong with it.
  ghost predicate Refuses(cfg: Config, b: Budget, before: seq<Item>, items: seq<Item>, reason: Reason) {
    exists j :: RefusesAt(cfg, b, before, items, reason, j)
  }

  ghost predicate RefusesAt(cfg: Config, b: Budget, before: seq<Item>, items: seq<Item>, reason: Reason, j: int) {
    && 0 <= j < |items| && Acceptable(cfg, b, before + items[..j]) && !Acceptable(cfg, b, before + items[..j + 1])
    && reason == if items[j].name == "" || items[j].uid == "" then InvalidObject else SelectionLimitExceeded
  }

  lemma {:induction false} WalkStopsAt(cfg: Config, l: Loop, items: seq<Item>) returns (j: nat)
    requires WalkPage(cfg, l, items).stop.Some?
    ensures j < |items| && WalkPage(cfg, l, items[..j]).stop == None
    ensures var w := WalkPage(cfg, l, items[..j]);
            Judge(cfg, w.loop.budget, items[j]) == Reject(WalkPage(cfg, l, items).stop.value)
    ensures WalkPage(cfg, l, items[..j + 1]).stop.Some?
  {
    var n := |items| - 1;
    assert items == items[..n] + [items[n]];
    WalkConcat(cfg, l, items[..n], [items[n]]);
    var w := WalkPage(cfg, l, items[..n]);
    hide WalkPage;
    if w.stop.Some? {
      j := WalkStopsAt(cfg, l, items[..n]);
      assert items[..n][..j] == items[..j] && items[..n][..j + 1] == items[..j + 1];
    } else {
      WalkOne(cfg, w.loop, items[n]);
      j := n;
      assert items[..n + 1] == items;
    }
  }

  lemma {:induction false} AcceptableBefore(cfg: Config, b: Budget, from: seq<Item>, n: nat)
    requires n <= |from| && Acceptable(cfg, b, from)
    ensures Acceptable(cfg, b, from[..n])
    decreases |from|
  {
    hide Acceptable, New;
    if n == |from| {
      assert from[..n] == from;
    } else {
      AcceptablePrefix(cfg, b, from);
      AcceptableBefore(cfg, b, from[..|from| - 1], n);
      assert from[..|from| - 1][..n] == from[..n];
    }
  }

  // After objects that were accepted, a walk stops with a reason exactly when the first object that it cannot accept
  // gives that reason.
  lemma WalkRefuses(cfg: Config, l: Loop, before: seq<Item>, items: seq<Item>, reason: Reason)
    requires Within(cfg, l.budget) && Acceptable(cfg, l.budget, before)
    ensures WalkPage(cfg, WalkPage(cfg, l, before).loop, items).stop == Some(reason) <==>
            Refuses(cfg, l.budget, before, items, reason)
  {
    hide Within, Acceptable, WalkPage, Judge;
    WalkExactly(cfg, l, before);
    var m := WalkPage(cfg, l, before).loop;
    forall j | 0 <= j <= |items|
      ensures WalkPage(cfg, m, items[..j]).stop == None <==> Acceptable(cfg, l.budget, before + items[..j])
    {
      WalkConcat(cfg, l, before, items[..j]);
      WalkExactly(cfg, l, before + items[..j]);
    }
    assert items[..|items|] == items;
    if WalkPage(cfg, m, items).stop.Some? {
      var j := WalkStopsAt(cfg, m, items);
      RejectReason(cfg, WalkPage(cfg, m, items[..j]).loop.budget, items[j]);
      var given := WalkPage(cfg, m, items).stop.value;
      assert RefusesAt(cfg, l.budget, before, items, given, j);
      forall k, other | RefusesAt(cfg, l.budget, before, items, other, k) ensures k == j {
        RefusesOnce(cfg, l.budget, before, items, given, j, other, k);
        RefusesOnce(cfg, l.budget, before, items, other, k, given, j);
      }
    } else {
      forall k | RefusesAt(cfg, l.budget, before, items, reason, k) ensures false {
        AcceptableUpTo(cfg, l.budget, before, items, k + 1);
      }
    }
  }

  lemma RejectReason(cfg: Config, b: Budget, item: Item)
    ensures Judge(cfg, b, item).Reject? ==>
              Judge(cfg, b, item).reason
              == if item.name == "" || item.uid == "" then InvalidObject else SelectionLimitExceeded
  {
  }

  lemma AcceptableUpTo(cfg: Config, b: Budget, before: seq<Item>, items: seq<Item>, k: nat)
    requires k <= |items| && Acceptable(cfg, b, before + items)
    ensures Acceptable(cfg, b, before + items[..k])
  {
    AcceptableBefore(cfg, b, before + items, |before| + k);
    assert (before + items)[..|before| + k] == before + items[..k];
  }

  lemma AcceptedEarlier(cfg: Config, b: Budget, before: seq<Item>, items: seq<Item>, i: nat, k: nat)
    requires i <= k <= |items| && Acceptable(cfg, b, before + items[..k])
    ensures Acceptable(cfg, b, before + items[..i])
  {
    AcceptableUpTo(cfg, b, before, items[..k], i);
    assert items[..k][..i] == items[..i];
  }

  lemma RefusesOnce(cfg: Config, b: Budget, before: seq<Item>, items: seq<Item>, r: Reason, j: int, q: Reason, k: int)
    requires RefusesAt(cfg, b, before, items, r, j) && RefusesAt(cfg, b, before, items, q, k)
    ensures j >= k
  {
    hide Acceptable;
    if j < k { AcceptedEarlier(cfg, b, before, items, j + 1, k); }
  }
}
