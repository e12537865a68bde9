/** A whole selection: its targets in order over one budget, and the outcome it reports. */
module SelectionOutcome {
  import opened Common
  import opened Accounting
  import opened AccessPolicy
  import opened Authorization
  import opened Binder
  import opened Selection
  import opened Sorting

  datatype Outcome = Complete(resources: seq<Selected>) | Rejected(reason: Selection.Reason) | Unfinished

  function Reported(r: Result): Outcome {
    match r
    case Listed(collected) => Complete(Arranged(collected))
    case Failed(reason) => Rejected(reason)
    case Pending => Unfinished
  }

  // Reads the targets in order, starting from what the earlier ones left.
  function ReadAll(cfg: Config, permits: seq<AuthorizedRead>, b: Budget, collected: seq<Selected>, events: seq<Event>,
                   turns: seq<Turn>): Listing
    decreases |permits|
  {
    if permits == [] then Listing(Listed(collected), b, events, turns)
    else
      var r := ListTarget(cfg, permits[0], b, turns);
      match r.result
      case Listed(items) => ReadAll(cfg, permits[1..], r.budget, collected + items, events + r.events, r.rest)
      case _ => Listing(r.result, r.budget, events + r.events, r.rest)
  }

  /* ---------- order and duplicates ---------- */

  function OrderKey(s: Selected): SortKey {
    SortKey([s.provenance.namespace, s.provenance.name, s.provenance.uid], 0)
  }

  // By namespace, then by name, then by UID.
  predicate ComesBefore(a: Provenance, b: Provenance) {
    if a.namespace != b.namespace then StringLess(a.namespace, b.namespace)
    else if a.name != b.name then StringLess(a.name, b.name)
    else StringLess(a.uid, b.uid)
  }

  ghost predicate InOrder(s: seq<Selected>) {
    forall i, j :: 0 <= i < j < |s| ==> !ComesBefore(s[j].provenance, s[i].provenance)
  }

  lemma OrderMeans(x: Selected, y: Selected)
    ensures ByKey(OrderKey)(x, y) <==> ComesBefore(x.provenance, y.provenance)
  {
    assert ByKey(OrderKey)(x, y) == KeyLess(OrderKey(x), OrderKey(y));
    ThreePartsLess(OrderKey(x).parts, OrderKey(y).parts);
    StringLessTotal(x.provenance.uid, y.provenance.uid);
    hide PartsLess, StringLess;
  }

  lemma SortedInOrder(s: seq<Selected>)
    ensures InOrder(Sort(ByKey(OrderKey), s))
  {
    ByKeyWeakOrder(OrderKey);
    SortSorted(ByKey(OrderKey), s);
    var r := Sort(ByKey(OrderKey), s);
    hide Sort, ComesBefore, ByKey, WeakOrder;
    forall i, j | 0 <= i < j < |r| ensures !ComesBefore(r[j].provenance, r[i].provenance) { OrderMeans(r[j], r[i]); }
  }

  function FirstPerUid(seen: set<string>, s: seq<Selected>): seq<Selected>
    decreases |s|
  {
    if s == [] then []
    else if s[0].provenance.uid in seen then FirstPerUid(seen, s[1..])
    else [s[0]] + FirstPerUid(seen + {s[0].provenance.uid}, s[1..])
  }

  function Arranged(collected: seq<Selected>): seq<Selected> {
    FirstPerUid({}, Sort(ByKey(OrderKey), collected))
  }

  lemma FirstPerUidAt(seen: set<string>, s: seq<Selected>, i: nat)
    requires i < |s|
    ensures var uid := s[i].provenance.uid;
            FirstPerUid(seen, s[i..]) == if uid in seen then FirstPerUid(seen, s[i + 1..])
                                         else [s[i]] + FirstPerUid(seen + {uid}, s[i + 1..])
  {
    assert s[i..][0] == s[i] && s[i..][1..] == s[i + 1..];
  }

  method DeduplicateAndSort(resources: seq<Selected>) returns (unique: seq<Selected>)
    ensures unique == Arranged(resources)
  {
    var sorted := Sort(ByKey(OrderKey), resources);
    var seen: set<string> := {};
    unique := [];
    assert sorted[0..] == sorted;
    hide FirstPerUid, Sort;
    for i := 0 to |sorted|
      invariant unique + FirstPerUid(seen, sorted[i..]) == FirstPerUid({}, sorted)
    {
      FirstPerUidAt(seen, sorted, i);
      if sorted[i].provenance.uid in seen { continue; }
      ghost var before := unique;
      seen := seen + {sorted[i].provenance.uid};
      unique := unique + [sorted[i]];
      assert unique + FirstPerUid(seen, sorted[i + 1..]) == before + ([sorted[i]] + FirstPerUid(seen, sorted[i + 1..]));
    }
    FirstPerUidEnd(seen);
    assert sorted[|sorted|..] == [];
  }

  lemma FirstPerUidEnd(seen: set<string>)
    ensures FirstPerUid(seen, []) == []
  {
  }

  ghost predicate DistinctUids(s: seq<Selected>) {
    forall i, j :: 0 <= i < j < |s| ==> s[i].provenance.uid != s[j].provenance.uid
  }

  // An object that no other of its UID comes before.
  ghost predicate FirstOfUid(s: seq<Selected>, x: Selected) {
    x in s && forall y :: y in s && y.provenance.uid == x.provenance.uid ==> !ComesBefore(y.provenance, x.provenance)
  }

  lemma NotBeforeItself(p: Provenance)
    ensures !ComesBefore(p, p)
  {
    StringLessTotal(p.uid, p.uid);
  }

  ghost predicate KeepsUid(s: seq<Selected>, uid: string) { exists x :: x in s && x.provenance.uid == uid }

  lemma {:induction false} FirstsDistinct(seen: set<string>, s: seq<Selected>)
    ensures var r := FirstPerUid(seen, s);
            DistinctUids(r) && forall x :: x in r ==> x in s && x.provenance.uid !in seen
    decreases |s|
  {
    if s != [] {
      var next := if s[0].provenance.uid in seen then seen else seen + {s[0].provenance.uid};
      FirstsDistinct(next, s[1..]);
    }
  }

  lemma {:induction false} FirstsInOrder(seen: set<string>, s: seq<Selected>)
    requires InOrder(s)
    ensures InOrder(FirstPerUid(seen, s))
    decreases |s|
  {
    hide ComesBefore;
    if s != [] {
      var next := if s[0].provenance.uid in seen then seen else seen + {s[0].provenance.uid};
      FirstsInOrder(next, s[1..]);
      FirstsDistinct(next, s[1..]);
    }
  }

  lemma {:induction false} UidsKept(seen: set<string>, s: seq<Selected>, x: Selected)
    requires x in s && x.provenance.uid !in seen
    ensures KeepsUid(FirstPerUid(seen, s), x.provenance.uid)
    decreases |s|
  {
    var r := FirstPerUid(seen, s);
    if s[0].provenance.uid in seen {
      UidsKept(seen, s[1..], x);
    } else if x.provenance.uid == s[0].provenance.uid {
      assert s[0] in r;
    } else {
      UidsKept(seen + {s[0].provenance.uid}, s[1..], x);
      var y :| y in FirstPerUid(seen + {s[0].provenance.uid}, s[1..]) && y.provenance.uid == x.provenance.uid;
      assert y in r;
    }
  }

  lemma {:induction false} FirstsKept(seen: set<string>, s: seq<Selected>, x: Selected)
    requires InOrder(s) && x in FirstPerUid(seen, s)
    ensures FirstOfUid(s, x)
    decreases |s|
  {
    hide ComesBefore;
    FirstsDistinct(seen, s);
    NotBeforeItself(s[0].provenance);
    if s[0].provenance.uid in seen {
      FirstsKept(seen, s[1..], x);
    } else if x != s[0] {
      FirstsDistinct(seen + {s[0].provenance.uid}, s[1..]);
      FirstsKept(seen + {s[0].provenance.uid}, s[1..], x);
    }
  }

  lemma FirstAmong(s: seq<Selected>, t: seq<Selected>, x: Selected)
    requires multiset(s) == multiset(t) && FirstOfUid(s, x)
    ensures FirstOfUid(t, x)
  {
    hide ComesBefore;
    assert x in multiset(s);
    forall y | y in t ensures y in s { assert y in multiset(t); }
  }

  // The arrangement keeps one object of each UID, one that no other of the UID comes before, in order.
  lemma ArrangedKeeps(collected: seq<Selected>)
    ensures var out := Arranged(collected);
            && DistinctUids(out) && InOrder(out)
            && (forall x :: x in out ==> FirstOfUid(collected, x))
            && (forall x :: x in collected ==> KeepsUid(out, x.provenance.uid))
  {
    var sorted := Sort(ByKey(OrderKey), collected);
    SortedInOrder(collected);
    FirstsDistinct({}, sorted);
    FirstsInOrder({}, sorted);
    hide FirstOfUid, KeepsUid, DistinctUids, InOrder, FirstPerUid;
    forall x | x in Arranged(collected) ensures FirstOfUid(collected, x) {
      FirstsKept({}, sorted, x);
      FirstAmong(sorted, collected, x);
    }
    forall x | x in collected ensures KeepsUid(Arranged(collected), x.provenance.uid) {
      SortMembers(ByKey(OrderKey), collected, x);
      UidsKept({}, sorted, x);
    }
  }

  function TotalSize(s: seq<Selected>): int {
    if s == [] then 0 else s[0].size + TotalSize(s[1..])
  }

  lemma {:induction false} InsertKeeps(x: Selected, s: seq<Selected>)
    requires DistinctUids(s) && forall i :: 0 <= i < |s| ==> s[i].provenance.uid != x.provenance.uid
    ensures var r := Insert(ByKey(OrderKey), x, s); DistinctUids(r) && TotalSize(r) == x.size + TotalSize(s)
  {
    if s != [] && ByKey(OrderKey)(s[0], x) {
      InsertKeeps(x, s[1..]);
      var r := Insert(ByKey(OrderKey), x, s[1..]);
      forall j | 0 <= j < |r| ensures r[j].provenance.uid != s[0].provenance.uid {
        InsertMember(ByKey(OrderKey), x, s[1..], j);
      }
    }
  }

  lemma {:induction false} SortKeeps(s: seq<Selected>)
    requires DistinctUids(s)
    ensures var r := Sort(ByKey(OrderKey), s); DistinctUids(r) && TotalSize(r) == TotalSize(s)
  {
    if s != [] {
      SortKeeps(s[1..]);
      var r := Sort(ByKey(OrderKey), s[1..]);
      forall j | 0 <= j < |r| ensures r[j].provenance.uid != s[0].provenance.uid {
        SortMember(ByKey(OrderKey), s[1..], j);
      }
      InsertKeeps(s[0], r);
    }
  }

  lemma {:induction false} NothingDropped(seen: set<string>, s: seq<Selected>)
    requires DistinctUids(s) && forall i :: 0 <= i < |s| ==> s[i].provenance.uid !in seen
    ensures FirstPerUid(seen, s) == s
    decreases |s|
  {
    if s != [] {
      NothingDropped(seen + {s[0].provenance.uid}, s[1..]);
    }
  }

  // The arranged outcome depends on which objects were collected, not on the order they arrived in.
  lemma ArrivalOrderIrrelevant(s: seq<Selected>, t: seq<Selected>)
    requires DistinctUids(s) && multiset(s) == multiset(t)
    ensures Arranged(s) == Arranged(t)
  {
    ByKeyWeakOrder(OrderKey);
    forall x, y | x in multiset(s) && y in multiset(s) && x != y
      ensures ByKey(OrderKey)(x, y) || ByKey(OrderKey)(y, x)
    {
      var i :| 0 <= i < |s| && s[i] == x;
      var j :| 0 <= j < |s| && s[j] == y;
      assert OrderKey(x).parts[2] != OrderKey(y).parts[2];
      KeyOrder(OrderKey(x), OrderKey(y), OrderKey(x));
    }
    SortOfPermutation(ByKey(OrderKey), s, t);
  }

  /* ---------- a successful selection ---------- */

  lemma TotalConcat(a: seq<Charge>, b: seq<Charge>)
    ensures Total(a + b) == Total(a) + Total(b)
  {
    if a == [] {
      assert a + b == b;
    } else {
      assert (a + b)[1..] == a[1..] + b;
      TotalConcat(a[1..], b);
    }
  }

  lemma ChargedChain(start: Budget, b: Budget, c: Budget, first: seq<Charge>, second: seq<Charge>)
    requires Charged(start, b, first) && Charged(b, c, second)
    ensures Charged(start, c, first + second)
  {
    TotalConcat(first, second);
    forall i | 0 <= i < |first| ensures first[i].uid in Uids(first) {}
    assert Uids(first + second) == Uids(first) + Uids(second);
  }

  // Throughout a multi-target selection the budget is exactly what has been retained.
  lemma {:induction false} BudgetExact(cfg: Config, permits: seq<AuthorizedRead>, b: Budget, charges: seq<Charge>,
                                       collected: seq<Selected>, events: seq<Event>, turns: seq<Turn>)
    requires Charged(Budget({}, 0), b, charges) && Mirrors(cfg, charges, collected) && Within(cfg, b)
    ensures var r := ReadAll(cfg, permits, b, collected, events, turns);
            && Within(cfg, r.budget)
            && (r.result.Listed? ==>
                 exists all :: Charged(Budget({}, 0), r.budget, all) && Mirrors(cfg, all, r.result.items))
    decreases |permits|
  {
    hide Charged, Mirrors, Within;
    if permits == [] {
      assert Charged(Budget({}, 0), b, charges) && Mirrors(cfg, charges, collected);
    } else {
      var r := ListTarget(cfg, permits[0], b, turns);
      FreshKept(cfg, b);
      assert Kept(cfg, b, Fresh(b, []));
      ListingExact(cfg, permits[0], b, Fresh(b, []), turns);
      if r.result.Listed? {
        var more :| Charged(b, r.budget, more) && Mirrors(cfg, more, r.result.items);
        ChargedChain(Budget({}, 0), b, r.budget, charges, more);
        MirrorsChain(cfg, charges, collected, more, r.result.items);
        BudgetExact(cfg, permits[1..], r.budget, charges + more, collected + r.result.items, events + r.events, r.rest);
      }
    }
  }

  lemma MirrorsChain(cfg: Config, a: seq<Charge>, x: seq<Selected>, b: seq<Charge>, y: seq<Selected>)
    requires Mirrors(cfg, a, x) && Mirrors(cfg, b, y)
    ensures Mirrors(cfg, a + b, x + y)
  {
  }

  lemma {:induction false} UidCount(charges: seq<Charge>)
    requires DistinctCharges(charges)
    ensures |Uids(charges)| == |charges|
  {
    if charges != [] {
      var n := |charges| - 1;
      assert Uids(charges) == Uids(charges[..n]) + {charges[n].uid} by {
        assert charges == charges[..n] + [charges[n]];
      }
      UidCount(charges[..n]);
    }
  }

  lemma {:induction false} SizesMirrored(cfg: Config, charges: seq<Charge>, items: seq<Selected>)
    requires Mirrors(cfg, charges, items)
    ensures TotalSize(items) == Total(charges)
  {
    if items != [] { SizesMirrored(cfg, charges[1..], items[1..]); }
  }

  // A complete selection holds each collected object once, in order, within both ceilings.
  lemma CompleteSelection(cfg: Config, permits: seq<AuthorizedRead>, turns: seq<Turn>)
    requires cfg.maxResources > 0 && cfg.maxInputBytes > 0
    requires ReadAll(cfg, permits, Budget({}, 0), [], [], turns).result.Listed?
    ensures var collected := ReadAll(cfg, permits, Budget({}, 0), [], [], turns).result.items;
            var out := Arranged(collected);
            && multiset(out) == multiset(collected)
            && DistinctUids(out) && InOrder(out)
            && |out| <= cfg.maxResources && TotalSize(out) <= cfg.maxInputBytes
  {
    var empty: Budget := Budget({}, 0);
    assert Charged(empty, empty, []) by { assert Uids([]) == {}; }
    BudgetExact(cfg, permits, empty, [], [], [], turns);
    var r := ReadAll(cfg, permits, empty, [], [], turns);
    var all :| Charged(empty, r.budget, all) && Mirrors(cfg, all, r.result.items);
    SelectionShape(cfg, r.budget, all, r.result.items);
  }

  lemma SelectionShape(cfg: Config, b: Budget, all: seq<Charge>, collected: seq<Selected>)
    requires Charged(Budget({}, 0), b, all) && Mirrors(cfg, all, collected) && Within(cfg, b)
    ensures var out := Arranged(collected);
            && multiset(out) == multiset(collected)
            && DistinctUids(out) && InOrder(out)
            && |out| <= cfg.maxResources && TotalSize(out) <= cfg.maxInputBytes
  {
    UidCount(all);
    SizesMirrored(cfg, all, collected);
    assert DistinctUids(collected);
    SortKeeps(collected);
    SortedInOrder(collected);
    var sorted := Sort(ByKey(OrderKey), collected);
    NothingDropped({}, sorted);
    assert |sorted| == |multiset(sorted)| == |multiset(collected)|;
    assert b.seen == Uids(all);
  }

  /* ---------- nothing seen is left out ---------- */

  // The object's UID is among the retained ones.
  ghost predicate PageRetained(t: Turn, seen: set<string>) {
    t.reply.Page? ==> forall i :: 0 <= i < |t.reply.items| ==> t.reply.items[i].uid in seen
  }

  lemma {:induction false} WalkRetains(cfg: Config, l: Loop, items: seq<Item>)
    ensures var w := WalkPage(cfg, l, items);
            && l.budget.seen <= w.loop.budget.seen
            && (w.stop == None ==> forall i :: 0 <= i < |items| ==> items[i].uid in w.loop.budget.seen)
    decreases |items|
  {
    if items != [] {
      match Judge(cfg, l.budget, items[0])
      case Reject(_) =>
      case Skip => WalkRetains(cfg, l, items[1..]);
      case Keep(size) => WalkRetains(cfg, Take(cfg, l, items[0], size), items[1..]);
    }
  }

  // Every object on every page of an unrestarted successful listing is retained, by this target or an earlier one.
  lemma {:induction false} UnrestartedRetains(cfg: Config, read: AuthorizedRead, l: Loop, turns: seq<Turn>)
    requires var r := ListFrom(cfg, read, l, turns); r.result.Listed? && !Restarts(r, read)
    ensures var r := ListFrom(cfg, read, l, turns);
            && l.budget.seen <= r.budget.seen && |r.rest| <= |turns| && r.rest == turns[|turns| - |r.rest|..]
            && forall k :: 0 <= k < |turns| - |r.rest| ==> PageRetained(turns[k], r.budget.seen)
    decreases |turns|
  {
    hide PageRetained, Restarts;
    var p := Step(cfg, read, l, turns[0]);
    if p.Again? {
      UnfoldAgain(cfg, read, l, turns);
      NotRestarted(cfg, read, p.next, turns[1..]);
      StepRetains(cfg, read, l, turns[0]);
      UnrestartedRetains(cfg, read, p.next, turns[1..]);
      var r := ListFrom(cfg, read, p.next, turns[1..]);
      forall k | 0 <= k < |turns| - |r.rest| ensures PageRetained(turns[k], r.budget.seen) {
        if k == 0 {
          RetainedGrows(turns[0], p.next.budget.seen, r.budget.seen);
        } else {
          assert turns[k] == turns[1..][k - 1];
        }
      }
    } else {
      StepRetains(cfg, read, l, turns[0]);
    }
  }

  // Every turn from k on that the listing used has its page's objects retained.
  ghost predicate RetainedFrom(turns: seq<Turn>, k: nat, r: Listing) {
    && k + |r.rest| <= |turns| && r.rest == turns[|turns| - |r.rest|..]
    && forall j :: k <= j < |turns| - |r.rest| ==> PageRetained(turns[j], r.budget.seen)
  }

  // Every object on every page of a successful listing is retained, by this target or an earlier one: on all pages,
  // or, when the listing was restarted, on all pages after the expiry.
  lemma EveryObjectRetained(cfg: Config, read: AuthorizedRead, start: Budget, turns: seq<Turn>)
    requires Within(cfg, start) && ListTarget(cfg, read, start, turns).result.Listed?
    ensures var r := ListTarget(cfg, read, start, turns);
            if Restarts(r, read)
            then exists k :: 0 < k <= |turns| && Expires(turns[k - 1]) && RetainedFrom(turns, k, r)
            else RetainedFrom(turns, 0, r)
  {
    hide PageRetained, Restarts, Within;
    var l := Fresh(start, []);
    var r := ListTarget(cfg, read, start, turns);
    if Restarts(r, read) {
      FreshKept(cfg, start);
      RestartForgets(cfg, read, start, l, turns);
      var k :| 0 < k <= |turns| && Expires(turns[k - 1]) && AfterExpiry(cfg, read, start, turns[k..], r);
      hide ListTarget;
      ExpiredRetains(cfg, read, start, turns, k, r);
    } else {
      UnrestartedRetains(cfg, read, l, turns);
    }
  }

  lemma ExpiredRetains(cfg: Config, read: AuthorizedRead, start: Budget, turns: seq<Turn>, k: nat, r: Listing)
    requires k <= |turns| && AfterExpiry(cfg, read, start, turns[k..], r) && r.result.Listed?
    ensures RetainedFrom(turns, k, r)
  {
    hide PageRetained, Restarts, ListFrom;
    UnrestartedRetains(cfg, read, Fresh(start, []), turns[k..]);
    LaterRetained(turns, k, r);
  }

  lemma LaterRetained(turns: seq<Turn>, k: nat, r: Listing)
    requires k <= |turns| && RetainedFrom(turns[k..], 0, r)
    ensures RetainedFrom(turns, k, r)
  {
    hide PageRetained;
    var n := |turns| - |r.rest|;
    assert turns[k..][n - k..] == turns[n..];
    forall j | k <= j < n ensures PageRetained(turns[j], r.budget.seen) { assert turns[k..][j - k] == turns[j]; }
  }

  lemma RetainedGrows(t: Turn, seen: set<string>, more: set<string>)
    requires PageRetained(t, seen) && seen <= more
    ensures PageRetained(t, more)
  {
  }

  lemma NotRestarted(cfg: Config, read: AuthorizedRead, l: Loop, turns: seq<Turn>)
    requires !Restarts(ListFrom(cfg, read, l, turns), read)
    ensures Restarted(read) !in l.events
  {
    EventsGrow(cfg, read, l, turns);
  }

  lemma StepRetains(cfg: Config, read: AuthorizedRead, l: Loop, t: Turn)
    requires var p := Step(cfg, read, l, t); if p.Again? then Restarted(read) !in p.next.events else p.result.Listed?
    ensures var p := Step(cfg, read, l, t);
            var seen := (if p.Again? then p.next else p.last).budget.seen;
            l.budget.seen <= seen && PageRetained(t, seen)
  {
    var asked := Log(l, [Checked(read, true), Issued(read, l.token)]);
    if t.reply.Page? {
      WalkRetains(cfg, asked, t.reply.items);
    }
  }

  /* ---------- authority ---------- */

  // Each page request is for one of these permits.
  ghost predicate Only(permits: seq<AuthorizedRead>, events: seq<Event>) {
    forall i :: 0 <= i < |events| && events[i].Issued? ==> events[i].read in permits
  }

  lemma {:induction false} ListingOnly(cfg: Config, read: AuthorizedRead, l: Loop, turns: seq<Turn>)
    requires Only([read], l.events)
    ensures Only([read], ListFrom(cfg, read, l, turns).events)
    decreases |turns|
  {
    if turns != [] {
      StepOnly(cfg, read, l, turns[0]);
      var p := Step(cfg, read, l, turns[0]);
      if p.Again? { ListingOnly(cfg, read, p.next, turns[1..]); }
    }
  }

  lemma StepOnly(cfg: Config, read: AuthorizedRead, l: Loop, t: Turn)
    requires Only([read], l.events)
    ensures var p := Step(cfg, read, l, t); Only([read], (if p.Again? then p.next else p.last).events)
  {
    if t.reply.Page? {
      var asked := Log(l, [Checked(read, true), Issued(read, l.token)]);
      WalkHistory(cfg, asked, asked.events, t.reply.items);
    }
  }

  lemma {:induction false} AllGuarded(cfg: Config, permits: seq<AuthorizedRead>, pending: seq<AuthorizedRead>,
      b: Budget,
                                      collected: seq<Selected>, events: seq<Event>, turns: seq<Turn>)
    requires Guarded(events) && Only(permits, events) && forall i :: 0 <= i < |pending| ==> pending[i] in permits
    ensures var r := ReadAll(cfg, pending, b, collected, events, turns); Guarded(r.events) && Only(permits, r.events)
    decreases |pending|
  {
    hide ListFrom;
    if pending != [] {
      PagesGuarded(cfg, pending[0], Fresh(b, []), turns);
      ListingOnly(cfg, pending[0], Fresh(b, []), turns);
      var r := ListTarget(cfg, pending[0], b, turns);
      assert Guarded(events + r.events) && Only(permits, events + r.events);
      if r.result.Listed? {
        AllGuarded(cfg, permits, pending[1..], r.budget, collected + r.result.items, events + r.events, r.rest);
      }
    }
  }

  // From policy to page: every list call of a bound selection is for a planned target that the declared policy
  // admits, under the subject the decisions were made for, which was found current just before the call.
  lemma EveryPageAdmitted(p: Policy, c: CompiledPolicy, subject: Subject, requests: seq<Request>,
                          outcomes: seq<DecisionOutcome>, targets: seq<ReadTarget>, permits: seq<AuthorizedRead>,
                          cfg: Config, turns: seq<Turn>, i: nat)
    requires Compiles(p, c) && |outcomes| == |requests|
    requires forall j :: 0 <= j < |requests| ==> MintedFrom(outcomes[j], subject, Ready(c), requests[j])
    requires |permits| == |targets| && forall j :: 0 <= j < |targets| ==> Permits(outcomes, targets[j], permits[j])
    requires var events := ReadAll(cfg, permits, Budget({}, 0), [], [], turns).events; i < |events| && events[i].Issued?
    ensures var events := ReadAll(cfg, permits, Budget({}, 0), [], [], turns).events;
            && events[i].read.target in targets && Admits(p, RequestForTarget(events[i].read.target))
            && events[i].read.capability.subject == subject
            && i > 0 && events[i - 1] == Checked(events[i].read, true)
  {
    hide ReadAll, Compiles, MintedFrom, ValidRead, Admits;
    AllGuarded(cfg, permits, permits, Budget({}, 0), [], [], turns);
    var read := ReadAll(cfg, permits, Budget({}, 0), [], [], turns).events[i].read;
    var k :| 0 <= k < |permits| && permits[k] == read;
    assert Permits(outcomes, targets[k], permits[k]);
    BoundReadsAdmitted(p, c, subject, requests, outcomes, read);
  }
}
