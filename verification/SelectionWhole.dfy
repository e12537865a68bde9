/** A whole selection told from its turns: consecutive stretches of them complete one target each. */
module SelectionWhole {
  import opened Common
  import opened Accounting
  import opened Binder
  import opened Selection
  import opened SelectionOutcome
  import opened SelectionItems
  import opened SelectionPages

  // One target's share: the turn after its last one, the budget it starts from, and what it brings.
  datatype Part = Part(to: nat, before: Budget, items: seq<Selected>)

  function Gathered(parts: seq<Part>): seq<Selected> {
    if parts == [] then [] else Gathered(parts[..|parts| - 1]) + parts[|parts| - 1].items
  }

  function EndOf(parts: seq<Part>): nat { if parts == [] then 0 else parts[|parts| - 1].to }

  function UidsIn(items: seq<Selected>): set<string> { set s | s in items :: s.provenance.uid }

  // The budget holds exactly what was gathered so far.
  ghost predicate Holds(b: Budget, gathered: seq<Selected>) {
    b.seen == UidsIn(gathered) && b.used == TotalSize(gathered)
  }

  // The target is completed by its turns, on top of what was gathered before.
  ghost predicate PartOk(cfg: Config, read: AuthorizedRead, turns: seq<Turn>, from: nat, gathered: seq<Selected>,
                         part: Part)
  {
    && from <= part.to <= |turns| && Holds(part.before, gathered)
    && ListedBy(cfg, read, part.before, turns[from..], part.to - from, part.items)
  }

  ghost predicate Chain(cfg: Config, permits: seq<AuthorizedRead>, turns: seq<Turn>, parts: seq<Part>) {
    && |parts| == |permits|
    && forall i :: 0 <= i < |parts| ==>
         PartOk(cfg, permits[i], turns, EndOf(parts[..i]), Gathered(parts[..i]), parts[i])
  }

  function OneMore(cfg: Config, read: AuthorizedRead, r: Listing): Listing {
    match r.result
    case Listed(collected) =>
      var s := ListTarget(cfg, read, r.budget, r.rest);
      Listing(match s.result case Listed(items) => Listed(collected + items) case _ => s.result, s.budget,
              r.events + s.events, s.rest)
    case _ => r
  }

  // Reading the targets is reading all but the last, and then the last.
  lemma {:induction false} ReadLast(cfg: Config, permits: seq<AuthorizedRead>, b: Budget, collected: seq<Selected>,
                                    events: seq<Event>, turns: seq<Turn>)
    requires permits != []
    ensures var m := |permits| - 1;
            ReadAll(cfg, permits, b, collected, events, turns)
            == OneMore(cfg, permits[m], ReadAll(cfg, permits[..m], b, collected, events, turns))
    decreases |permits|
  {
    hide ListTarget;
    var m := |permits| - 1;
    if m > 0 {
      assert permits[..m][1..] == permits[1..][..m - 1];
      var r := ListTarget(cfg, permits[0], b, turns);
      if r.result.Listed? {
        ReadLast(cfg, permits[1..], r.budget, collected + r.result.items, events + r.events, r.rest);
      }
    } else {
      assert permits[..0] == [] && permits[1..] == [];
    }
  }

  lemma ReadFirst(cfg: Config, permits: seq<AuthorizedRead>, turns: seq<Turn>)
    requires permits != []
    ensures ReadAll(cfg, permits, Budget({}, 0), [], [], turns).result.Listed? ==>
            ReadAll(cfg, permits[..|permits| - 1], Budget({}, 0), [], [], turns).result.Listed?
  {
    hide ReadAll, ListTarget;
    ReadLast(cfg, permits, Budget({}, 0), [], [], turns);
  }

  lemma ReadBudget(cfg: Config, permits: seq<AuthorizedRead>, turns: seq<Turn>)
    requires cfg.maxResources > 0 && cfg.maxInputBytes > 0
    ensures var r := ReadAll(cfg, permits, Budget({}, 0), [], [], turns);
            Within(cfg, r.budget) && (r.result.Listed? ==> Holds(r.budget, r.result.items))
  {
    var empty: Budget := Budget({}, 0);
    assert Charged(empty, empty, []) by { assert Uids([]) == {}; }
    BudgetExact(cfg, permits, empty, [], [], [], turns);
    var r := ReadAll(cfg, permits, empty, [], [], turns);
    if r.result.Listed? {
      var all :| Charged(empty, r.budget, all) && Mirrors(cfg, all, r.result.items);
      ChargedHolds(cfg, r.budget, all, r.result.items);
    }
  }

  lemma ChargedHolds(cfg: Config, b: Budget, all: seq<Charge>, items: seq<Selected>)
    requires Charged(Budget({}, 0), b, all) && Mirrors(cfg, all, items)
    ensures Holds(b, items)
  {
    SizesMirrored(cfg, all, items);
    forall c | c in all ensures c.uid in UidsIn(items) {
      var i :| 0 <= i < |all| && all[i] == c;
      assert items[i] in items;
    }
    forall s | s in items ensures s.provenance.uid in Uids(all) {
      var i :| 0 <= i < |items| && items[i] == s;
      assert all[i] in all;
    }
  }

  lemma {:induction false} ReadSuffix(cfg: Config, permits: seq<AuthorizedRead>, turns: seq<Turn>)
    ensures var r := ReadAll(cfg, permits, Budget({}, 0), [], [], turns);
            |r.rest| <= |turns| && r.rest == turns[|turns| - |r.rest|..]
  {
    hide ListTarget;
    if permits == [] {
      assert turns[0..] == turns;
    } else {
      var m := |permits| - 1;
      ReadLast(cfg, permits, Budget({}, 0), [], [], turns);
      ReadSuffix(cfg, permits[..m], turns);
      var r := ReadAll(cfg, permits[..m], Budget({}, 0), [], [], turns);
      hide ReadAll;
      if r.result.Listed? { TargetSuffix(cfg, permits[m], r.budget, r.rest); }
    }
  }

  lemma TargetSuffix(cfg: Config, read: AuthorizedRead, b: Budget, turns: seq<Turn>)
    ensures var s := ListTarget(cfg, read, b, turns);
            |s.rest| <= |turns| && s.rest == turns[|turns| - |s.rest|..]
  {
    RestSuffix(cfg, read, Fresh(b, []), turns);
  }

  lemma ChainLast(cfg: Config, permits: seq<AuthorizedRead>, turns: seq<Turn>, parts: seq<Part>)
    requires |parts| == |permits| && permits != []
    ensures var m := |permits| - 1;
            Chain(cfg, permits, turns, parts) <==>
            Chain(cfg, permits[..m], turns, parts[..m])
            && PartOk(cfg, permits[m], turns, EndOf(parts[..m]), Gathered(parts[..m]), parts[m])
  {
    hide PartOk, EndOf, Gathered;
    var m := |permits| - 1;
    assert forall i :: 0 <= i < m ==> parts[..m][..i] == parts[..i];
  }

  lemma ChainLength(cfg: Config, permits: seq<AuthorizedRead>, turns: seq<Turn>, parts: seq<Part>)
    requires Chain(cfg, permits, turns, parts)
    ensures |parts| == |permits|
  {
  }

  lemma HeldAlike(a: Budget, b: Budget, gathered: seq<Selected>)
    requires Holds(a, gathered) && Holds(b, gathered)
    ensures a == b
  {
  }

  /* ---------- the theorem ---------- */

  // The first n turns complete the targets with these objects.
  ghost predicate Completed(cfg: Config, permits: seq<AuthorizedRead>, turns: seq<Turn>, n: nat,
                            collected: seq<Selected>)
  {
    exists parts :: Chain(cfg, permits, turns, parts) && Gathered(parts) == collected && EndOf(parts) == n
  }

  // A selection is listed with these objects, having used the first n turns, exactly when the turns fall into
  // consecutive stretches that complete the targets in order, each on top of what was gathered before.
  lemma {:induction false} SelectedExactly(cfg: Config, permits: seq<AuthorizedRead>, turns: seq<Turn>, n: nat,
                                           collected: seq<Selected>)
    requires cfg.maxResources > 0 && cfg.maxInputBytes > 0 && n <= |turns|
    ensures var r := ReadAll(cfg, permits, Budget({}, 0), [], [], turns);
            (r.result == Listed(collected) && r.rest == turns[n..]) <==>
            Completed(cfg, permits, turns, n, collected)
  {
    if permits == [] {
      NothingSelected(cfg, turns, n, collected);
    } else {
      hide ReadAll, Completed, Chain, Gathered, EndOf, ListTarget;
      var m := |permits| - 1;
      var r := ReadAll(cfg, permits, Budget({}, 0), [], [], turns);
      var q := ReadAll(cfg, permits[..m], Budget({}, 0), [], [], turns);
      ReadFirst(cfg, permits, turns);
      if r.result == Listed(collected) && r.rest == turns[n..] {
        ReadSuffix(cfg, permits[..m], turns);
        SelectedExactly(cfg, permits[..m], turns, |turns| - |q.rest|, q.result.items);
        ListedCompletes(cfg, permits, turns, n, collected);
      }
      if Completed(cfg, permits, turns, n, collected) {
        var parts := CompletedParts(cfg, permits, turns, n, collected);
        SelectedExactly(cfg, permits[..m], turns, EndOf(parts[..m]), Gathered(parts[..m]));
        CompletesListed(cfg, permits, turns, n, collected, parts);
      }
    }
  }

  lemma Suffix<T>(s: seq<T>, from: nat, to: nat)
    requires from <= to <= |s|
    ensures s[to..] == s[from..][to - from..]
  {
  }

  // One target is listed by turns that complete it.
  lemma TargetPart(cfg: Config, read: AuthorizedRead, b: Budget, turns: seq<Turn>, from: nat, gathered: seq<Selected>,
                   part: Part)
    requires Within(cfg, b) && Holds(b, gathered) && Holds(part.before, gathered) && from <= part.to <= |turns|
    ensures var s := ListTarget(cfg, read, b, turns[from..]);
            (s.result == Listed(part.items) && s.rest == turns[part.to..]) <==>
            PartOk(cfg, read, turns, from, gathered, part)
  {
    hide *;
    HeldAlike(b, part.before, gathered);
    Suffix(turns, from, part.to);
    ListedExactly(cfg, read, b, turns[from..], part.to - from, part.items);
    PartMeans(cfg, read, turns, from, gathered, part);
  }

  lemma PartMeans(cfg: Config, read: AuthorizedRead, turns: seq<Turn>, from: nat, gathered: seq<Selected>, part: Part)
    requires Holds(part.before, gathered) && from <= part.to <= |turns|
    ensures PartOk(cfg, read, turns, from, gathered, part) <==>
            ListedBy(cfg, read, part.before, turns[from..], part.to - from, part.items)
  {
  }

  lemma PartEnds(cfg: Config, read: AuthorizedRead, turns: seq<Turn>, from: nat, gathered: seq<Selected>, part: Part)
    requires PartOk(cfg, read, turns, from, gathered, part)
    ensures from <= part.to <= |turns| && Holds(part.before, gathered)
  {
  }

  lemma GatheredMore(parts: seq<Part>)
    requires parts != []
    ensures Gathered(parts) == Gathered(parts[..|parts| - 1]) + parts[|parts| - 1].items
    ensures EndOf(parts) == parts[|parts| - 1].to
  {
  }

  // From a listed selection: the last target's turns complete it.
  lemma ListedCompletes(cfg: Config, permits: seq<AuthorizedRead>, turns: seq<Turn>, n: nat, collected: seq<Selected>)
    requires cfg.maxResources > 0 && cfg.maxInputBytes > 0 && n <= |turns| && permits != []
    requires var r := ReadAll(cfg, permits, Budget({}, 0), [], [], turns);
             r.result == Listed(collected) && r.rest == turns[n..]
    requires var q := ReadAll(cfg, permits[..|permits| - 1], Budget({}, 0), [], [], turns);
             q.result.Listed? && |q.rest| <= |turns| && q.rest == turns[|turns| - |q.rest|..]
             && Completed(cfg, permits[..|permits| - 1], turns, |turns| - |q.rest|, q.result.items)
    ensures Completed(cfg, permits, turns, n, collected)
  {
    hide ReadAll, ListTarget, Chain, Within, Holds, PartOk, Gathered, EndOf;
    var m := |permits| - 1;
    var q := ReadAll(cfg, permits[..m], Budget({}, 0), [], [], turns);
    var from := |turns| - |q.rest|;
    var first :| Chain(cfg, permits[..m], turns, first) && Gathered(first) == q.result.items && EndOf(first) == from;
    ReadLast(cfg, permits, Budget({}, 0), [], [], turns);
    ReadBudget(cfg, permits[..m], turns);
    TargetSuffix(cfg, permits[m], q.budget, q.rest);
    var s := ListTarget(cfg, permits[m], q.budget, q.rest);
    assert |turns[n..]| == |turns| - n;
    var last := Part(n, q.budget, s.result.items);
    TargetPart(cfg, permits[m], q.budget, turns, from, q.result.items, last);
    ChainMore(cfg, permits, turns, first, last);
  }

  lemma ChainMore(cfg: Config, permits: seq<AuthorizedRead>, turns: seq<Turn>, first: seq<Part>, last: Part)
    requires permits != [] && Chain(cfg, permits[..|permits| - 1], turns, first)
    requires PartOk(cfg, permits[|permits| - 1], turns, EndOf(first), Gathered(first), last)
    ensures Completed(cfg, permits, turns, last.to, Gathered(first) + last.items)
  {
    hide PartOk, Chain, Gathered, EndOf;
    var parts := first + [last];
    ChainLength(cfg, permits[..|permits| - 1], turns, first);
    assert parts[..|permits| - 1] == first;
    ChainLast(cfg, permits, turns, parts);
    GatheredMore(parts);
  }

  lemma CompletedParts(cfg: Config, permits: seq<AuthorizedRead>, turns: seq<Turn>, n: nat, collected: seq<Selected>)
    returns (parts: seq<Part>)
    requires permits != [] && Completed(cfg, permits, turns, n, collected)
    ensures |parts| == |permits| && Chain(cfg, permits, turns, parts) && Gathered(parts) == collected
    ensures EndOf(parts) == n && EndOf(parts[..|permits| - 1]) <= |turns|
    ensures Completed(cfg, permits[..|permits| - 1], turns, EndOf(parts[..|permits| - 1]),
                      Gathered(parts[..|permits| - 1]))
  {
    hide Gathered, Holds, PartOk, EndOf, Chain;
    parts :| Chain(cfg, permits, turns, parts) && Gathered(parts) == collected && EndOf(parts) == n;
    ChainLength(cfg, permits, turns, parts);
    var m := |permits| - 1;
    ChainLast(cfg, permits, turns, parts);
    PartEnds(cfg, permits[m], turns, EndOf(parts[..m]), Gathered(parts[..m]), parts[m]);
  }

  // From complete parts: the last target's turns are listed.
  lemma CompletesListed(cfg: Config, permits: seq<AuthorizedRead>, turns: seq<Turn>, n: nat, collected: seq<Selected>,
                        parts: seq<Part>)
    requires cfg.maxResources > 0 && cfg.maxInputBytes > 0 && n <= |turns| && permits != []
    requires |parts| == |permits| && Chain(cfg, permits, turns, parts)
    requires Gathered(parts) == collected && EndOf(parts) == n && EndOf(parts[..|permits| - 1]) <= |turns|
    requires var m := |permits| - 1;
             var q := ReadAll(cfg, permits[..m], Budget({}, 0), [], [], turns);
             q.result == Listed(Gathered(parts[..m])) && q.rest == turns[EndOf(parts[..m])..]
    ensures var r := ReadAll(cfg, permits, Budget({}, 0), [], [], turns);
            r.result == Listed(collected) && r.rest == turns[n..]
  {
    hide ReadAll, ListTarget, Chain, Within, Holds, PartOk, Gathered, EndOf;
    var m := |permits| - 1;
    var q := ReadAll(cfg, permits[..m], Budget({}, 0), [], [], turns);
    var from, last := EndOf(parts[..m]), parts[m];
    ReadLast(cfg, permits, Budget({}, 0), [], [], turns);
    ReadBudget(cfg, permits[..m], turns);
    ChainLast(cfg, permits, turns, parts);
    GatheredMore(parts);
    PartEnds(cfg, permits[m], turns, from, Gathered(parts[..m]), last);
    TargetPart(cfg, permits[m], q.budget, turns, from, Gathered(parts[..m]), last);
  }

  lemma NothingSelected(cfg: Config, turns: seq<Turn>, n: nat, collected: seq<Selected>)
    requires n <= |turns|
    ensures var r := ReadAll(cfg, [], Budget({}, 0), [], [], turns);
            (r.result == Listed(collected) && r.rest == turns[n..]) <==> Completed(cfg, [], turns, n, collected)
  {
    assert Chain(cfg, [], turns, []);
    assert turns == turns[n..] <==> n == 0 by { assert |turns[n..]| == |turns| - n; }
  }
}
