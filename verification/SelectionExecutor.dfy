/** The selection executor: the paginated loop over its mutable budget, and one source-atomic outcome. */
module SelectionExecutor {
  import opened Common
  import opened Accounting
  import opened Binder
  import opened Selection
  import opened SelectionOutcome
  import opened Sorting

  class SelectionBudget {
    var seen: set<string>
    const bytes: Accountant

    ghost predicate Valid()
      reads this, bytes
    {
      bytes.Valid()
    }

    function Value(): Budget
      reads this, bytes
    {
      Budget(seen, bytes.used)
    }

    constructor (maxResources: int, maxInputBytes: int64)
      requires maxResources > 0 && maxInputBytes > 0
      ensures Valid() && fresh(bytes) && Value() == Budget({}, 0) && bytes.ceiling == maxInputBytes
    {
      seen := {};
      bytes := new Accountant(maxInputBytes);
    }

    // Gives back what one target was charged, in order; refused releases are ignored.
    method Discard(charges: seq<Charge>)
      requires Valid()
      modifies this, bytes
      ensures Valid() && Value() == Rollback(old(Value()), charges)
    {
      ghost var before := Value();
      for i := 0 to |charges|
        invariant Valid() && Rollback(Value(), charges[i..]) == Rollback(before, charges)
      {
        assert charges[i..][0] == charges[i] && charges[i..][1..] == charges[i + 1..];
        seen := seen - {charges[i].uid};
        var _ := bytes.ReleaseBytes(charges[i].size);
      }
    }
  }

  class Executor {
    const cfg: Config

    constructor (cfg: Config)
      ensures this.cfg == cfg
    {
      this.cfg := cfg;
    }

    // Reads one page into the loop's lists. `l` is the loop as the page arrives.
    method AcceptPage(l: Loop, items: seq<Item>, budget: SelectionBudget) returns (w: Walk)
      requires budget.Valid() && budget.bytes.ceiling == cfg.maxInputBytes && l.budget == budget.Value()
      modifies budget, budget.bytes
      ensures budget.Valid() && w == WalkPage(cfg, l, items) && budget.Value() == w.loop.budget
    {
      var charges, selected := l.charges, l.items;
      for i := 0 to |items|
        invariant budget.Valid()
        invariant WalkPage(cfg, l.(budget := budget.Value(), charges := charges, items := selected), items[i..])
            == WalkPage(cfg, l, items)
      {
        var item := items[i];
        assert items[i..][0] == item && items[i..][1..] == items[i + 1..];
        ghost var here := l.(budget := budget.Value(), charges := charges, items := selected);
        if item.name == "" || item.uid == "" {
          return Walk(l.(budget := budget.Value(), charges := charges, items := selected), Some(InvalidObject));
        }
        if item.uid in budget.seen { continue; }
        if |budget.seen| >= cfg.maxResources || item.size.None? {
          return Walk(l.(budget := budget.Value(), charges := charges, items := selected),
              Some(SelectionLimitExceeded));
        }
        var size := item.size.value;
        var err := budget.bytes.AddBytes(size);
        if err.Some? {
          return Walk(l.(budget := budget.Value(), charges := charges, items := selected),
              Some(SelectionLimitExceeded));
        }
        budget.seen := budget.seen + {item.uid};
        charges := charges + [Charge(item.uid, size)];
        selected := selected + [Select(cfg, item, size)];
        assert l.(budget := budget.Value(), charges := charges, items := selected) == Take(cfg, here, item, size);
      }
      w := Walk(l.(budget := budget.Value(), charges := charges, items := selected), None);
    }

    method ReadTarget(read: AuthorizedRead, budget: SelectionBudget, turns: seq<Turn>)
      returns (result: Result, events: seq<Event>, rest: seq<Turn>)
      requires budget.Valid() && budget.bytes.ceiling == cfg.maxInputBytes
      modifies budget, budget.bytes
      ensures budget.Valid()
      ensures Listing(result, budget.Value(), events, rest) == ListTarget(cfg, read, old(budget.Value()), turns)
    {
      hide WalkPage, Rollback;
      ghost var start := budget.Value();
      var items: seq<Selected> := [];
      var charges: seq<Charge> := [];
      var token := "";
      var restarted := false;
      events := [];
      for i := 0 to |turns|
        invariant budget.Valid()
        invariant ListFrom(cfg, read, Loop(budget.Value(), charges, items, token, restarted, events), turns[i..])
               == ListTarget(cfg, read, start, turns)
      {
        var t := turns[i];
        rest := turns[i + 1..];
        assert turns[i..][0] == t && turns[i..][1..] == rest;
        if !t.liveBefore { return Failed(ReadInterrupted), events, rest; }
        if !ValidRead(read) { return Failed(AuthorizationMismatch), events, rest; }
        if !cfg.hasVerifier { return Failed(AuthorizationMissing), events, rest; }
        if !t.current { return Failed(AuthorizationStale), events + [Checked(read, false)], rest; }
        events := events + [Checked(read, true), Issued(read, token)];
        match t.reply
        case Failure(e) =>
          if !t.liveAfter { return Failed(ReadInterrupted), events, rest; }
          if e.expired {
            if restarted { return Failed(ListExpired), events, rest; }
            budget.Discard(charges);
            charges, items, token, restarted := [], [], "", true;
            events := events + [Restarted(read)];
          } else {
            if e.forbidden { events := events + [RecordedForbidden(read)]; }
            return Failed(MapListError(cfg, t.liveMapping, e)), events, rest;
          }
        case NoResponse =>
          return Failed(ReadUnavailable), events, rest;
        case Page(page, next) =>
          var w := AcceptPage(Loop(budget.Value(), charges, items, token, restarted, events), page, budget);
          if w.stop.Some? { return Failed(w.stop.value), w.loop.events, rest; }
          charges, items, token := w.loop.charges, w.loop.items, next;
          if token == "" { return Listed(items), w.loop.events, rest; }
          events := w.loop.events;
          restarted := w.loop.restarted;
      }
      return Pending, events, [];
    }

    // Lists every target in order; the outcome is all of it, or one reason.
    method Execute(permits: seq<AuthorizedRead>, turns: seq<Turn>) returns (outcome: Outcome, events: seq<Event>)
      ensures !cfg.hasLister ==> outcome == Rejected(ReadUnavailable) && events == []
      ensures cfg.hasLister && (cfg.maxResources <= 0 || cfg.maxInputBytes <= 0) ==>
                outcome == Rejected(SelectionLimitExceeded) && events == []
      ensures cfg.hasLister && cfg.maxResources > 0 && cfg.maxInputBytes > 0 ==>
                var r := ReadAll(cfg, permits, Budget({}, 0), [], [], turns);
                events == r.events && outcome == Reported(r.result)
      ensures outcome.Complete? ==>
                && DistinctUids(outcome.resources) && InOrder(outcome.resources)
                && |outcome.resources| <= cfg.maxResources && TotalSize(outcome.resources) <= cfg.maxInputBytes
      ensures Guarded(events) && Only(permits, events)
    {
      hide ListFrom, Arranged, DistinctUids, InOrder;
      if !cfg.hasLister { return Rejected(ReadUnavailable), []; }
      if cfg.maxResources <= 0 || cfg.maxInputBytes <= 0 { return Rejected(SelectionLimitExceeded), []; }
      AllGuarded(cfg, permits, permits, Budget({}, 0), [], [], turns);
      var budget := new SelectionBudget(cfg.maxResources, cfg.maxInputBytes);
      var collected: seq<Selected> := [];
      var rest := turns;
      events := [];
      for i := 0 to |permits|
        invariant budget.Valid() && budget.bytes.ceiling == cfg.maxInputBytes && fresh(budget) && fresh(budget.bytes)
        invariant ReadAll(cfg, permits[i..], budget.Value(), collected, events, rest)
               == ReadAll(cfg, permits, Budget({}, 0), [], [], turns)
      {
        assert permits[i..][0] == permits[i] && permits[i..][1..] == permits[i + 1..];
        var result, more, left := ReadTarget(permits[i], budget, rest);
        events, rest := events + more, left;
        match result
        case Failed(reason) => return Rejected(reason), events;
        case Pending => return Unfinished, events;
        case Listed(items) => collected := collected + items;
      }
      CompleteSelection(cfg, permits, turns);
      var arranged := DeduplicateAndSort(collected);
      outcome := Complete(arranged);
    }
  }
}
