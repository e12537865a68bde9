/** One loop iteration of a paginated target read, and the listing it adds up to. */
module Selection {
  import opened Common
  import opened Accounting
  import opened Binder

  datatype Reason =
    | AuthorizationMismatch | AuthorizationMissing | AuthorizationStale
    | ReadForbidden | UnsupportedSelector | ReadInterrupted | ReadUnavailable | ListExpired
    | InvalidObject | SelectionLimitExceeded
    | OtherReason(code: string)

  // A returned object; `size` is its canonical byte size, absent when it cannot be sized.
  datatype Item = Item(namespace: string, name: string, uid: string, size: Option<int64>, body: string)

  // What the error classification looks at.
  datatype ListError = ListError(
    selection: Option<Reason>, interrupted: bool, expired: bool, forbidden: bool, badRequest: bool)

  datatype Reply = Page(items: seq<Item>, next: string) | NoResponse | Failure(error: ListError)

  // The environment of one loop iteration: the context's liveness at its three checks, the freshness of the
  // capability's subject, and the lister's reply.
  datatype Turn = Turn(liveBefore: bool, current: bool, reply: Reply, liveAfter: bool, liveMapping: bool)

  datatype Config = Config(
    hasLister: bool, hasVerifier: bool, maxResources: int, maxInputBytes: int64,
    fieldSelector: string, apiVersion: string, kind: string)

  datatype Selected = Selected(body: string, size: int64, provenance: Provenance)

  // What a target has been charged, in order.
  datatype Charge = Charge(uid: string, size: int64)

  // The shared budget of one selection.
  datatype Budget = Budget(seen: set<string>, used: int64)

  // The observable history of a read.
  datatype Event =
    | Checked(subjectOf: AuthorizedRead, current: bool)
    | Issued(read: AuthorizedRead, token: string)
    | Restarted(target: AuthorizedRead)
    | RecordedForbidden(denied: AuthorizedRead)

  datatype Loop = Loop(
    budget: Budget, charges: seq<Charge>, items: seq<Selected>, token: string, restarted: bool, events: seq<Event>)

  datatype Result = Listed(items: seq<Selected>) | Failed(reason: Reason) | Pending

  // A listing in progress or finished; `rest` are the turns it did not use.
  datatype Listing = Listing(result: Result, budget: Budget, events: seq<Event>, rest: seq<Turn>)

  datatype Progress = Again(next: Loop) | Done(result: Result, last: Loop)

  /* ---------- one item, one page ---------- */

  datatype Verdict = Keep(size: int64) | Skip | Reject(reason: Reason)

  function Judge(cfg: Config, b: Budget, item: Item): Verdict {
    if item.name == "" || item.uid == "" then Reject(InvalidObject)
    else if item.uid in b.seen then Skip
    else if |b.seen| >= cfg.maxResources then Reject(SelectionLimitExceeded)
    else if item.size.None? then Reject(SelectionLimitExceeded)
    else if !Fits(cfg.maxInputBytes, b.used, item.size.value) then Reject(SelectionLimitExceeded)
    else Keep(item.size.value)
  }

  function Select(cfg: Config, item: Item, size: int64): Selected {
    Selected(item.body, size, Provenance(cfg.apiVersion, cfg.kind, item.namespace, item.name, item.uid))
  }

  function Take(cfg: Config, l: Loop, item: Item, size: int64): Loop
    requires Fits(cfg.maxInputBytes, l.budget.used, size)
  {
    l.(budget := Budget(l.budget.seen + {item.uid}, l.budget.used + size),
       charges := l.charges + [Charge(item.uid, size)],
       items := l.items + [Select(cfg, item, size)])
  }

  datatype Walk = Walk(loop: Loop, stop: Option<Reason>)

  function WalkPage(cfg: Config, l: Loop, items: seq<Item>): Walk
    decreases |items|
  {
    if items == [] then Walk(l, None)
    else match Judge(cfg, l.budget, items[0])
      case Reject(reason) => Walk(l, Some(reason))
      case Skip => WalkPage(cfg, l, items[1..])
      case Keep(size) => WalkPage(cfg, Take(cfg, l, items[0], size), items[1..])
  }

  /* ---------- expiry ---------- */

  function Release(b: Budget, c: Charge): Budget {
    Budget(b.seen - {c.uid}, if Releasable(b.used, c.size) then b.used - c.size else b.used)
  }

  function Rollback(b: Budget, charges: seq<Charge>): Budget
    decreases |charges|
  {
    if charges == [] then b else Rollback(Release(b, charges[0]), charges[1..])
  }

  // Every release of the rollback is accepted by the accountant.
  predicate ReleasesSucceed(b: Budget, charges: seq<Charge>)
    decreases |charges|
  {
    charges == [] || (Releasable(b.used, charges[0].size) && ReleasesSucceed(Release(b, charges[0]), charges[1..]))
  }

  function Restart(l: Loop, read: AuthorizedRead): Loop {
    Loop(Rollback(l.budget, l.charges), [], [], "", true, l.events + [Restarted(read)])
  }

  function MapListError(cfg: Config, live: bool, e: ListError): Reason {
    if e.selection.Some? then e.selection.value
    else if !live then ReadInterrupted
    else if e.interrupted then ReadInterrupted
    else if e.forbidden then ReadForbidden
    else if cfg.fieldSelector != "" && e.badRequest then UnsupportedSelector
    else ReadUnavailable
  }

  /* ---------- one iteration, one listing ---------- */

  function Fail(reason: Reason, l: Loop): Progress { Done(Failed(reason), l) }

  function Log(l: Loop, events: seq<Event>): Loop { l.(events := l.events + events) }

  function Step(cfg: Config, read: AuthorizedRead, l: Loop, t: Turn): Progress {
    if !t.liveBefore then Fail(ReadInterrupted, l)
    else if !ValidRead(read) then Fail(AuthorizationMismatch, l)
    else if !cfg.hasVerifier then Fail(AuthorizationMissing, l)
    else if !t.current then Fail(AuthorizationStale, Log(l, [Checked(read, false)]))
    else React(cfg, read, Log(l, [Checked(read, true), Issued(read, l.token)]), t)
  }

  function React(cfg: Config, read: AuthorizedRead, l: Loop, t: Turn): Progress {
    match t.reply
    case NoResponse => Fail(ReadUnavailable, l)
    case Page(items, next) =>
      var w := WalkPage(cfg, l, items);
      if w.stop.Some? then Fail(w.stop.value, w.loop)
      else if next == "" then Done(Listed(w.loop.items), w.loop.(token := next))
      else Again(w.loop.(token := next))
    case Failure(e) =>
      if !t.liveAfter then Fail(ReadInterrupted, l)
      else if e.expired then (if l.restarted then Fail(ListExpired, l) else Again(Restart(l, read)))
      else
        Fail(MapListError(cfg, t.liveMapping, e), if e.forbidden then Log(l, [RecordedForbidden(read)]) else l)
  }

  function ListFrom(cfg: Config, read: AuthorizedRead, l: Loop, turns: seq<Turn>): Listing
    decreases |turns|
  {
    if turns == [] then Listing(Pending, l.budget, l.events, [])
    else match Step(cfg, read, l, turns[0])
      case Done(result, last) => Listing(result, last.budget, last.events, turns[1..])
      case Again(next) => ListFrom(cfg, read, next, turns[1..])
  }

  function Fresh(b: Budget, events: seq<Event>): Loop { Loop(b, [], [], "", false, events) }

  // The listing of one target from a given budget.
  function ListTarget(cfg: Config, read: AuthorizedRead, b: Budget, turns: seq<Turn>): Listing {
    ListFrom(cfg, read, Fresh(b, []), turns)
  }

  /* ---------- exact budgets ---------- */

  function Uids(charges: seq<Charge>): set<string> { set c | c in charges :: c.uid }

  function Total(charges: seq<Charge>): int {
    if charges == [] then 0 else charges[0].size + Total(charges[1..])
  }

  ghost predicate DistinctCharges(charges: seq<Charge>) {
    forall i, j :: 0 <= i < j < |charges| ==> charges[i].uid != charges[j].uid
  }

  // The budget is the starting one plus exactly these charges.
  ghost predicate Charged(start: Budget, b: Budget, charges: seq<Charge>) {
    && DistinctCharges(charges)
    && (forall i :: 0 <= i < |charges| ==> charges[i].uid !in start.seen && charges[i].size >= 0)
    && b.seen == start.seen + Uids(charges)
    && b.used == start.used + Total(charges)
  }

  // What is retained is what was charged, item by item.
  ghost predicate Mirrors(cfg: Config, charges: seq<Charge>, items: seq<Selected>) {
    && |items| == |charges|
    && forall i :: 0 <= i < |items| ==>
        && items[i].provenance.uid == charges[i].uid && items[i].size == charges[i].size
        && items[i].provenance.apiVersion == cfg.apiVersion && items[i].provenance.kind == cfg.kind
        && items[i].provenance.name != "" && items[i].provenance.uid != ""
  }

  ghost predicate Within(cfg: Config, b: Budget) {
    |b.seen| <= cfg.maxResources && 0 <= b.used <= cfg.maxInputBytes
  }

  ghost predicate Kept(cfg: Config, start: Budget, l: Loop) {
    Charged(start, l.budget, l.charges) && Mirrors(cfg, l.charges, l.items) && Within(cfg, l.budget)
  }

  lemma {:induction false} TotalAppend(charges: seq<Charge>, c: Charge)
    ensures Total(charges + [c]) == Total(charges) + c.size
  {
    if charges != [] {
      assert (charges + [c])[1..] == charges[1..] + [c];
      TotalAppend(charges[1..], c);
    }
  }

  lemma {:induction false} TotalNonNegative(charges: seq<Charge>)
    requires forall i :: 0 <= i < |charges| ==> charges[i].size >= 0
    ensures Total(charges) >= 0
  {
    if charges != [] { TotalNonNegative(charges[1..]); }
  }

  lemma ChargeOne(start: Budget, b: Budget, charges: seq<Charge>, c: Charge, after: Budget)
    requires Charged(start, b, charges) && c.uid !in b.seen && c.size >= 0
    requires after.seen == b.seen + {c.uid} && after.used == b.used + c.size
    ensures Charged(start, after, charges + [c])
  {
    TotalAppend(charges, c);
    forall i | 0 <= i < |charges| ensures charges[i].uid in Uids(charges) {}
    assert Uids(charges + [c]) == Uids(charges) + {c.uid};
  }

  lemma TakeKeeps(cfg: Config, start: Budget, l: Loop, item: Item)
    requires Kept(cfg, start, l) && Judge(cfg, l.budget, item).Keep?
    ensures Kept(cfg, start, Take(cfg, l, item, Judge(cfg, l.budget, item).size))
  {
    hide Charged;
    var size := Judge(cfg, l.budget, item).size;
    ChargeOne(start, l.budget, l.charges, Charge(item.uid, size), Take(cfg, l, item, size).budget);
  }

  lemma {:induction false} WalkKeeps(cfg: Config, start: Budget, l: Loop, items: seq<Item>)
    requires Kept(cfg, start, l)
    ensures Kept(cfg, start, WalkPage(cfg, l, items).loop)
    ensures WalkPage(cfg, l, items).loop.events == l.events && WalkPage(cfg, l, items).loop.restarted == l.restarted
    decreases |items|
  {
    hide Kept;
    if items != [] {
      match Judge(cfg, l.budget, items[0])
      case Reject(_) =>
      case Skip => WalkKeeps(cfg, start, l, items[1..]);
      case Keep(size) =>
        TakeKeeps(cfg, start, l, items[0]);
        WalkKeeps(cfg, start, Take(cfg, l, items[0], size), items[1..]);
    }
  }

  lemma ReleaseFirst(start: Budget, b: Budget, charges: seq<Charge>)
    requires Charged(start, b, charges) && charges != [] && start.used >= 0
    ensures Releasable(b.used, charges[0].size)
    ensures Charged(start, Release(b, charges[0]), charges[1..])
  {
    var c := charges[0];
    TotalNonNegative(charges[1..]);
    UidsSplit(charges);
    assert b.seen - {c.uid} == start.seen + Uids(charges[1..]);
  }

  lemma UidsSplit(charges: seq<Charge>)
    requires charges != [] && DistinctCharges(charges)
    ensures Uids(charges) == {charges[0].uid} + Uids(charges[1..]) && charges[0].uid !in Uids(charges[1..])
  {
    assert charges == [charges[0]] + charges[1..];
    assert charges[0] in charges;
  }

  // Rolling back releases every charge, and gives back exactly the budget the target started from.
  lemma {:induction false} RollbackExact(start: Budget, b: Budget, charges: seq<Charge>)
    requires Charged(start, b, charges) && start.used >= 0
    ensures ReleasesSucceed(b, charges)
    ensures Rollback(b, charges) == start
    decreases |charges|
  {
    if charges != [] {
      ReleaseFirst(start, b, charges);
      RollbackExact(start, Release(b, charges[0]), charges[1..]);
    } else {
      assert Uids(charges) == {};
      assert b.seen == start.seen;
    }
  }

  // Every iteration keeps the budget exact, whether it continues or ends the target.
  lemma StepKeeps(cfg: Config, read: AuthorizedRead, start: Budget, l: Loop, t: Turn)
    requires Kept(cfg, start, l) && Within(cfg, start)
    ensures var p := Step(cfg, read, l, t); Kept(cfg, start, if p.Again? then p.next else p.last)
  {
    hide Charged, Mirrors, Within;
    var asked := Log(l, [Checked(read, true), Issued(read, l.token)]);
    assert Kept(cfg, start, asked);
    if t.reply.Page? {
      WalkKeeps(cfg, start, asked, t.reply.items);
    }
    RestartFresh(cfg, read, start, asked);
    assert Kept(cfg, start, Fresh(start, [])) by { FreshKept(cfg, start); }
  }

  lemma FreshKept(cfg: Config, start: Budget)
    requires Within(cfg, start)
    ensures Kept(cfg, start, Fresh(start, []))
  {
    assert Uids([]) == {};
    assert start.seen + {} == start.seen;
  }

  // A restart is a new start that remembers only that it was one.
  lemma RestartFresh(cfg: Config, read: AuthorizedRead, start: Budget, l: Loop)
    requires Kept(cfg, start, l) && Within(cfg, start)
    ensures Restart(l, read) == Fresh(start, l.events + [Restarted(read)]).(restarted := true)
  {
    RollbackExact(start, l.budget, l.charges);
  }

  // Over any listing of a target: what is retained is exactly what the budget grew by.
  lemma {:induction false} ListingExact(cfg: Config, read: AuthorizedRead, start: Budget, l: Loop, turns: seq<Turn>)
    requires Kept(cfg, start, l) && Within(cfg, start)
    ensures var r := ListFrom(cfg, read, l, turns);
            && Within(cfg, r.budget)
            && (r.result.Listed? ==> exists charges ::
                 Charged(start, r.budget, charges) && Mirrors(cfg, charges, r.result.items))
    decreases |turns|
  {
    hide Charged, Mirrors, Within;
    if turns != [] {
      StepKeeps(cfg, read, start, l, turns[0]);
      var p := Step(cfg, read, l, turns[0]);
      if p.Again? {
        ListingExact(cfg, read, start, p.next, turns[1..]);
      } else if p.result.Listed? {
        assert p.result.items == p.last.items;
        assert Charged(start, p.last.budget, p.last.charges);
      }
    }
  }

  /* ---------- a restart forgets the discarded pages ---------- */

  ghost predicate SameOutcome(r: Listing, s: Listing) {
    r.result == s.result && r.budget == s.budget && r.rest == s.rest
  }

  // The history only records: what came before does not change how a listing goes on.
  lemma {:induction false} HistoryIrrelevant(cfg: Config, read: AuthorizedRead, l: Loop, events: seq<Event>,
      turns: seq<Turn>)
    ensures var r := ListFrom(cfg, read, l.(events := events + l.events), turns);
            var s := ListFrom(cfg, read, l, turns);
            SameOutcome(r, s) && r.events == events + s.events
    decreases |turns|
  {
    if turns != [] {
      StepHistory(cfg, read, l, events, turns[0]);
      var p := Step(cfg, read, l, turns[0]);
      if p.Again? { HistoryIrrelevant(cfg, read, p.next, events, turns[1..]); }
    }
  }

  function Earlier(p: Progress, events: seq<Event>): Progress {
    match p
    case Again(next) => Again(next.(events := events + next.events))
    case Done(result, last) => Done(result, last.(events := events + last.events))
  }

  lemma {:induction false} WalkHistory(cfg: Config, l: Loop, events: seq<Event>, items: seq<Item>)
    ensures WalkPage(cfg, l.(events := events), items) ==
            var w := WalkPage(cfg, l, items); w.(loop := w.loop.(events := events))
    ensures WalkPage(cfg, l, items).loop.events == l.events
    decreases |items|
  {
    if items != [] {
      match Judge(cfg, l.budget, items[0])
      case Reject(_) =>
      case Skip => WalkHistory(cfg, l, events, items[1..]);
      case Keep(size) => WalkHistory(cfg, Take(cfg, l, items[0], size), events, items[1..]);
    }
  }

  lemma StepHistory(cfg: Config, read: AuthorizedRead, l: Loop, events: seq<Event>, t: Turn)
    ensures Step(cfg, read, l.(events := events + l.events), t) == Earlier(Step(cfg, read, l, t), events)
  {
    var asking := [Checked(read, true), Issued(read, l.token)];
    var asked := Log(l, asking);
    assert (events + l.events) + asking == events + asked.events;
    assert (events + l.events) + [Checked(read, false)] == events + (l.events + [Checked(read, false)]);
    assert (events + asked.events) + [Restarted(read)] == events + (asked.events + [Restarted(read)]);
    assert (events + asked.events) + [RecordedForbidden(read)] == events + (asked.events + [RecordedForbidden(read)]);
    if t.reply.Page? { WalkHistory(cfg, asked, events + asked.events, t.reply.items); }
  }

  ghost predicate Restarts(r: Listing, read: AuthorizedRead) { Restarted(read) in r.events }

  // Having restarted only matters when the continuation expires again: then, and only then, the target fails.
  lemma {:induction false} SecondChance(cfg: Config, read: AuthorizedRead, l: Loop, turns: seq<Turn>)
    requires Restarted(read) !in l.events && !l.restarted
    ensures var once := ListFrom(cfg, read, l.(restarted := true), turns);
            var untouched := ListFrom(cfg, read, l, turns);
            if Restarts(untouched, read) then once.result == Failed(ListExpired) else SameOutcome(once, untouched)
    decreases |turns|
  {
    if turns != [] {
      SecondStep(cfg, read, l, turns[0]);
      var p := Step(cfg, read, l, turns[0]);
      if p.Again? {
        if p.next.restarted {
          EventsGrow(cfg, read, p.next, turns[1..]);
        } else {
          SecondChance(cfg, read, p.next, turns[1..]);
        }
      }
    }
  }

  function Marked(p: Progress): Progress {
    match p
    case Again(next) => Again(next.(restarted := true))
    case Done(result, last) => Done(result, last.(restarted := true))
  }

  lemma SecondStep(cfg: Config, read: AuthorizedRead, l: Loop, t: Turn)
    requires Restarted(read) !in l.events && !l.restarted
    ensures var p := Step(cfg, read, l, t);
            var q := Step(cfg, read, l.(restarted := true), t);
            if p.Again? && p.next.restarted then
              q.Done? && q.result == Failed(ListExpired) && Restarted(read) in p.next.events
            else q == Marked(p) && Restarted(read) !in (if p.Again? then p.next else p.last).events
    ensures var p := Step(cfg, read, l, t); p.Done? ==> !p.last.restarted
  {
    var asked := Log(l, [Checked(read, true), Issued(read, l.token)]);
    if t.reply.Page? {
      WalkMark(cfg, asked, t.reply.items);
      WalkHistory(cfg, asked, asked.events, t.reply.items);
    }
  }

  lemma {:induction false} WalkMark(cfg: Config, l: Loop, items: seq<Item>)
    ensures WalkPage(cfg, l.(restarted := true), items) ==
            var w := WalkPage(cfg, l, items); w.(loop := w.loop.(restarted := true))
    ensures WalkPage(cfg, l, items).loop.restarted == l.restarted
    decreases |items|
  {
    if items != [] {
      match Judge(cfg, l.budget, items[0])
      case Reject(_) =>
      case Skip => WalkMark(cfg, l, items[1..]);
      case Keep(size) => WalkMark(cfg, Take(cfg, l, items[0], size), items[1..]);
    }
  }

  lemma {:induction false} EventsGrow(cfg: Config, read: AuthorizedRead, l: Loop, turns: seq<Turn>)
    ensures l.events <= ListFrom(cfg, read, l, turns).events
    decreases |turns|
  {
    HistoryIrrelevant(cfg, read, l.(events := []), l.events, turns);
    assert l.events + [] == l.events;
  }

  // The listing of a target whose continuation expired is the listing of the turns after the expiry, as if the
  // discarded pages had never been read; unless those turns expire as well, which fails the target.
  lemma {:induction false} RestartForgets(cfg: Config, read: AuthorizedRead, start: Budget, l: Loop, turns: seq<Turn>)
    requires Kept(cfg, start, l) && Within(cfg, start) && !l.restarted && Restarted(read) !in l.events
    requires Restarts(ListFrom(cfg, read, l, turns), read)
    ensures exists k :: 0 < k <= |turns| && Expires(turns[k - 1])
                        && AfterExpiry(cfg, read, start, turns[k..], ListFrom(cfg, read, l, turns))
    decreases |turns|
  {
    hide Charged, Mirrors, Within, Kept;
    StepKeeps(cfg, read, start, l, turns[0]);
    SecondStep(cfg, read, l, turns[0]);
    var next := Step(cfg, read, l, turns[0]).next;
    if next.restarted {
      ExpiryForgets(cfg, read, start, l, turns);
      assert Expires(turns[1 - 1]);
    } else {
      RestartForgets(cfg, read, start, next, turns[1..]);
      var k :| 0 < k <= |turns[1..]| && Expires(turns[1..][k - 1])
               && AfterExpiry(cfg, read, start, turns[1..][k..], ListFrom(cfg, read, next, turns[1..]));
      assert turns[1..][k..] == turns[k + 1..] && turns[1..][k - 1] == turns[k + 1 - 1];
    }
  }

  predicate Expires(t: Turn) { t.liveBefore && t.current && t.reply.Failure? && t.reply.error.expired && t.liveAfter }

  ghost predicate AfterExpiry(cfg: Config, read: AuthorizedRead, start: Budget, rest: seq<Turn>, r: Listing) {
    var untouched := ListTarget(cfg, read, start, rest);
    if Restarts(untouched, read) then r.result == Failed(ListExpired) else SameOutcome(r, untouched)
  }

  lemma ExpiryForgets(cfg: Config, read: AuthorizedRead, start: Budget, l: Loop, turns: seq<Turn>)
    requires Kept(cfg, start, l) && Within(cfg, start) && !l.restarted && Restarted(read) !in l.events
    requires turns != [] && Step(cfg, read, l, turns[0]).Again? && Step(cfg, read, l, turns[0]).next.restarted
    ensures Expires(turns[0])
    ensures AfterExpiry(cfg, read, start, turns[1..], ListFrom(cfg, read, l, turns))
  {
    hide Charged, Mirrors, Within, ListFrom;
    var asked := Log(l, [Checked(read, true), Issued(read, l.token)]);
    if turns[0].reply.Page? { WalkMark(cfg, asked, turns[0].reply.items); }
    assert Kept(cfg, start, asked);
    RestartFresh(cfg, read, start, asked);
    var next := Step(cfg, read, l, turns[0]).next;
    var blank := Fresh(start, []);
    assert next == blank.(restarted := true, events := next.events + []);
    HistoryIrrelevant(cfg, read, blank.(restarted := true), next.events, turns[1..]);
    SecondChance(cfg, read, blank, turns[1..]);
    UnfoldAgain(cfg, read, l, turns);
  }

  lemma UnfoldAgain(cfg: Config, read: AuthorizedRead, l: Loop, turns: seq<Turn>)
    requires turns != [] && Step(cfg, read, l, turns[0]).Again?
    ensures ListFrom(cfg, read, l, turns) == ListFrom(cfg, read, Step(cfg, read, l, turns[0]).next, turns[1..])
  {
  }

  /* ---------- authority of every page ---------- */

  // Each list call is for a valid read, and directly follows a check that found its subject current.
  ghost predicate Guarded(events: seq<Event>) {
    forall i :: 0 <= i < |events| && events[i].Issued? ==>
                  ValidRead(events[i].read) && i > 0 && events[i - 1] == Checked(events[i].read, true)
  }

  lemma {:induction false} PagesGuarded(cfg: Config, read: AuthorizedRead, l: Loop, turns: seq<Turn>)
    requires Guarded(l.events)
    ensures Guarded(ListFrom(cfg, read, l, turns).events)
    decreases |turns|
  {
    if turns != [] {
      StepGuarded(cfg, read, l, turns[0]);
      var p := Step(cfg, read, l, turns[0]);
      if p.Again? { PagesGuarded(cfg, read, p.next, turns[1..]); }
    }
  }

  lemma StepGuarded(cfg: Config, read: AuthorizedRead, l: Loop, t: Turn)
    requires Guarded(l.events)
    ensures var p := Step(cfg, read, l, t); Guarded((if p.Again? then p.next else p.last).events)
  {
    hide ValidRead;
    if t.reply.Page? {
      var asked := Log(l, [Checked(read, true), Issued(read, l.token)]);
      WalkHistory(cfg, asked, asked.events, t.reply.items);
    }
  }
}
