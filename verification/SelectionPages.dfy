/** A target's listing told from the turns it was given: which ones complete it or fail it, what it keeps, and what
    every request asked for. */
module SelectionPages {
  import opened Common
  import opened Accounting
  import opened Binder
  import opened Selection
  import opened SelectionItems

  // The request of this turn is made.
  predicate Passes(cfg: Config, read: AuthorizedRead, t: Turn) {
    t.liveBefore && ValidRead(read) && cfg.hasVerifier && t.current
  }

  predicate OpenPage(cfg: Config, read: AuthorizedRead, t: Turn) {
    Passes(cfg, read, t) && t.reply.Page? && t.reply.next != ""
  }

  predicate LastPage(cfg: Config, read: AuthorizedRead, t: Turn) {
    Passes(cfg, read, t) && t.reply.Page? && t.reply.next == ""
  }

  predicate Expiry(cfg: Config, read: AuthorizedRead, t: Turn) { Passes(cfg, read, t) && Expires(t) }

  function PageItems(ts: seq<Turn>): seq<Item> {
    if ts == [] then []
    else (if ts[0].reply.Page? then ts[0].reply.items else []) + PageItems(ts[1..])
  }

  ghost predicate AllOpen(cfg: Config, read: AuthorizedRead, ts: seq<Turn>) {
    forall i :: 0 <= i < |ts| ==> OpenPage(cfg, read, ts[i])
  }

  /* ---------- pages and the turn that ends them ---------- */

  // Each page says that another follows, and their objects are all accepted on top of what is in the loop.
  ghost predicate Continues(cfg: Config, read: AuthorizedRead, l: Loop, ts: seq<Turn>) {
    AllOpen(cfg, read, ts) && WalkPage(cfg, l, PageItems(ts)).stop == None
  }

  function AfterPages(cfg: Config, l: Loop, ts: seq<Turn>): Loop { WalkPage(cfg, l, PageItems(ts)).loop }

  // The last of the turns ends the reading with this result, after pages.
  ghost predicate Plain(cfg: Config, read: AuthorizedRead, l: Loop, ts: seq<Turn>, result: Result) {
    && ts != []
    && var m := |ts| - 1;
       && Continues(cfg, read, l, ts[..m])
       && var p := Step(cfg, read, AfterPages(cfg, l, ts[..m]), ts[m]); p.Done? && p.result == result
  }

  function Anew(start: Budget): Loop { Fresh(start, []).(restarted := true) }

  // Exactly these turns end the listing: so, or, once, after an expiry that follows pages, from the start.
  ghost predicate EndsAs(cfg: Config, read: AuthorizedRead, start: Budget, l: Loop, ts: seq<Turn>, result: Result) {
    Plain(cfg, read, l, ts, result) || (!l.restarted && exists k :: RestartsAt(cfg, read, start, l, ts, result, k))
  }

  ghost predicate RestartsAt(cfg: Config, read: AuthorizedRead, start: Budget, l: Loop, ts: seq<Turn>, result: Result,
                             k: int)
  {
    && 0 < k <= |ts| && Continues(cfg, read, l, ts[..k - 1]) && Expiry(cfg, read, ts[k - 1])
    && Plain(cfg, read, Anew(start), ts[k..], result)
  }

  lemma FirstPage(ts: seq<Turn>)
    requires ts != [] && ts[0].reply.Page?
    ensures PageItems(ts) == ts[0].reply.items + PageItems(ts[1..])
  {
  }

  // The loop that goes on after an accepted open page.
  ghost predicate FollowsPage(cfg: Config, read: AuthorizedRead, l: Loop, t: Turn, next: Loop) {
    && OpenPage(cfg, read, t)
    && var w := WalkPage(cfg, l, t.reply.items);
       w.stop == None && next == w.loop.(token := t.reply.next, events := next.events)
  }

  lemma PageFrame(cfg: Config, read: AuthorizedRead, l: Loop, t: Turn)
    requires t.reply.Page?
    ensures var asked := Log(l, [Checked(read, true), Issued(read, l.token)]);
            var w := WalkPage(cfg, l, t.reply.items);
            WalkPage(cfg, asked, t.reply.items) == w.(loop := w.loop.(events := asked.events))
  {
    WalkFrame(cfg, l, Log(l, [Checked(read, true), Issued(read, l.token)]), t.reply.items);
  }

  // A step goes on after an accepted open page, and after an expiry that is the first.
  lemma StepGoesOn(cfg: Config, read: AuthorizedRead, l: Loop, t: Turn)
    ensures var p := Step(cfg, read, l, t);
            && (p.Again? <==>
                  || (OpenPage(cfg, read, t) && WalkPage(cfg, l, t.reply.items).stop == None)
                  || (Expiry(cfg, read, t) && !l.restarted))
            && (p.Again? && OpenPage(cfg, read, t) ==>
                  FollowsPage(cfg, read, l, t, p.next) && p.next.restarted == l.restarted)
            && (p.Again? && Expiry(cfg, read, t) ==>
                  !l.restarted && p.next == Restart(l, read).(events := p.next.events))
  {
    if t.reply.Page? {
      PageFrame(cfg, read, l, t);
      WalkFrame(cfg, l, l, t.reply.items);
    }
  }

  // Whether and with what result a step ends does not depend on the token and the history.
  lemma StepSame(cfg: Config, read: AuthorizedRead, l: Loop, m: Loop, t: Turn)
    requires m == l.(token := m.token, events := m.events)
    ensures var p, q := Step(cfg, read, l, t), Step(cfg, read, m, t);
            p.Done? == q.Done? && (p.Done? ==> p.result == q.result)
  {
    if t.reply.Page? {
      PageFrame(cfg, read, l, t);
      PageFrame(cfg, read, m, t);
      WalkFrame(cfg, l, m, t.reply.items);
    }
  }

  lemma ContinuesOn(cfg: Config, read: AuthorizedRead, l: Loop, next: Loop, ts: seq<Turn>)
    requires ts != [] && FollowsPage(cfg, read, l, ts[0], next)
    ensures Continues(cfg, read, l, ts) <==> Continues(cfg, read, next, ts[1..])
    ensures AfterPages(cfg, next, ts[1..]) ==
            AfterPages(cfg, l, ts).(token := next.token, restarted := next.restarted, events := next.events)
  {
    FirstPage(ts);
    var w := WalkPage(cfg, l, ts[0].reply.items);
    WalkConcat(cfg, l, ts[0].reply.items, PageItems(ts[1..]));
    WalkFrame(cfg, w.loop, next, PageItems(ts[1..]));
    hide WalkPage, PageItems, ValidRead;
    assert forall i :: 0 < i < |ts| ==> ts[i] == ts[1..][i - 1];
    assert forall i :: 0 <= i < |ts| - 1 ==> ts[i + 1] == ts[1..][i];
  }

  lemma WalkKeepsFlag(cfg: Config, l: Loop, items: seq<Item>)
    ensures WalkPage(cfg, l, items).loop.restarted == l.restarted
  {
    WalkFrame(cfg, l, l, items);
  }

  lemma PlainOn(cfg: Config, read: AuthorizedRead, l: Loop, next: Loop, ts: seq<Turn>, result: Result)
    requires ts != [] && FollowsPage(cfg, read, l, ts[0], next) && next.restarted == l.restarted
    ensures Plain(cfg, read, l, ts, result) <==> Plain(cfg, read, next, ts[1..], result)
  {
    var m := |ts| - 1;
    if m == 0 {
      assert ts[..0] == [];
      StepGoesOn(cfg, read, l, ts[0]);
    } else {
      ContinuesOn(cfg, read, l, next, ts[..m]);
      assert ts[..m][1..] == ts[1..][..m - 1] && ts[1..][m - 1] == ts[m];
      WalkKeepsFlag(cfg, l, PageItems(ts[..m]));
      hide Step, Continues, WalkPage, PageItems, FollowsPage;
      StepSame(cfg, read, AfterPages(cfg, l, ts[..m]), AfterPages(cfg, next, ts[..m][1..]), ts[m]);
    }
  }

  // Pages that continue begin with an accepted open page.
  lemma ContinuesFirst(cfg: Config, read: AuthorizedRead, l: Loop, ts: seq<Turn>)
    requires ts != [] && Continues(cfg, read, l, ts)
    ensures OpenPage(cfg, read, ts[0]) && WalkPage(cfg, l, ts[0].reply.items).stop == None
  {
    FirstPage(ts);
    WalkConcat(cfg, l, ts[0].reply.items, PageItems(ts[1..]));
  }

  // Unless the first turn is an accepted open page, nothing comes before the turn that ends.
  lemma PlainNow(cfg: Config, read: AuthorizedRead, l: Loop, ts: seq<Turn>, result: Result)
    requires ts != []
    requires !(OpenPage(cfg, read, ts[0]) && WalkPage(cfg, l, ts[0].reply.items).stop == None)
    ensures Plain(cfg, read, l, ts, result) <==>
            |ts| == 1 && Step(cfg, read, l, ts[0]).Done? && Step(cfg, read, l, ts[0]).result == result
    ensures forall n :: 0 < n <= |ts| ==> !Continues(cfg, read, l, ts[..n])
  {
    hide Step;
    var m := |ts| - 1;
    if m > 0 && Plain(cfg, read, l, ts, result) { ContinuesFirst(cfg, read, l, ts[..m]); }
    if m == 0 { assert ts[..0] == [] && Continues(cfg, read, l, []) && AfterPages(cfg, l, []) == l; }
    hide WalkPage, OpenPage, AfterPages;
    forall n | 0 < n <= |ts| ensures !Continues(cfg, read, l, ts[..n]) {
      if Continues(cfg, read, l, ts[..n]) { ContinuesFirst(cfg, read, l, ts[..n]); }
    }
  }

  lemma EndsOn(cfg: Config, read: AuthorizedRead, start: Budget, l: Loop, next: Loop, ts: seq<Turn>, result: Result)
    requires ts != [] && FollowsPage(cfg, read, l, ts[0], next) && next.restarted == l.restarted
    ensures EndsAs(cfg, read, start, l, ts, result) <==> EndsAs(cfg, read, start, next, ts[1..], result)
  {
    PlainOn(cfg, read, l, next, ts, result);
    assert !Expiry(cfg, read, ts[0]);
    hide Plain, Continues, Expiry, FollowsPage, RestartsAt;
    forall k | RestartsAt(cfg, read, start, l, ts, result, k)
      ensures RestartsAt(cfg, read, start, next, ts[1..], result, k - 1)
    {
      RestartsOn(cfg, read, start, l, next, ts, result, k);
    }
    forall k | RestartsAt(cfg, read, start, next, ts[1..], result, k)
      ensures RestartsAt(cfg, read, start, l, ts, result, k + 1)
    {
      RestartsBefore(cfg, read, start, l, next, ts, result, k + 1);
    }
  }

  lemma RestartsOn(cfg: Config, read: AuthorizedRead, start: Budget, l: Loop, next: Loop, ts: seq<Turn>,
                   result: Result, k: int)
    requires ts != [] && FollowsPage(cfg, read, l, ts[0], next) && !Expiry(cfg, read, ts[0])
    requires RestartsAt(cfg, read, start, l, ts, result, k)
    ensures RestartsAt(cfg, read, start, next, ts[1..], result, k - 1)
  {
    hide Plain, Continues, Expiry, FollowsPage;
    ContinuesOn(cfg, read, l, next, ts[..k - 1]);
    assert ts[..k - 1][1..] == ts[1..][..k - 2] && ts[k..] == ts[1..][k - 1..];
  }

  lemma RestartsBefore(cfg: Config, read: AuthorizedRead, start: Budget, l: Loop, next: Loop, ts: seq<Turn>,
                       result: Result, k: int)
    requires ts != [] && FollowsPage(cfg, read, l, ts[0], next)
    requires RestartsAt(cfg, read, start, next, ts[1..], result, k - 1)
    ensures RestartsAt(cfg, read, start, l, ts, result, k)
  {
    hide Plain, Continues, Expiry, FollowsPage;
    ContinuesOn(cfg, read, l, next, ts[..k - 1]);
    assert ts[..k - 1][1..] == ts[1..][..k - 2] && ts[k..] == ts[1..][k - 1..];
  }

  // A first turn that ends the reading is the only one.
  lemma EndsNow(cfg: Config, read: AuthorizedRead, start: Budget, l: Loop, ts: seq<Turn>, result: Result)
    requires ts != [] && Step(cfg, read, l, ts[0]).Done?
    ensures EndsAs(cfg, read, start, l, ts, result) <==> |ts| == 1 && Step(cfg, read, l, ts[0]).result == result
  {
    StepGoesOn(cfg, read, l, ts[0]);
    PlainNow(cfg, read, l, ts, result);
    hide Step, Plain, Continues, WalkPage;
  }

  // A first expiry starts the reading over.
  lemma EndsAnew(cfg: Config, read: AuthorizedRead, start: Budget, l: Loop, ts: seq<Turn>, result: Result)
    requires ts != [] && Expiry(cfg, read, ts[0]) && !l.restarted
    ensures EndsAs(cfg, read, start, l, ts, result) <==> Plain(cfg, read, Anew(start), ts[1..], result)
  {
    StepGoesOn(cfg, read, l, ts[0]);
    PlainNow(cfg, read, l, ts, result);
    assert ts[..0] == [] && Continues(cfg, read, l, []);
    hide Step, Plain, Continues, WalkPage;
    assert Plain(cfg, read, Anew(start), ts[1..], result) ==> RestartsAt(cfg, read, start, l, ts, result, 1);
  }

  // A loop that has started over goes on like one that has just begun, but not over again.
  lemma AnewPlain(cfg: Config, read: AuthorizedRead, start: Budget, next: Loop, ts: seq<Turn>, result: Result)
    requires next == Anew(start).(events := next.events)
    ensures EndsAs(cfg, read, start, next, ts, result) <==> Plain(cfg, read, Anew(start), ts, result)
  {
    if ts != [] {
      var before := ts[..|ts| - 1];
      WalkFrame(cfg, Anew(start), next, PageItems(before));
      hide WalkPage, PageItems, Step, AllOpen;
      StepSame(cfg, read, AfterPages(cfg, Anew(start), before), AfterPages(cfg, next, before), ts[|ts| - 1]);
    }
  }

  lemma {:induction false} RestSuffix(cfg: Config, read: AuthorizedRead, l: Loop, turns: seq<Turn>)
    ensures var r := ListFrom(cfg, read, l, turns);
            && |r.rest| <= |turns| && (turns != [] ==> |r.rest| < |turns|) && r.rest == turns[|turns| - |r.rest|..]
    decreases |turns|
  {
    if turns != [] {
      var p := Step(cfg, read, l, turns[0]);
      if p.Again? { RestSuffix(cfg, read, p.next, turns[1..]); }
    }
  }

  // The listing used the first n turns and ended with these items.

  // The listing used the first n turns and ended with this result.
  ghost predicate Used(r: Listing, turns: seq<Turn>, n: nat, result: Result) {
    n <= |turns| && r.result == result && r.rest == turns[n..]
  }

  lemma UsedOn(cfg: Config, read: AuthorizedRead, l: Loop, turns: seq<Turn>, n: nat, result: Result)
    requires 0 < n <= |turns| && Step(cfg, read, l, turns[0]).Again?
    ensures Used(ListFrom(cfg, read, l, turns), turns, n, result) <==>
            Used(ListFrom(cfg, read, Step(cfg, read, l, turns[0]).next, turns[1..]), turns[1..], n - 1, result)
  {
    UnfoldAgain(cfg, read, l, turns);
    assert turns[n..] == turns[1..][n - 1..];
    hide Step, ListFrom;
  }

  lemma UsedNow(cfg: Config, read: AuthorizedRead, l: Loop, turns: seq<Turn>, n: nat, result: Result)
    requires 0 < n <= |turns| && Step(cfg, read, l, turns[0]).Done?
    ensures Used(ListFrom(cfg, read, l, turns), turns, n, result) <==>
            n == 1 && Step(cfg, read, l, turns[0]).result == result
  {
    hide Step;
    assert |turns[n..]| == |turns| - n;
  }

  lemma NothingUsed(cfg: Config, read: AuthorizedRead, start: Budget, l: Loop, turns: seq<Turn>, result: Result)
    requires !result.Pending?
    ensures !Used(ListFrom(cfg, read, l, turns), turns, 0, result)
    ensures !EndsAs(cfg, read, start, l, turns[..0], result)
  {
    RestSuffix(cfg, read, l, turns);
    hide Step;
  }

  // From any point of a listing: it ends with this result, having used these turns, exactly when they end it so.
  lemma {:induction false} EndsExactly(cfg: Config, read: AuthorizedRead, start: Budget, l: Loop, turns: seq<Turn>,
                                       n: nat, result: Result)
    requires Kept(cfg, start, l) && Within(cfg, start) && n <= |turns| && !result.Pending?
    ensures Used(ListFrom(cfg, read, l, turns), turns, n, result) <==>
            EndsAs(cfg, read, start, l, turns[..n], result)
    decreases |turns|
  {
    hide Kept, Within, WalkPage, Step, ListFrom, Expiry, OpenPage, Used, EndsAs, FollowsPage, Plain;
    if n == 0 {
      NothingUsed(cfg, read, start, l, turns, result);
    } else {
      var t, ts := turns[0], turns[..n];
      assert ts[0] == t && ts[1..] == turns[1..][..n - 1];
      var p := Step(cfg, read, l, t);
      StepKeeps(cfg, read, start, l, t);
      StepGoesOn(cfg, read, l, t);
      if p.Done? {
        EndsNow(cfg, read, start, l, ts, result);
        UsedNow(cfg, read, l, turns, n, result);
      } else {
        UsedOn(cfg, read, l, turns, n, result);
        EndsExactly(cfg, read, start, p.next, turns[1..], n - 1, result);
        if Expiry(cfg, read, t) {
          RestartFresh(cfg, read, start, l);
          AnewPlain(cfg, read, start, p.next, ts[1..], result);
          EndsAnew(cfg, read, start, l, ts, result);
        } else {
          EndsOn(cfg, read, start, l, p.next, ts, result);
        }
      }
    }
  }

  /* ---------- what ends a listing ---------- */

  // Each page but the last says that another follows, and the last that none does.
  ghost predicate PagesTo(cfg: Config, read: AuthorizedRead, ts: seq<Turn>) {
    && ts != [] && AllOpen(cfg, read, ts[..|ts| - 1]) && LastPage(cfg, read, ts[|ts| - 1])
  }

  // Pages with acceptable objects, and every page says that another follows.
  ghost predicate PagesOn(cfg: Config, read: AuthorizedRead, start: Budget, ts: seq<Turn>) {
    AllOpen(cfg, read, ts) && Acceptable(cfg, start, PageItems(ts))
  }

  // The reason a failed list call gives.
  ghost predicate ErrorGives(cfg: Config, live: bool, e: ListError, reason: Reason) {
    if e.selection.Some? then e.selection.value == reason
    else
      var interrupted, unsupported := !live || e.interrupted, cfg.fieldSelector != "" && e.badRequest;
      || (interrupted && reason == ReadInterrupted)
      || (!interrupted && e.forbidden && reason == ReadForbidden)
      || (!interrupted && !e.forbidden && unsupported && reason == UnsupportedSelector)
      || (!interrupted && !e.forbidden && !unsupported && reason == ReadUnavailable)
  }

  // What is wrong with the answer to a request, given the objects read before and whether the listing has started over.
  ghost predicate AnswerStops(cfg: Config, start: Budget, before: seq<Item>, again: bool, t: Turn, reason: Reason) {
    match t.reply
    case NoResponse => reason == ReadUnavailable
    case Page(items, _) => Refuses(cfg, start, before, items, reason)
    case Failure(e) =>
      || (!t.liveAfter && reason == ReadInterrupted)
      || (t.liveAfter && e.expired && again && reason == ListExpired)
      || (t.liveAfter && !e.expired && ErrorGives(cfg, t.liveMapping, e, reason))
  }

  // The reason a turn stops the reading with: what keeps its request from being made, or what is wrong with the
  // answer.
  ghost predicate StopsWith(cfg: Config, read: AuthorizedRead, start: Budget, before: seq<Item>, again: bool, t: Turn,
                            reason: Reason)
  {
    || (!t.liveBefore && reason == ReadInterrupted)
    || (t.liveBefore && !ValidRead(read) && reason == AuthorizationMismatch)
    || (t.liveBefore && ValidRead(read) && !cfg.hasVerifier && reason == AuthorizationMissing)
    || (t.liveBefore && ValidRead(read) && cfg.hasVerifier && !t.current && reason == AuthorizationStale)
    || (Passes(cfg, read, t) && AnswerStops(cfg, start, before, again, t, reason))
  }

  lemma MappedError(cfg: Config, live: bool, e: ListError, reason: Reason)
    ensures MapListError(cfg, live, e) == reason <==> ErrorGives(cfg, live, e, reason)
  {
  }

  function Begun(start: Budget, again: bool): Loop { if again then Anew(start) else Fresh(start, []) }

  lemma PagesMean(cfg: Config, read: AuthorizedRead, start: Budget, again: bool, ts: seq<Turn>)
    requires Within(cfg, start)
    ensures Continues(cfg, read, Begun(start, again), ts) <==> PagesOn(cfg, read, start, ts)
  {
    hide Within, Acceptable, AllOpen, WalkPage, Walked;
    WalkExactly(cfg, Begun(start, again), PageItems(ts));
    hide PageItems;
  }

  function ItemsIn(t: Turn): seq<Item> { if t.reply.Page? then t.reply.items else [] }

  lemma PageStep(ts: seq<Turn>)
    requires ts != []
    ensures PageItems(ts) == ItemsIn(ts[0]) + PageItems(ts[1..])
  {
  }

  lemma {:induction false} LastItems(ts: seq<Turn>)
    requires ts != []
    ensures PageItems(ts) == PageItems(ts[..|ts| - 1]) + ItemsIn(ts[|ts| - 1])
    decreases |ts|
  {
    var m := |ts| - 1;
    PageStep(ts);
    if m == 0 {
      assert ts[..0] == [] && ts[1..] == [];
    } else {
      PageStep(ts[..m]);
      hide PageItems, ItemsIn;
      LastItems(ts[1..]);
      assert ts[1..][..m - 1] == ts[..m][1..] && ts[1..][m - 1] == ts[m];
    }
  }

  // A listing of these turns, in which only the last ends the reading, ends listed with these items exactly when the
  // turns are pages to the last one, the objects are acceptable, and the items are the new ones.
  lemma PlainListed(cfg: Config, read: AuthorizedRead, start: Budget, again: bool, ts: seq<Turn>, items: seq<Selected>)
    requires Within(cfg, start)
    ensures Plain(cfg, read, Begun(start, again), ts, Listed(items)) <==>
            PagesTo(cfg, read, ts) && Acceptable(cfg, start, PageItems(ts))
            && KeepsNew(cfg, start.seen, PageItems(ts), items)
  {
    if ts != [] {
      var m, l := |ts| - 1, Begun(start, again);
      LastItems(ts);
      StepLists(cfg, read, AfterPages(cfg, l, ts[..m]), ts[m], items);
      var from := PageItems(ts);
      hide Within, Acceptable, KeepsNew, Step, AllOpen, WalkPage, PageItems, Walked, OpenPage;
      WalkExactly(cfg, l, from);
      if ts[m].reply.Page? { WalkConcat(cfg, l, PageItems(ts[..m]), ts[m].reply.items); }
      var w := WalkPage(cfg, l, from);
      if w.stop == None {
        WalkedKeepsBegun(cfg, start, again, from, w.loop);
        if KeepsNew(cfg, start.seen, from, items) { KeptUnique(cfg, start.seen, from, items, w.loop.items); }
      }
    }
  }

  lemma WalkedKeepsBegun(cfg: Config, start: Budget, again: bool, from: seq<Item>, m: Loop)
    requires Walked(cfg, Begun(start, again), from, m)
    ensures KeepsNew(cfg, start.seen, from, m.items)
  {
    WalkedKeeps(cfg, start, from, m);
  }

  lemma StepLists(cfg: Config, read: AuthorizedRead, l: Loop, t: Turn, items: seq<Selected>)
    ensures var p := Step(cfg, read, l, t);
            p.Done? && p.result == Listed(items) <==>
            LastPage(cfg, read, t) && WalkPage(cfg, l, t.reply.items).stop == None
            && WalkPage(cfg, l, t.reply.items).loop.items == items
  {
    if t.reply.Page? { PageFrame(cfg, read, l, t); }
  }

  lemma StepFails(cfg: Config, read: AuthorizedRead, l: Loop, t: Turn, reason: Reason)
    ensures var p := Step(cfg, read, l, t);
            p.Done? && p.result == Failed(reason) <==>
            if !Passes(cfg, read, t) || !t.reply.Page? then StopsWith(cfg, read, l.budget, [], l.restarted, t, reason)
            else WalkPage(cfg, l, t.reply.items).stop == Some(reason)
  {
    if !Passes(cfg, read, t) {
      hide React, ValidRead, AnswerStops;
    } else {
      AnswerFails(cfg, read, l, t, reason);
      hide React, ValidRead, AnswerStops, WalkPage;
    }
  }

  lemma AnswerFails(cfg: Config, read: AuthorizedRead, l: Loop, t: Turn, reason: Reason)
    ensures var p := React(cfg, read, Log(l, [Checked(read, true), Issued(read, l.token)]), t);
            p.Done? && p.result == Failed(reason) <==>
            if t.reply.Page? then WalkPage(cfg, l, t.reply.items).stop == Some(reason)
            else AnswerStops(cfg, l.budget, [], l.restarted, t, reason)
  {
    if t.reply.Page? { PageFrame(cfg, read, l, t); }
    if t.reply.Failure? { MappedError(cfg, t.liveMapping, t.reply.error, reason); }
    hide WalkPage, Refuses, MapListError, ErrorGives, Restart;
  }

  // And fails with this reason exactly when it is what the last turn stops the reading with, after pages.
  lemma PlainFailed(cfg: Config, read: AuthorizedRead, start: Budget, again: bool, ts: seq<Turn>, reason: Reason)
    requires Within(cfg, start)
    ensures Plain(cfg, read, Begun(start, again), ts, Failed(reason)) <==>
            ts != [] && PagesOn(cfg, read, start, ts[..|ts| - 1])
            && StopsWith(cfg, read, start, PageItems(ts[..|ts| - 1]), again, ts[|ts| - 1], reason)
  {
    hide Within, Acceptable, Step, AllOpen, WalkPage, PageItems, Refuses, Continues, ValidRead, StopsWith, AnswerStops;
    if ts != [] {
      var m, l := |ts| - 1, Begun(start, again);
      var before := ts[..m];
      PagesMean(cfg, read, start, again, before);
      if PagesOn(cfg, read, start, before) {
        LastFails(cfg, read, l, PageItems(before), ts[m], reason);
        BegunBudget(start, again);
      }
    }
  }

  lemma BegunBudget(start: Budget, again: bool)
    ensures Begun(start, again).budget == start && Begun(start, again).restarted == again
  {
  }

  // The turn after these objects fails the reading exactly when it stops it with the reason.
  lemma LastFails(cfg: Config, read: AuthorizedRead, l: Loop, before: seq<Item>, t: Turn, reason: Reason)
    requires Within(cfg, l.budget) && Acceptable(cfg, l.budget, before)
    ensures var p := Step(cfg, read, WalkPage(cfg, l, before).loop, t);
            p.Done? && p.result == Failed(reason) <==>
            StopsWith(cfg, read, l.budget, before, l.restarted, t, reason)
  {
    hide Within, Acceptable, Step, WalkPage, Refuses, ValidRead, ErrorGives;
    var m := WalkPage(cfg, l, before).loop;
    StepFails(cfg, read, m, t, reason);
    WalkKeepsFlag(cfg, l, before);
    if t.reply.Page? { WalkRefuses(cfg, l, before, t.reply.items, reason); }
  }

  // The listing starts over at position k: at the beginning, or after pages and an expired continuation.
  ghost predicate StartsAt(cfg: Config, read: AuthorizedRead, start: Budget, turns: seq<Turn>, k: nat)
    requires k <= |turns|
  {
    k == 0 || (PagesOn(cfg, read, start, turns[..k - 1]) && Expiry(cfg, read, turns[k - 1]))
  }

  // From position k to n the turns are complete, and these are what they bring.
  ghost predicate Brings(cfg: Config, read: AuthorizedRead, start: Budget, turns: seq<Turn>, k: nat, n: nat,
                         items: seq<Selected>)
    requires k <= n <= |turns|
  {
    && PagesTo(cfg, read, turns[k..n]) && Acceptable(cfg, start, PageItems(turns[k..n]))
    && KeepsNew(cfg, start.seen, PageItems(turns[k..n]), items)
  }

  // From where the listing starts over, the first n turns are complete, and these are what they bring.
  ghost predicate ListedBy(cfg: Config, read: AuthorizedRead, start: Budget, turns: seq<Turn>, n: nat,
                           items: seq<Selected>)
    requires n <= |turns|
  {
    exists k :: 0 <= k <= n && StartsAt(cfg, read, start, turns, k) && Brings(cfg, read, start, turns, k, n, items)
  }

  // From where it starts over there are only pages before the last of the first n turns, and that stops the reading.
  ghost predicate FailedBy(cfg: Config, read: AuthorizedRead, start: Budget, turns: seq<Turn>, n: nat, reason: Reason)
    requires n <= |turns|
  {
    exists k :: 0 <= k < n && StartsAt(cfg, read, start, turns, k) && Fails(cfg, read, start, turns, k, n, reason)
  }

  ghost predicate Fails(cfg: Config, read: AuthorizedRead, start: Budget, turns: seq<Turn>, k: nat, n: nat,
                        reason: Reason)
    requires k < n <= |turns|
  {
    && PagesOn(cfg, read, start, turns[k..n - 1])
    && StopsWith(cfg, read, start, PageItems(turns[k..n - 1]), k > 0, turns[n - 1], reason)
  }

  lemma RestartMeans(cfg: Config, read: AuthorizedRead, start: Budget, turns: seq<Turn>, n: nat, result: Result, k: nat)
    requires Within(cfg, start) && 0 < k <= n <= |turns|
    ensures RestartsAt(cfg, read, start, Fresh(start, []), turns[..n], result, k) <==>
            StartsAt(cfg, read, start, turns, k) && Plain(cfg, read, Anew(start), turns[k..n], result)
  {
    PagesMean(cfg, read, start, false, turns[..k - 1]);
    hide Within, PagesOn, Continues, Plain, Expiry;
    assert turns[..n][..k - 1] == turns[..k - 1] && turns[..n][k..] == turns[k..n] && turns[..n][k - 1] == turns[k - 1];
  }

  // A target's listing ends with these items, having used the first n turns, exactly when from where it starts over
  // the turns are pages of which only the last says that none follows, their objects are acceptable, and the items
  // are exactly the new ones among them.
  lemma ListedExactly(cfg: Config, read: AuthorizedRead, start: Budget, turns: seq<Turn>, n: nat, items: seq<Selected>)
    requires Within(cfg, start) && n <= |turns|
    ensures var r := ListTarget(cfg, read, start, turns);
            (r.result == Listed(items) && r.rest == turns[n..]) <==> ListedBy(cfg, read, start, turns, n, items)
  {
    FreshKept(cfg, start);
    EndsExactly(cfg, read, start, Fresh(start, []), turns, n, Listed(items));
    hide Kept, Within, ListFrom, PagesTo, Acceptable, KeepsNew, Plain, RestartsAt, StartsAt;
    assert turns[0..n] == turns[..n];
    PlainListed(cfg, read, start, false, turns[..n], items);
    forall k | 0 < k <= n
      ensures RestartsAt(cfg, read, start, Fresh(start, []), turns[..n], Listed(items), k) <==>
              StartsAt(cfg, read, start, turns, k) && Brings(cfg, read, start, turns, k, n, items)
    {
      RestartMeans(cfg, read, start, turns, n, Listed(items), k);
      PlainListed(cfg, read, start, true, turns[k..n], items);
    }
    StartsFirst(cfg, read, start, turns);
    RestartsInside(cfg, read, start, turns[..n], Listed(items));
    assert Plain(cfg, read, Fresh(start, []), turns[..n], Listed(items)) <==>
           Brings(cfg, read, start, turns, 0, n, items);
  }

  lemma StartsFirst(cfg: Config, read: AuthorizedRead, start: Budget, turns: seq<Turn>)
    ensures StartsAt(cfg, read, start, turns, 0)
  {
  }

  lemma RestartsInside(cfg: Config, read: AuthorizedRead, start: Budget, ts: seq<Turn>, result: Result)
    ensures forall k :: RestartsAt(cfg, read, start, Fresh(start, []), ts, result, k) ==> 0 < k <= |ts|
  {
  }

  // And it fails with this reason, having used the first n turns, exactly when from where it starts over the turns are
  // pages with acceptable objects before the last, and the last stops the reading with the reason.
  lemma FailedExactly(cfg: Config, read: AuthorizedRead, start: Budget, turns: seq<Turn>, n: nat, reason: Reason)
    requires Within(cfg, start) && n <= |turns|
    ensures var r := ListTarget(cfg, read, start, turns);
            (r.result == Failed(reason) && r.rest == turns[n..]) <==> FailedBy(cfg, read, start, turns, n, reason)
  {
    FreshKept(cfg, start);
    EndsExactly(cfg, read, start, Fresh(start, []), turns, n, Failed(reason));
    hide Kept, Within, ListFrom, Plain, RestartsAt, StartsAt, Fails;
    assert turns[0..n] == turns[..n];
    forall k: nat | k <= n
      ensures RestartsAt(cfg, read, start, Fresh(start, []), turns[..n], Failed(reason), k) <==>
              0 < k < n && StartsAt(cfg, read, start, turns, k) && Fails(cfg, read, start, turns, k, n, reason)
      ensures k == 0 ==> (Plain(cfg, read, Fresh(start, []), turns[..n], Failed(reason)) <==>
                          n > 0 && Fails(cfg, read, start, turns, 0, n, reason))
    {
      FailsFrom(cfg, read, start, turns, n, reason, k);
    }
    StartsFirst(cfg, read, start, turns);
    RestartsInside(cfg, read, start, turns[..n], Failed(reason));
  }

  lemma FailsFrom(cfg: Config, read: AuthorizedRead, start: Budget, turns: seq<Turn>, n: nat, reason: Reason, k: nat)
    requires Within(cfg, start) && k <= n <= |turns|
    ensures RestartsAt(cfg, read, start, Fresh(start, []), turns[..n], Failed(reason), k) <==>
            0 < k < n && StartsAt(cfg, read, start, turns, k) && Fails(cfg, read, start, turns, k, n, reason)
    ensures k == 0 ==> (Plain(cfg, read, Fresh(start, []), turns[..n], Failed(reason)) <==>
                        n > 0 && Fails(cfg, read, start, turns, 0, n, reason))
  {
    hide Within, PagesOn, StopsWith, Plain, RestartsAt, StartsAt, PageItems, Fresh;
    RestartsInside(cfg, read, start, turns[..n], Failed(reason));
    assert turns[0..n] == turns[..n];
    if k == n {
      NothingPlain(cfg, read, Begun(start, k > 0), turns[k..n], Failed(reason));
    } else {
      PlainFailed(cfg, read, start, k > 0, turns[k..n], reason);
      assert turns[k..n][..n - k - 1] == turns[k..n - 1] && turns[k..n][n - k - 1] == turns[n - 1];
    }
    if k > 0 { RestartMeans(cfg, read, start, turns, n, Failed(reason), k); }
  }

  lemma NothingPlain(cfg: Config, read: AuthorizedRead, l: Loop, ts: seq<Turn>, result: Result)
    requires ts == []
    ensures !Plain(cfg, read, l, ts, result)
  {
  }

  /* ---------- what the requests ask for ---------- */

  // The continue tokens of the requests that were made, in order.
  function Requests(events: seq<Event>): seq<string> {
    if events == [] then []
    else
      var n := |events| - 1;
      Requests(events[..n]) + if events[n].Issued? then [events[n].token] else []
  }

  lemma {:induction false} RequestsConcat(a: seq<Event>, b: seq<Event>)
    ensures Requests(a + b) == Requests(a) + Requests(b)
  {
    if b == [] {
      assert a + b == a;
    } else {
      var n := |b| - 1;
      assert (a + b)[..|a + b| - 1] == a + b[..n];
      RequestsConcat(a, b[..n]);
    }
  }

  // The token the next request asks for: that of the page, or none after an expiry.
  function TokenAfter(t: Turn): string { if t.reply.Page? then t.reply.next else "" }

  function TokenAt(first: string, turns: seq<Turn>, j: nat): string
    requires j <= |turns|
  {
    if j == 0 then first else TokenAfter(turns[j - 1])
  }

  // Of the first n turns, the requests made: all of them, unless the last was stopped before its request.
  function Made(cfg: Config, read: AuthorizedRead, turns: seq<Turn>, n: nat): nat
    requires n <= |turns|
  {
    if n == 0 then 0 else if Passes(cfg, read, turns[n - 1]) then n else n - 1
  }

  lemma NoRequest(a: seq<Event>, e: Event)
    ensures Requests(a + [e]) == Requests(a) + if e.Issued? then [e.token] else []
  {
  }

  // What a step adds to the history, if anything, after its request.
  ghost predicate Adds(before: seq<Event>, after: seq<Event>) {
    after == before || exists e: Event :: !e.Issued? && after == before + [e]
  }

  lemma StepEvents(cfg: Config, read: AuthorizedRead, l: Loop, t: Turn)
    ensures var p := Step(cfg, read, l, t);
            && Adds(if Passes(cfg, read, t) then l.events + [Checked(read, true), Issued(read, l.token)] else l.events,
                    (if p.Again? then p.next else p.last).events)
            && (p.Again? ==> Passes(cfg, read, t) && p.next.token == TokenAfter(t))
  {
    if t.reply.Page? { PageFrame(cfg, read, l, t); }
  }

  lemma StepRequests(cfg: Config, read: AuthorizedRead, l: Loop, t: Turn)
    ensures var p := Step(cfg, read, l, t);
            && Requests((if p.Again? then p.next else p.last).events)
               == Requests(l.events) + (if Passes(cfg, read, t) then [l.token] else [])
            && (p.Again? ==> Passes(cfg, read, t) && p.next.token == TokenAfter(t))
  {
    StepEvents(cfg, read, l, t);
    hide Step, Requests, Passes;
    var p := Step(cfg, read, l, t);
    var before := if Passes(cfg, read, t) then l.events + [Checked(read, true), Issued(read, l.token)] else l.events;
    var after := (if p.Again? then p.next else p.last).events;
    NoRequest(l.events, Checked(read, true));
    NoRequest(l.events + [Checked(read, true)], Issued(read, l.token));
    assert l.events + [Checked(read, true), Issued(read, l.token)]
        == l.events + [Checked(read, true)] + [Issued(read, l.token)];
    if after != before {
      var e: Event :| !e.Issued? && after == before + [e];
      NoRequest(before, e);
    }
  }

  // On top of the earlier requests, those of the first m turns, of which the first asks with this token.
  ghost predicate Asks(before: seq<string>, first: string, turns: seq<Turn>, m: nat, after: seq<string>)
    requires m <= |turns|
  {
    && |after| == |before| + m && after[..|before|] == before
    && forall j :: 0 <= j < m ==> after[|before| + j] == TokenAt(first, turns, j)
  }

  lemma AsksOn(before: seq<string>, first: string, turns: seq<Turn>, m: nat, after: seq<string>)
    requires 0 < m <= |turns| && Asks(before + [first], TokenAfter(turns[0]), turns[1..], m - 1, after)
    ensures Asks(before, first, turns, m, after)
  {
    hide TokenAfter;
    assert after[..|before|] == after[..|before| + 1][..|before|];
    assert after[|before|] == after[..|before| + 1][|before|];
    forall j | 0 < j < m ensures after[|before| + j] == TokenAt(first, turns, j) {
      assert after[|before| + 1 + (j - 1)] == TokenAt(TokenAfter(turns[0]), turns[1..], j - 1);
    }
  }

  // Each request asks for the page after the one before it, and for the first page at the start and after an expiry.
  lemma {:induction false} TokensFollow(cfg: Config, read: AuthorizedRead, l: Loop, turns: seq<Turn>)
    ensures var r := ListFrom(cfg, read, l, turns);
            && |r.rest| <= |turns| && r.rest == turns[|turns| - |r.rest|..]
            && Asks(Requests(l.events), l.token, turns, Made(cfg, read, turns, |turns| - |r.rest|), Requests(r.events))
    decreases |turns|
  {
    hide Step, Passes, Requests, TokenAfter, Asks;
    RestSuffix(cfg, read, l, turns);
    if turns == [] {
      NothingAsked(Requests(l.events), l.token, turns);
    } else {
      StepRequests(cfg, read, l, turns[0]);
      var p := Step(cfg, read, l, turns[0]);
      var r := ListFrom(cfg, read, l, turns);
      var n := |turns| - |r.rest|;
      if p.Again? {
        UnfoldAgain(cfg, read, l, turns);
        TokensFollow(cfg, read, p.next, turns[1..]);
        hide ListFrom;
        MadeOn(cfg, read, turns, n);
        AsksOn(Requests(l.events), l.token, turns, Made(cfg, read, turns, n), Requests(r.events));
      } else {
        NothingAsked(Requests(l.events), l.token, turns);
        assert n == 1;
        assert Requests(l.events) + [] == Requests(l.events);
      }
    }
  }

  lemma MadeOn(cfg: Config, read: AuthorizedRead, turns: seq<Turn>, n: nat)
    requires 0 < n <= |turns| && Passes(cfg, read, turns[0])
    ensures Made(cfg, read, turns, n) == Made(cfg, read, turns[1..], n - 1) + 1
  {
    hide Passes;
    if n > 1 { assert turns[n - 1] == turns[1..][n - 2]; }
  }

  // A listing goes on only with requests that are made: every turn it used but the last makes its own.
  lemma {:induction false} EarlierPass(cfg: Config, read: AuthorizedRead, l: Loop, turns: seq<Turn>, j: nat)
    requires j < |turns| - |ListFrom(cfg, read, l, turns).rest| - 1
    ensures Passes(cfg, read, turns[j])
    decreases j
  {
    StepRequests(cfg, read, l, turns[0]);
    hide Step;
    var p := Step(cfg, read, l, turns[0]);
    if p.Again? && j > 0 { EarlierPass(cfg, read, p.next, turns[1..], j - 1); }
  }

  lemma NothingAsked(before: seq<string>, first: string, turns: seq<Turn>)
    ensures Asks(before, first, turns, 0, before) && (turns != [] ==> Asks(before, first, turns, 1, before + [first]))
  {
  }

  /* ---------- refusals ---------- */

  // The request is made and forbidden.
  predicate RefusedTurn(cfg: Config, read: AuthorizedRead, t: Turn) {
    Passes(cfg, read, t) && t.reply.Failure? && t.liveAfter && !t.reply.error.expired && t.reply.error.forbidden
  }

  lemma StepRefusal(cfg: Config, read: AuthorizedRead, l: Loop, t: Turn)
    ensures var p := Step(cfg, read, l, t);
            && (RecordedForbidden(read) in (if p.Again? then p.next else p.last).events <==>
                RecordedForbidden(read) in l.events || RefusedTurn(cfg, read, t))
            && (RefusedTurn(cfg, read, t) ==> p.Done?)
  {
    if t.reply.Page? { PageFrame(cfg, read, l, t); }
    hide WalkPage, ValidRead, MapListError, Restart;
  }

  // A refusal is recorded exactly when the last turn used was a request that was forbidden.
  lemma {:induction false} RefusalRecorded(cfg: Config, read: AuthorizedRead, l: Loop, turns: seq<Turn>)
    requires RecordedForbidden(read) !in l.events
    ensures var r := ListFrom(cfg, read, l, turns);
            && |r.rest| <= |turns|
            && (RecordedForbidden(read) in r.events <==>
                |r.rest| < |turns| && RefusedTurn(cfg, read, turns[|turns| - |r.rest| - 1]))
    decreases |turns|
  {
    hide Step, RefusedTurn;
    RestSuffix(cfg, read, l, turns);
    if turns != [] {
      StepRefusal(cfg, read, l, turns[0]);
      var p := Step(cfg, read, l, turns[0]);
      if p.Again? {
        RefusalRecorded(cfg, read, p.next, turns[1..]);
        var n := |turns| - |ListFrom(cfg, read, p.next, turns[1..]).rest|;
        if n > 1 { assert turns[n - 1] == turns[1..][n - 2]; }
      }
    }
  }
}
