/**
 Every interleaving of Enqueue callers, enqueue-all requesters, the drain loop, Start and the enqueue-all
 workers. A step is one critical section, one channel operation, one queue addition or one listing outcome;
 cancellation is not modelled. Each step appends one event, so log positions are logical times.
 */
module TriggerRuns {
  import opened Bags
  import opened Common
  import opened Sorting
  import opened TriggerIngress

  datatype Event =
    | Triggered(key: NamespacedName)     // Enqueue accepted this trigger
    | Added(key: NamespacedName)         // the drain loop added this key to the queue
    | AllRequested                       // an enqueue-all request was recorded
    | ListBegan
    | ListSucceeded(began: nat)          // of the listing that began at that position
    | Other

  datatype Drain =
    | Waiting                                              // blocked on the wake channel
    | Woken                                                // token received, lock not yet taken
    | Adding(keys: seq<NamespacedName>, recover: bool)     // batch taken
    | Calling(launch: bool)                                // inside its own enqueue-all request

  datatype Worker = Polling | Listing(began: nat) | Retrying

  datatype Starting =
    | Unstarted
    | Started(before: bool)     // past the critical section, which read the request flag
    | Draining(before: bool)    // the drain loop runs
    | Asking(before: bool)      // the enqueue-all is requested
    | Launching
    | Complete
    | Aborted

  // `requesters` maps each RequestEnqueueAll call past its critical section to the started flag it read.
  datatype System = System(
    s: Source, log: seq<Event>, drain: Drain, requesters: map<nat, bool>, workers: map<nat, Worker>, starting: Starting)

  datatype DrainStep =
    | Wake
    | Take(keys: seq<NamespacedName>)
    | Add
    | EndBatch
    | DrainLaunch(w: nat)

  datatype IntentStep =
    | Request(c: nat)
    | Launch(c: nat, w: nat)
    | Start
    | StartFails
    | StartDrains
    | StartRequests
    | StartLaunches(w: nat)
    | StartLaunchesAgain(w: nat)
    | Work(o: WorkerStep)

  datatype WorkerStep =
    | Poll(w: nat)
    | ListOk(w: nat)
    | ListFails(w: nat)
    | Retry(w: nat)

  datatype Step = Trigger(key: NamespacedName) | Drainer(d: DrainStep) | Intents(o: IntentStep)

  function Logged(x: System, e: Event): (y: System)
    ensures |y.log| == |x.log| + 1 && y.log[|x.log|] == e && y.log == x.log + [y.log[|x.log|]]
  {
    x.(log := x.log + [e])
  }

  // startEnqueueWorker: at most one goroutine is spawned, under a fresh identity.
  function Spawned(x: System, launch: bool, w: nat): (y: System)
    ensures |y.log| == |x.log| + 1 && y.log[|x.log|] == Other && y.log == x.log + [y.log[|x.log|]]
    ensures y.drain == x.drain && y.s == x.s.(running := y.s.running)
  {
    if !launch then Logged(x, Other)
    else
      var (t, spawn) := Launched(x.s);
      Logged(x.(s := t, workers := if spawn then x.workers[w := Polling] else x.workers), Other)
  }

  predicate DrainRuns(x: System) {
    x.starting.Draining? || x.starting.Asking? || x.starting.Launching? || x.starting.Complete?
  }

  ghost predicate DrainNext(x: System, step: DrainStep, y: System) {
    match step
    case Wake =>
      DrainRuns(x) && x.drain.Waiting? && x.s.token
          && y == Logged(x.(drain := Woken, s := x.s.(token := false)), Other)
    case Take(keys) =>
      && x.drain.Woken? && Batch(keys, x.s.pending)
      && y == Logged(x.(s := Taken(x.s), drain := Adding(keys, x.s.overloaded)), Other)
    case Add =>
      && x.drain.Adding? && x.drain.keys != []
      && y == Logged(x.(drain := x.drain.(keys := x.drain.keys[1..])), Added(x.drain.keys[0]))
    case EndBatch =>
      && x.drain.Adding? && x.drain.keys == []
      && y == if x.drain.recover then Logged(x.(s := Requested(x.s), drain := Calling(x.s.started)), AllRequested)
              else Logged(x.(drain := Waiting), Other)
    case DrainLaunch(w) =>
      && x.drain.Calling? && w !in x.workers
      && y == Spawned(x, x.drain.launch, w).(drain := Waiting)
  }

  ghost predicate IntentNext(x: System, step: IntentStep, y: System) {
    match step
    case Request(c) =>
      c !in x.requesters
          && y == Logged(x.(s := Requested(x.s), requesters := x.requesters[c := x.s.started]), AllRequested)
    case Launch(c, w) =>
      && c in x.requesters && w !in x.workers
      && y == Spawned(x, x.requesters[c], w).(requesters := x.requesters - {c})
    case Start => x.starting.Unstarted?
        && y == Logged(x.(s := Begun(x.s), starting := Started(x.s.requested)), Other)
    case StartFails => x.starting.Started? && y == Logged(x.(starting := Aborted), Other)
    case StartDrains => x.starting.Started? && y == Logged(x.(starting := Draining(x.starting.before)), Other)
    case StartRequests =>
      x.starting.Draining? && y == Logged(x.(s := Requested(x.s), starting := Asking(x.starting.before)), AllRequested)
    case StartLaunches(w) =>
      && x.starting.Asking? && w !in x.workers
      && y == Spawned(x, true, w).(starting := if x.starting.before then Launching else Complete)
    case StartLaunchesAgain(w) =>
      x.starting.Launching? && w !in x.workers && y == Spawned(x, true, w).(starting := Complete)
    case Work(o) => WorkNext(x, o, y)
  }

  ghost predicate WorkNext(x: System, step: WorkerStep, y: System) {
    match step
    case Poll(w) =>
      && w in x.workers && x.workers[w].Polling?
      && var (t, serve) := Polled(x.s);
         y == Logged(x.(s := t, workers := if serve then x.workers[w := Listing(|x.log|)] else x.workers - {w}),
                     if serve then ListBegan else Other)
    case ListOk(w) =>
      && w in x.workers && x.workers[w].Listing?
      && y == Logged(x.(workers := x.workers[w := Polling]), ListSucceeded(x.workers[w].began))
    case ListFails(w) =>
      w in x.workers && x.workers[w].Listing? && y == Logged(x.(workers := x.workers[w := Retrying]), Other)
    case Retry(w) =>
      w in x.workers && x.workers[w].Retrying?
          && y == Logged(x.(s := Requested(x.s), workers := x.workers[w := Polling]), Other)
  }

  ghost predicate TriggerNext(x: System, key: NamespacedName, y: System) {
    y == Logged(x.(s := Enqueued(x.s, key)), if key.name == "" then Other else Triggered(key))
  }

  ghost predicate Next(x: System, step: Step, y: System) {
    match step
    case Trigger(key) => TriggerNext(x, key, y)
    case Drainer(d) => DrainNext(x, d, y)
    case Intents(o) => IntentNext(x, o, y)
  }

  ghost predicate IsRun(run: seq<System>, steps: seq<Step>) {
    && |run| == |steps| + 1
    && run[0]
         == System(Source({}, run[0].s.capacity, false, false, false, false, false), [], Waiting, map[], map[],
             Unstarted)
    && forall i :: 0 <= i < |steps| ==> Next(run[i], steps[i], run[i + 1])
  }

  /* ---------- the ingress ---------- */

  // The setting is unchanged, or replaced by what it stands for.
  predicate SameRoom(before: int, after: int) { after == before || after == Room(before) }

  ghost predicate IngressInv(x: System) {
    && |x.s.pending| <= Room(x.s.capacity)
    && (x.s.pending != {} || x.s.overloaded ==> x.s.token || x.drain.Woken?)
    && (x.drain.Adding? ==> |x.drain.keys| <= Room(x.s.capacity))
  }

  // The trigger logged at position i has since been added to the queue, or an enqueue-all request followed it.
  ghost predicate Served(log: seq<Event>, i: nat)
    requires i < |log| && log[i].Triggered?
  {
    exists j :: i < j < |log| && (log[j] == Added(log[i].key) || log[j] == AllRequested)
  }

  // The trigger is still in the ingress, or in the batch the drain loop has taken.
  ghost predicate InBatch(x: System, key: NamespacedName) {
    x.drain.Adding? && (key in x.drain.keys || x.drain.recover)
  }

  ghost predicate Held(x: System, key: NamespacedName) {
    key in x.s.pending || x.s.overloaded
  }

  ghost predicate TriggersKept(x: System) {
    forall i :: 0 <= i < |x.log| && x.log[i].Triggered? ==>
      Served(x.log, i) || Held(x, x.log[i].key) || InBatch(x, x.log[i].key)
  }

  lemma BatchSize(l: seq<NamespacedName>, s: set<NamespacedName>)
    requires Enumerates(l, s)
    ensures |l| == |s|
  {
    DifferentSize(l);
    assert Elements(l) == s;
  }

  // Steps of requesters, Start and workers leave the ingress alone.
  lemma WorkFrame(x: System, o: WorkerStep, y: System)
    requires WorkNext(x, o, y)
    ensures y.drain == x.drain && y.s == x.s.(requested := y.s.requested, running := y.s.running)
    ensures |y.log| == |x.log| + 1 && y.log == x.log + [y.log[|x.log|]] && !y.log[|x.log|].Triggered?
        && y.log[|x.log|] != AllRequested
    ensures y.requesters == x.requesters && y.starting == x.starting
  {
  }

  lemma IntentFrame(x: System, o: IntentStep, y: System)
    requires IntentNext(x, o, y)
    ensures y.drain == x.drain
        && y.s == x.s.(requested := y.s.requested, started := y.s.started, running := y.s.running,
                       capacity := y.s.capacity) && SameRoom(x.s.capacity, y.s.capacity)
    ensures |y.log| == |x.log| + 1 && y.log == x.log + [y.log[|x.log|]] && !y.log[|x.log|].Triggered?
    ensures y.log[|x.log|] == AllRequested ==> y.s.requested
  {
    hide WorkNext;
    if o.Work? { WorkFrame(x, o.o, y); }
  }

  lemma TriggerFrame(x: System, key: NamespacedName, y: System)
    requires IngressInv(x) && TriggerNext(x, key, y)
    ensures y.drain == x.drain && x.s.pending <= y.s.pending && (x.s.overloaded ==> y.s.overloaded)
    ensures SameRoom(x.s.capacity, y.s.capacity) && (x.s.token ==> y.s.token) && IngressInv(y)
    ensures y.log == x.log + [y.log[|x.log|]] && (y.log[|x.log|] == Other || y.log[|x.log|] == Triggered(key))
    ensures y.log[|x.log|].Triggered? ==> Held(y, key)
    ensures y.requesters == x.requesters && y.workers == x.workers && y.starting == x.starting
    ensures y.s.requested == x.s.requested && y.s.started == x.s.started && y.s.running == x.s.running
  {
  }

  lemma DrainFrame(x: System, d: DrainStep, y: System)
    requires DrainNext(x, d, y)
    ensures |y.log| == |x.log| + 1 && y.log == x.log + [y.log[|x.log|]] && !y.log[|x.log|].Triggered?
    ensures y.log[|x.log|] == AllRequested ==> y.s.requested
    ensures SameRoom(x.s.capacity, y.s.capacity)
  {
  }

  lemma DrainIngress(x: System, d: DrainStep, y: System)
    requires IngressInv(x) && DrainNext(x, d, y)
    ensures IngressInv(y)
  {
    if d.Take? { BatchSize(d.keys, x.s.pending); }
  }

  // Every step appends one event.
  lemma StepLog(x: System, step: Step, y: System)
    requires IngressInv(x) && Next(x, step, y)
    ensures |y.log| == |x.log| + 1 && y.log == x.log + [y.log[|x.log|]] && SameRoom(x.s.capacity, y.s.capacity)
    ensures y.log[|x.log|] == AllRequested ==> y.s.requested
  {
    match step
    case Trigger(key) => TriggerFrame(x, key, y);
    case Drainer(d) => DrainFrame(x, d, y);
    case Intents(o) => IntentFrame(x, o, y);
  }

  lemma IngressKeeps(x: System, step: Step, y: System)
    requires IngressInv(x) && Next(x, step, y)
    ensures IngressInv(y)
  {
    match step
    case Trigger(key) => TriggerFrame(x, key, y);
    case Drainer(d) => DrainIngress(x, d, y);
    case Intents(o) => IntentFrame(x, o, y);
  }

  lemma ServedGrows(log: seq<Event>, e: Event, i: nat)
    requires i < |log| && log[i].Triggered?
    ensures Served(log, i) ==> Served(log + [e], i)
    ensures e == Added(log[i].key) || e == AllRequested ==> Served(log + [e], i)
  {
    if Served(log, i) {
      var j :| i < j < |log| && (log[j] == Added(log[i].key) || log[j] == AllRequested);
      assert (log + [e])[j] == log[j];
    }
    assert (log + [e])[|log|] == e;
  }

  lemma TriggerKept(x: System, step: Step, y: System, i: nat)
    requires IngressInv(x) && TriggersKept(x) && Next(x, step, y)
    requires i < |y.log| && y.log[i].Triggered?
    ensures Served(y.log, i) || Held(y, y.log[i].key) || InBatch(y, y.log[i].key)
  {
    match step {
      case Trigger(key) => TriggerFrame(x, key, y);
      case Drainer(d) => DrainFrame(x, d, y);
      case Intents(o) => IntentFrame(x, o, y);
    }
    if i < |x.log| {
      ServedGrows(x.log, y.log[|x.log|], i);
    }
  }

  /* ---------- the enqueue-all worker ---------- */

  ghost predicate OneWorker(x: System) {
    && (forall v, w :: v in x.workers && w in x.workers ==> v == w)
    && (x.s.running <==> x.workers != map[])
  }

  ghost predicate ListingsLogged(x: System) {
    forall w :: w in x.workers && x.workers[w].Listing? ==> x.workers[w].began < |x.log|
  }

  // A listing that began after the request at position r has succeeded.
  ghost predicate Answered(log: seq<Event>, r: nat) {
    exists j :: 0 <= j < |log| && log[j].ListSucceeded? && r < log[j].began
  }

  ghost predicate BeingAnswered(x: System, r: nat) {
    || x.s.requested
    || exists w :: w in x.workers && Answering(x.workers[w], r)
  }

  ghost predicate RequestsKept(x: System) {
    forall r :: 0 <= r < |x.log| && x.log[r] == AllRequested ==> Answered(x.log, r) || BeingAnswered(x, r)
  }

  // Someone is about to call startEnqueueWorker.
  ghost predicate LaunchDue(x: System) {
    || (x.drain.Calling? && x.drain.launch)
    || (exists c :: c in x.requesters && x.requesters[c])
    || x.starting.Started? || x.starting.Draining? || x.starting.Asking?
  }

  ghost predicate WorkerDue(x: System) {
    && (x.s.started <==> !x.starting.Unstarted?)
    && (x.s.requested && x.s.started && !x.starting.Aborted? ==> x.workers != map[] || LaunchDue(x))
  }

  ghost predicate Inv(x: System) {
    IngressInv(x) && TriggersKept(x) && OneWorker(x) && ListingsLogged(x) && RequestsKept(x) && WorkerDue(x)
  }

  lemma WorkWorkers(x: System, o: WorkerStep, y: System)
    requires OneWorker(x) && ListingsLogged(x) && WorkNext(x, o, y)
    ensures OneWorker(y) && ListingsLogged(y)
  {
  }

  lemma IntentWorkers(x: System, o: IntentStep, y: System)
    requires OneWorker(x) && ListingsLogged(x) && IntentNext(x, o, y)
    ensures OneWorker(y) && ListingsLogged(y)
  {
    hide WorkNext;
    if o.Work? { WorkWorkers(x, o.o, y); }
  }

  lemma DrainWorkers(x: System, d: DrainStep, y: System)
    requires OneWorker(x) && ListingsLogged(x) && DrainNext(x, d, y)
    ensures OneWorker(y) && ListingsLogged(y)
  {
  }

  lemma WorkersKeep(x: System, step: Step, y: System)
    requires IngressInv(x) && OneWorker(x) && ListingsLogged(x) && Next(x, step, y)
    ensures OneWorker(y) && ListingsLogged(y)
  {
    match step {
      case Trigger(key) => TriggerFrame(x, key, y);
      case Drainer(d) => DrainWorkers(x, d, y);
      case Intents(o) => IntentWorkers(x, o, y);
    }
  }

  // Who is answering a request at position r, and whether it is answered, survive a step of anyone else.
  lemma RequestKept(x: System, step: Step, y: System, r: nat)
    requires IngressInv(x) && OneWorker(x) && ListingsLogged(x) && RequestsKept(x) && Next(x, step, y)
    requires r < |y.log| && y.log[r] == AllRequested
    ensures Answered(y.log, r) || BeingAnswered(y, r)
  {
    hide Next;
    StepLog(x, step, y);
    if r < |x.log| && Answered(x.log, r) {
      var j :| 0 <= j < |x.log| && x.log[j].ListSucceeded? && r < x.log[j].began;
      assert y.log[j] == x.log[j];
    } else if r < |x.log| && !y.s.requested {
      RequestHandedOn(x, step, y, r);
    }
  }

  ghost predicate Answering(worker: Worker, r: nat) {
    worker.Retrying? || (worker.Listing? && r < worker.began)
  }

  lemma RequestHandedOn(x: System, step: Step, y: System, r: nat)
    requires r < |x.log| && BeingAnswered(x, r) && !y.s.requested
    requires IngressInv(x) && OneWorker(x) && Next(x, step, y)
    ensures Answered(y.log, r) || BeingAnswered(y, r)
  {
    match step {
      case Trigger(key) => TriggerFrame(x, key, y);
      case Drainer(d) => DrainHandsOn(x, d, y, r);
      case Intents(o) => IntentHandsOn(x, o, y, r);
    }
  }

  lemma DrainHandsOn(x: System, d: DrainStep, y: System, r: nat)
    requires r < |x.log| && BeingAnswered(x, r) && !y.s.requested && OneWorker(x) && DrainNext(x, d, y)
    ensures BeingAnswered(y, r)
  {
    var w :| w in x.workers && Answering(x.workers[w], r);
    assert w in y.workers && y.workers[w] == x.workers[w];
  }

  lemma IntentHandsOn(x: System, o: IntentStep, y: System, r: nat)
    requires r < |x.log| && BeingAnswered(x, r) && !y.s.requested && OneWorker(x) && IntentNext(x, o, y)
    ensures Answered(y.log, r) || BeingAnswered(y, r)
  {
    hide WorkNext;
    if o.Work? {
      WorkHandsOn(x, o.o, y, r);
    } else {
      var w :| w in x.workers && Answering(x.workers[w], r);
      assert w in y.workers && y.workers[w] == x.workers[w];
    }
  }

  lemma WorkHandsOn(x: System, o: WorkerStep, y: System, r: nat)
    requires r < |x.log| && BeingAnswered(x, r) && !y.s.requested && OneWorker(x) && WorkNext(x, o, y)
    ensures Answered(y.log, r) || BeingAnswered(y, r)
  {
    if x.s.requested {
      assert o.Poll? && y.workers[o.w] == Listing(|x.log|);
    } else {
      var w :| w in x.workers && Answering(x.workers[w], r);
      if o.ListOk? {
        assert y.log[|x.log|] == ListSucceeded(x.workers[w].began);
      } else {
        assert w in y.workers;
      }
    }
  }

  lemma DueKeeps(x: System, step: Step, y: System)
    requires IngressInv(x) && OneWorker(x) && WorkerDue(x) && Next(x, step, y)
    ensures WorkerDue(y)
  {
    match step {
      case Trigger(key) => TriggerFrame(x, key, y);
      case Drainer(d) => DueKeepsDrain(x, d, y);
      case Intents(o) => DueKeepsIntent(x, o, y);
    }
  }

  lemma DueKeepsDrain(x: System, d: DrainStep, y: System)
    requires OneWorker(x) && WorkerDue(x) && DrainNext(x, d, y)
    ensures WorkerDue(y)
  {
  }

  lemma WorkDue(x: System, o: WorkerStep, y: System)
    requires OneWorker(x) && WorkerDue(x) && WorkNext(x, o, y)
    ensures WorkerDue(y)
  {
  }

  lemma DueKeepsIntent(x: System, o: IntentStep, y: System)
    requires OneWorker(x) && WorkerDue(x) && IntentNext(x, o, y)
    ensures WorkerDue(y)
  {
    hide WorkNext;
    match o
    case Work(p) => WorkDue(x, p, y);
    case Launch(c, w) =>
      if !x.requesters[c] && exists d :: d in x.requesters && x.requesters[d] {
        var d :| d in x.requesters && x.requesters[d];
        assert d in y.requesters && y.requesters[d];
      }
    case Request(c) => assert c in y.requesters && y.requesters[c] == x.s.started;
    case _ =>
  }

  lemma {:induction false} RunInvariant(run: seq<System>, steps: seq<Step>, n: nat)
    requires IsRun(run, steps) && n < |run|
    ensures Inv(run[n])
  {
    hide Next;
    if n > 0 {
      RunInvariant(run, steps, n - 1);
      NextKeeps(run[n - 1], steps[n - 1], run[n]);
    }
  }

  lemma NextKeeps(x: System, step: Step, y: System)
    requires Inv(x) && Next(x, step, y)
    ensures Inv(y)
  {
    hide IngressInv, OneWorker, ListingsLogged, WorkerDue, Next;
    IngressKeeps(x, step, y);
    WorkersKeep(x, step, y);
    DueKeeps(x, step, y);
    forall i: nat | i < |y.log| && y.log[i].Triggered?
      ensures Served(y.log, i) || Held(y, y.log[i].key) || InBatch(y, y.log[i].key)
    {
      TriggerKept(x, step, y, i);
    }
    forall r: nat | r < |y.log| && y.log[r] == AllRequested ensures Answered(y.log, r) || BeingAnswered(y, r) {
      RequestKept(x, step, y, r);
    }
  }

  /* ---------- the theorems ---------- */

  // Pending work always has a wake-up on its way, and the pending set never exceeds its capacity.
  lemma WakeNeverLost(run: seq<System>, steps: seq<Step>, n: nat)
    requires IsRun(run, steps) && n < |run|
    ensures run[n].s.pending != {} || run[n].s.overloaded ==> run[n].s.token || run[n].drain.Woken?
    ensures |run[n].s.pending| <= Room(run[0].s.capacity) && SameRoom(run[0].s.capacity, run[n].s.capacity)
  {
    RunInvariant(run, steps, n);
    CapacityFixed(run, steps, n);
  }

  lemma {:induction false} CapacityFixed(run: seq<System>, steps: seq<Step>, n: nat)
    requires IsRun(run, steps) && n < |run|
    ensures SameRoom(run[0].s.capacity, run[n].s.capacity)
  {
    hide Next;
    if n > 0 {
      CapacityFixed(run, steps, n - 1);
      RunInvariant(run, steps, n - 1);
      StepLog(run[n - 1], steps[n - 1], run[n]);
    }
  }

  // How many more steps of the drain loop a trigger that is not served yet can need.
  ghost function Remaining(x: System, key: NamespacedName): nat
  {
    if InBatch(x, key) then |x.drain.keys| + 1
    else match x.drain
      case Woken => Room(x.s.capacity) + 2
      case Waiting => Room(x.s.capacity) + 3
      case Calling(_) => Room(x.s.capacity) + 4
      case Adding(keys, _) => |keys| + Room(x.s.capacity) + 5
  }

  lemma RemainingStep(x: System, step: Step, y: System, i: nat)
    requires i < |x.log| && x.log[i].Triggered? && i < |y.log| && y.log[i].Triggered? && !Served(y.log, i)
    requires IngressInv(x) && TriggersKept(x) && Next(x, step, y)
    ensures y.log[i] == x.log[i] && !Served(x.log, i)
    ensures Remaining(y, x.log[i].key) + (if step.Drainer? then 1 else 0) <= Remaining(x, x.log[i].key)
  {
    StepLog(x, step, y);
    ServedGrows(x.log, y.log[|x.log|], i);
    match step {
      case Trigger(key) => TriggerFrame(x, key, y);
      case Drainer(d) => DrainRemaining(x, d, y, i);
      case Intents(o) => IntentFrame(x, o, y);
    }
  }

  lemma DrainRemaining(x: System, d: DrainStep, y: System, i: nat)
    requires i < |x.log| && x.log[i].Triggered? && i < |y.log| && y.log[i] == x.log[i] && !Served(y.log, i)
        && !Served(x.log, i)
    requires IngressInv(x) && TriggersKept(x) && DrainNext(x, d, y)
    ensures Remaining(y, x.log[i].key) + 1 <= Remaining(x, x.log[i].key)
  {
    var key := x.log[i].key;
    ServedGrows(x.log, y.log[|x.log|], i);
    assert Held(x, key) || InBatch(x, key);
    if d.Take? { BatchSize(d.keys, x.s.pending); }
  }

  function DrainCount(steps: seq<Step>, from: nat, to: nat): nat
    requires from <= to <= |steps|
  {
    if from == to then 0 else DrainCount(steps, from, to - 1) + (if steps[to - 1].Drainer? then 1 else 0)
  }

  // Every trigger is added to the queue, or followed by an enqueue-all request, before the drain loop has
  // taken more than 2 * Room(capacity) + 5 further steps.
  lemma {:induction false} TriggerServedSoon(run: seq<System>, steps: seq<Step>, n: nat, m: nat, i: nat)
    requires IsRun(run, steps) && n <= m < |run|
    requires i < |run[n].log| && run[n].log[i].Triggered?
    requires i < |run[m].log| && run[m].log[i].Triggered? && !Served(run[m].log, i)
    ensures run[n].log[i] == run[m].log[i] && !Served(run[n].log, i)
    ensures Remaining(run[m], run[m].log[i].key) + DrainCount(steps, n, m) <= Remaining(run[n], run[m].log[i].key)
    ensures DrainCount(steps, n, m) <= 2 * Room(run[0].s.capacity) + 5
  {
    hide Next, OneWorker, ListingsLogged, RequestsKept, WorkerDue;
    RunInvariant(run, steps, n);
    RunInvariant(run, steps, m);
    CapacityFixed(run, steps, n);
    if n < m {
      RunInvariant(run, steps, m - 1);
      LogGrows(run, steps, n, m - 1);
      RemainingStep(run[m - 1], steps[m - 1], run[m], i);
      TriggerServedSoon(run, steps, n, m - 1, i);
    }
  }

  lemma {:induction false} LogGrows(run: seq<System>, steps: seq<Step>, n: nat, m: nat)
    requires IsRun(run, steps) && n <= m < |run|
    ensures |run[n].log| <= |run[m].log| && forall i :: 0 <= i < |run[n].log| ==> run[m].log[i] == run[n].log[i]
  {
    hide Next;
    if n < m {
      LogGrows(run, steps, n, m - 1);
      RunInvariant(run, steps, m - 1);
      StepLog(run[m - 1], steps[m - 1], run[m]);
    }
  }

  // While a trigger is not served, the drain loop can take a step as soon as it runs.
  lemma DrainEnabled(run: seq<System>, steps: seq<Step>, n: nat, i: nat)
    requires IsRun(run, steps) && n < |run| && DrainRuns(run[n])
    requires i < |run[n].log| && run[n].log[i].Triggered? && !Served(run[n].log, i)
    ensures exists d, y :: DrainNext(run[n], d, y)
  {
    hide Next;
    RunInvariant(run, steps, n);
    assert TriggersKept(run[n]);
    DrainMoves(run[n], Largest(run[n].workers.Keys) + 1);
  }

  lemma DrainMoves(x: System, w: nat)
    requires DrainRuns(x) && (x.drain.Waiting? ==> x.s.token) && w !in x.workers
    ensures exists d, y :: DrainNext(x, d, y)
  {
    match x.drain
    case Waiting => assert DrainNext(x, Wake, Logged(x.(drain := Woken, s := x.s.(token := false)), Other));
    case Woken =>
      var keys := SomeBatch(x.s.pending);
      assert DrainNext(x, Take(keys), Logged(x.(s := Taken(x.s), drain := Adding(keys, x.s.overloaded)), Other));
    case Adding(keys, recover) =>
      if keys != [] {
        assert DrainNext(x, Add, Logged(x.(drain := x.drain.(keys := keys[1..])), Added(keys[0])));
      } else if recover {
        assert DrainNext(x, EndBatch, Logged(x.(s := Requested(x.s), drain := Calling(x.s.started)), AllRequested));
      } else {
        assert DrainNext(x, EndBatch, Logged(x.(drain := Waiting), Other));
      }
    case Calling(launch) => assert DrainNext(x, DrainLaunch(w), Spawned(x, launch, w).(drain := Waiting));
  }

  lemma SomeBatch(s: set<NamespacedName>) returns (keys: seq<NamespacedName>)
    ensures Batch(keys, s)
  {
    var l: seq<NamespacedName> := [];
    var left := s;
    while left != {}
      invariant left <= s && Enumerates(l, s - left)
      decreases left
    {
      var key :| key in left;
      l, left := l + [key], left - {key};
    }
    assert s - left == s;
    SortEnumerates(l, s);
    keys := Sort(ByKey(NameKey), l);
  }

  ghost function Largest(s: set<nat>): (m: nat)
    ensures forall n :: n in s ==> n <= m
  {
    if s == {} then 0
    else
      var n :| n in s;
      var m := Largest(s - {n});
      assert forall k :: k in s ==> k == n || k in s - {n};
      if n < m then m else n
  }

  // At most one enqueue-all worker is alive, and no request is lost: until a listing that began after it
  // succeeds, the flag is set or a worker is listing since then or about to retry.
  lemma RequestNeverLost(run: seq<System>, steps: seq<Step>, n: nat, r: nat)
    requires IsRun(run, steps) && n < |run|
    ensures forall v, w :: v in run[n].workers && w in run[n].workers ==> v == w
    ensures r < |run[n].log| && run[n].log[r] == AllRequested ==> Answered(run[n].log, r) || BeingAnswered(run[n], r)
  {
    RunInvariant(run, steps, n);
  }

  // Once Start has succeeded, a set request flag always has a worker, or a call about to launch one.
  lemma RequestHasWorker(run: seq<System>, steps: seq<Step>, n: nat)
    requires IsRun(run, steps) && n < |run| && !run[n].starting.Unstarted? && !run[n].starting.Aborted?
    ensures run[n].s.requested ==> run[n].workers != map[] || LaunchDue(run[n])
  {
    RunInvariant(run, steps, n);
  }

  function Began(log: seq<Event>): nat {
    if log == [] then 0 else Began(log[..|log| - 1]) + (if log[|log| - 1] == ListBegan then 1 else 0)
  }

  function Asked(log: seq<Event>): nat {
    if log == [] then 0 else Asked(log[..|log| - 1]) + (if log[|log| - 1] == AllRequested then 1 else 0)
  }

  predicate Retries(step: Step) { step.Intents? && step.o.Work? && step.o.o.Retry? }

  function RetryCount(steps: seq<Step>, n: nat): nat
    requires n <= |steps|
  {
    if n == 0 then 0 else RetryCount(steps, n - 1) + (if Retries(steps[n - 1]) then 1 else 0)
  }

  lemma AskedStep(x: System, step: Step, y: System)
    requires IngressInv(x) && Next(x, step, y)
    ensures |y.log| == |x.log| + 1 && y.log[..|x.log|] == x.log
    ensures (if y.log[|x.log|] == ListBegan then 1 else 0) + (if y.s.requested then 1 else 0)
         <= (if x.s.requested then 1 else 0) + (if y.log[|x.log|] == AllRequested then 1 else 0)
            + (if Retries(step) then 1 else 0)
  {
    StepLog(x, step, y);
  }

  // Every listing was asked for: at most one begins per enqueue-all request and retry, however many coalesce.
  lemma {:induction false} ListingsAsked(run: seq<System>, steps: seq<Step>, n: nat)
    requires IsRun(run, steps) && n <= |steps|
    ensures Began(run[n].log) + (if run[n].s.requested then 1 else 0) <= Asked(run[n].log) + RetryCount(steps, n)
  {
    hide Next, IngressInv, OneWorker, ListingsLogged, RequestsKept, WorkerDue, TriggersKept;
    if n > 0 {
      ListingsAsked(run, steps, n - 1);
      RunInvariant(run, steps, n - 1);
      AskedStep(run[n - 1], steps[n - 1], run[n]);
    }
  }
}
