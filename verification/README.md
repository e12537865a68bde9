# KubeFacet, verified

KubeFacet is a Kubernetes controller: it resolves resource kinds through discovery, reads the selected resources
under an installation access policy, watches them for changes, and reports exact, deterministic aggregates of their
fields. This project models its concurrent state machines and its exact aggregation in Dafny, and proves what they
promise. `dafny verify dfyconfig.toml` checks everything.

How the files correspond to the program:

| files | program |
|---|---|
| `DiscoveryCache`, `DiscoveryResolver`, `DiscoveryRuns`, `DiscoveryLru`, `DiscoveryAnswers`, `DiscoveryOutcomes` | the discovery cache: its critical sections as relations, the class that performs them, every interleaving of them, the cache as a list by recency, where its answers come from, and how every call ends |
| `Freshness`, `FreshnessHistory` | leases bound to identity and policy epoch, and the per-key gate; and when a lease is current, told from the events |
| `TriggerIngress`, `TriggerRuns` | the bounded trigger ingress and the enqueue-all worker, and every interleaving of both |
| `RouteTable`, `RouteReplacement`, `RouteRegistry`, `RouteCases` | the route registry: its critical sections and their runs, the class with two indexes, and what a replacement does not wait for or forgets |
| `RouteStarts`, `RouteStartCases` | a whole call that replaces routes: the loop that starts and awaits supervisors, the pruning after an interrupted wait, and what is left unstarted |
| `WatchReadiness`, `WatchLoop`, `WatchHistory` | one watch supervisor: flags and establishment under any interleaving, its loop, and what the loop's history holds |
| `AccessPolicy`, `Authorization`, `Binder` | policy compilation and evaluation, minting of capabilities, binding a plan to them |
| `Accounting`, `Selection`, `SelectionOutcome`, `SelectionExecutor` | the byte accountant and the paginated, restartable, budgeted selection |
| `SelectionItems`, `SelectionPages`, `SelectionWhole` | the same selection told from its objects, its turns and its targets |
| `PathGrammar`, `PathParser`, `PathErrors` | the path dialect, its parser, and which error it reports where |
| `DecimalText`, `Rounding`, `NumberText` | decimal text, rounding, and the digits a number can have |
| `CanonicalKeys`, `Grouping`, `Readings`, `GroupingLaws`, `GroupingOrder`, `ShownKeys` | canonical keys and grouping, and what the resources bring to it |
| `Reducers`, `Aggregates`, `Extremes`, `DistinctLaws`, `AggregateLimits`, `AggregateLaws` | reducers and which contributions they keep, limits and whole aggregates |
| `Common`, `Sorting`, `Bags` | shared vocabulary, stable sorting, sequences as bags |

A component that the program changes in place is a class whose methods are proved against relations or functions on
values; what holds over runs is proved about those. A step of a run is one critical section, or one event outside the
lock. The clock, the network, contexts and timers are nondeterministic inputs: a turn of a script says what the
environment answers at each point where the code asks.

Some results are facts about the code rather than wishes for it; each has a concrete case and its exact condition.
A replacement of routes can leave a supervisor that it registers unstarted, in three ways: the list of supervisors
growth made for other owners' addresses is dropped (`RouteCases.UnstartedWitness`, `RouteCases.NewSupervisorsAwaited`);
a registry that is not started starts nobody yet (`RouteStartCases.UnstartedRegistryWitness`); and a wait that is
interrupted ends the loop before the later supervisors' turn (`RouteStartCases.InterruptedWaitWitness`). With nothing
else in between, the call starts every supervisor it registers exactly when it registers none, or the registry was
started, the least unwatched bound addresses that fit are all among its own routes, and no wait at an own address
before one of them fails (`RouteStarts.EveryPickedStarted`). A deferred address that a new generation binds
anew can lose its recovery (`RouteCases.RecoveryLostWitness`, `RouteTable.RecoveryRemembered`). Recovery of streams is
therefore stated for one supervisor's loop. Removing all routes keeps the deferred addresses. A lease that a changed
generation made stale becomes current again when the old generation is observed again; only a policy epoch is final
(`Freshness.GenerationStalenessWitness`, `Freshness.ReobservationRevives`). When the access counter wraps, entries are
renumbered in map order, so the numbers stay distinct and recency is lost exactly from three entries on
(`DiscoveryLru.HitRefinesExactly`). Equal group keys can come from matches written differently, and the group shows
the first, so the shown key is independent of order exactly when equal identities carry equal keys
(`ShownKeys.ShownKeyWitness`, `ShownKeys.ShownKeysExactly`). Sums of quantities overflow beyond 2^63 - 1, and sums of
numbers beyond the digits a number can have (`Reducers.QuantitySumOverflowsExactly`,
`Reducers.NumberSumOverflowsExactly`). A path that holds only the leading dot is accepted, with no operations, and a
name may follow a bracket without a dot.

## Model

| member | source | states |
|---|---|---|
| `DiscoveryResolver.Resolver.FreshCacheEntry` | internal/discovery/resolver.go:149-166 | A lookup is a hit exactly for a cached entry of the key's current version that has not expired; a hit becomes the most recent, an entry of an outdated version is dropped, and an expired one is missed and stays |
| `DiscoveryResolver.Resolver.BeginRefresh` | internal/discovery/resolver.go:168-192 | A caller gets the fresh entry, or joins the registered refresh when its version is current, or opens a new one under the current version |
| `DiscoveryResolver.Resolver.FinishRefresh` | internal/discovery/resolver.go:194-207 | The outcome is published to the waiters; only the registered refresh is unregistered, and only a success under the current version is retained |
| `DiscoveryResolver.Resolver.RetainEntryLocked` | internal/discovery/resolver.go:229-250 | An entry is retained under its version when there is room or something to evict; the key's earlier entry goes either way |
| `DiscoveryResolver.Resolver.LruVictimLocked` | internal/discovery/resolver.go:252-266 | The victim is the entry used longest ago among those not being refreshed, or none when all are |
| `DiscoveryResolver.Resolver.NextAccessLocked` | internal/discovery/resolver.go:213-227 | The counter advances, or at its 64-bit end every entry is renumbered, to pairwise different numbers below the new one |
| `DiscoveryResolver.Resolver.Renumber` | internal/discovery/resolver.go:217-223 | Renumbering changes access numbers only and makes them 1 to the number of entries, in some order |
| `DiscoveryResolver.Resolver.InvalidateGroupVersion` | internal/discovery/resolver.go:284-307 | Every cached or refreshing key of the group version loses its entry and gets a new version; other keys keep both |
| `DiscoveryResolver.Resolver.InvalidateResource` | internal/discovery/resolver.go:311-322 | One key loses its entry and gets a new version |
| `DiscoveryResolver.Resolver.InvalidateAll` | internal/discovery/resolver.go:325-334 | All entries are dropped and every key gets a new version |
| `DiscoveryResolver.Resolver.RefreshVersionCurrent` | internal/discovery/resolver.go:275-279 | Answers whether the version is still the key's current one, changing nothing |
| `DiscoveryLru.HitRefinesLru` | internal/discovery/resolver.go:149-166 | Seen as a list by recency, a hit moves its key to the end, while the counter does not wrap |
| `DiscoveryLru.HitRefinesExactly` | internal/discovery/resolver.go:213-227 | Whatever the order of a renumbering, a hit does that exactly while the counter does not wrap or at most two entries are cached; from three on, a wrap can put the others in another order |
| `DiscoveryLru.PlacedRefinesExactly` | internal/discovery/resolver.go:213-250 | The same for any key placed over other entries: their order is kept exactly while the counter does not wrap or at most one other entry is there |
| `DiscoveryLru.InvalidationRefinesLru` | internal/discovery/resolver.go:284-334 | An invalidation takes its keys out of the list and keeps the others in order |
| `DiscoveryLru.RunRefinesLru` | internal/discovery/resolver.go:149-334 | In every interleaving, from any position on and until the counter wraps, the cached keys by recency are what list operations make of the list: hits to the end, bounded insertions, removals |
| `DiscoveryLru.RunIsLru` | internal/discovery/resolver.go:149-334 | From the empty cache of the start on, likewise, until the counter first wraps |
| `DiscoveryLru.OldestIsVictim` | internal/discovery/resolver.go:252-266 | The evicted key is the first of the recency list that is not being refreshed |
| `DiscoveryLru.InsertionRefinesLru` | internal/discovery/resolver.go:229-266 | Retaining an entry refines insertion into a least-recently-used list of the given capacity |
| `DiscoveryCache.LookupBounded` | internal/discovery/resolver.go:149-166 | A lookup keeps the cache within capacity and its access numbers different and at most the counter, also across a wrap |
| `DiscoveryCache.BeginBounded` | internal/discovery/resolver.go:168-192 | Opening a refresh keeps those bounds |
| `DiscoveryCache.FinishBounded` | internal/discovery/resolver.go:194-250 | Finishing a refresh keeps those bounds |
| `DiscoveryCache.InvalidationBounded` | internal/discovery/resolver.go:284-334 | All three invalidations keep those bounds |
| `DiscoveryRuns.NoStaleResolution` | internal/discovery/resolver.go:434-477 | In every interleaving, a Resolve that starts after an invalidation covering its key never returns a resolution whose refresh began before it |
| `DiscoveryRuns.FlightsHaveDistinctVersions` | internal/discovery/resolver.go:168-211 | Two refreshes of one key in flight together have different versions |
| `DiscoveryRuns.AttemptsBounded` | internal/discovery/resolver.go:434-477 | One Resolve makes at most one more attempt than there were version bumps of its key, and than covering invalidations, during the call |
| `DiscoveryRuns.CacheBounded` | internal/discovery/resolver.go:149-166 | In every interleaving the cache stays within capacity with different access numbers |
| `DiscoveryRuns.RunInvariant` | internal/discovery/resolver.go:149-334 | The invariant behind these: versions grow, cached entries are current and clean since their refresh began, the registered refresh is the only current one, each refresh has one owner |
| `DiscoveryAnswers.AnswersAreFresh` | internal/discovery/resolver.go:402-477 | Every returned resolution is an answer discovery gave to a refresh of the same key that began after every covering invalidation preceding the call: the cache agrees with asking discovery |
| `DiscoveryAnswers.CachedWithinTtl` | internal/discovery/resolver.go:149-192 | In every interleaving, a caller served from the cache gets an answer to its key that discovery gave less than one time-to-live earlier, by the clock read after that answer |
| `DiscoveryOutcomes.ConfirmedAnswers` | internal/discovery/resolver.go:440-477 | In every interleaving, confirming a refresh whose key is still at its version ends the call: with a resolution exactly when discovery replied with it to that refresh, with an error exactly when discovery gave no reply; otherwise the call tries again |
| `DiscoveryOutcomes.RetriesAreDue` | internal/discovery/resolver.go:440-477 | A call tries again only when an invalidation covering its key was logged after its refresh began |
| `DiscoveryOutcomes.ErrorsAreDue` | internal/discovery/resolver.go:440-477 | A call ends with an error only by giving up its wait, or when discovery gave no reply to the refresh it owned or waited for; closing its own refresh ends it so exactly then |
| `DiscoveryOutcomes.ServedWhenFresh` | internal/discovery/resolver.go:149-192 | The cache serves a call exactly when it holds the key with an answer that discovery gave less than one time-to-live ago |
| `Freshness.Tracker.Observe` | internal/reconciliation/tracker.go:82-99 | An observation records the identity at the current epoch and cancels the active lease exactly when the identity changed |
| `Freshness.Tracker.ObserveDelete` | internal/reconciliation/tracker.go:103-117 | A deletion marks the key deleting and absent and cancels its lease |
| `Freshness.Tracker.MarkAbsent` | internal/reconciliation/tracker.go:121-132 | A missing object marks the key deleting and absent and cancels its lease |
| `Freshness.Tracker.InvalidateAll` | internal/reconciliation/tracker.go:137-149 | The epoch advances, every key takes the new epoch and every active lease is cancelled |
| `Freshness.Tracker.Acquire` | internal/reconciliation/tracker.go:166-187 | A lease at the current epoch becomes the active one, unless one is active already |
| `Freshness.Tracker.Release` | internal/reconciliation/tracker.go:188-202 | A first release clears the recorded lease if it is this one; a second release does nothing |
| `Freshness.AcquireNeverRefused` | internal/reconciliation/pipeline.go:63-106 | With attempts nested inside the gate of their key, acquiring never finds an active lease, in any run |
| `Freshness.ReleaseClearsOnlyOwn` | internal/reconciliation/tracker.go:188-202 | Although leases are compared by value, releasing leaves every other attempt's recorded lease as it was, in any run |
| `Freshness.ActiveIsCurrent` | internal/reconciliation/tracker.go:207-229 | A recorded active lease is always current and not cancelled by the tracker |
| `Freshness.UncancelledIsCurrent` | internal/reconciliation/tracker.go:73-78 | A leased attempt that the tracker has not cancelled is current |
| `Freshness.OldEpochNeverCurrent` | internal/reconciliation/tracker.go:137-149 | A lease older than a policy invalidation is never current again |
| `Freshness.ReobservationRevives` | internal/reconciliation/tracker.go:207-215 | After an observation of its key a lease is current if and only if its own UID and generation were observed, not being deleted, and its policy epoch is the tracker's |
| `Freshness.DeletionEnds` | internal/reconciliation/tracker.go:103-132 | No lease of a key is current after the key was deleted or found absent |
| `FreshnessHistory.LeaseCurrentExactly` | internal/reconciliation/tracker.go:207-215 | In every run a lease is current exactly when its epoch is the number of invalidations so far and the last event about its key showed its identity, by an observation without deletion or by issuing a lease |
| `FreshnessHistory.IssuedCurrentExactly` | internal/reconciliation/tracker.go:166-215 | An issued lease is current exactly when no invalidation followed its issue and the last event about its key showed its identity |
| `FreshnessHistory.CancelledExactly` | internal/reconciliation/tracker.go:73-149 | While an attempt holds its lease it is cancelled exactly when, since the issue, its key was observed with another identity or being deleted, deleted or absent, or the policy was invalidated |
| `Freshness.GenerationStalenessWitness` | internal/reconciliation/tracker.go:82-99 | Staleness by generation is not permanent: from the empty tracker, a lease goes stale when the generation changes and is current again when the old one is observed, with its attempt cancelled throughout |
| `TriggerIngress.TriggerSource.Enqueue` | internal/reconciliation/trigger.go:153-177 | A trigger joins the pending set, or when the set is full raises the overload flag; either way the wake token is there |
| `TriggerIngress.TriggerSource.BeginStart` | internal/reconciliation/trigger.go:106-125 | A source starts once; a capacity setting that is not positive becomes the default, and whether an enqueue-all was requested before is read in the same step |
| `TriggerIngress.TriggerSource.TakeBatch` | internal/reconciliation/trigger.go:189-210 | The drain takes all pending keys by namespace and name, without repetition, and the overload flag |
| `TriggerIngress.TriggerSource.RequestEnqueueAll` | internal/reconciliation/trigger.go:263-275 | The request flag is set, and a worker is asked for once the source has started |
| `TriggerIngress.TriggerSource.StartEnqueueWorker` | internal/reconciliation/trigger.go:277-287 | A worker is started exactly when none is running |
| `TriggerIngress.TriggerSource.PollIntent` | internal/reconciliation/trigger.go:289-305 | A worker takes the request flag, or finds none and stops being the running one, in one step |
| `TriggerIngress.TriggerSource.EnqueueAll` | internal/reconciliation/trigger.go:326-358 | Every listed key is added to the queue once, by namespace and name |
| `TriggerIngress.SeenKeyInjective` | internal/reconciliation/trigger.go:326-358 | The joined text that detects repetition tells different names apart when the namespace holds no NUL |
| `TriggerIngress.ListedComplete` | internal/reconciliation/trigger.go:326-358 | Skipping repetitions loses no listed key, for NUL-free namespaces |
| `TriggerRuns.WakeNeverLost` | internal/reconciliation/trigger.go:153-223 | Whenever keys are pending or the overload flag is set, a wake token is buffered or the drainer is between the token and the lock; pending never exceeds its capacity, the default one if the setting is not positive |
| `TriggerRuns.TriggerServedSoon` | internal/reconciliation/trigger.go:153-223 | Every trigger is queued, or followed by an enqueue-all request, within 2 * capacity + 5 further steps of the drain loop, whatever the capacity setting |
| `TriggerRuns.DrainEnabled` | internal/reconciliation/trigger.go:138-223 | While a trigger is not served, the drain loop, once started, can take a step |
| `TriggerRuns.RequestNeverLost` | internal/reconciliation/trigger.go:263-358 | At most one worker is alive, and until a listing begun after the request succeeds, the flag is set or a worker is listing or about to retry |
| `TriggerRuns.RequestHasWorker` | internal/reconciliation/trigger.go:277-324 | Once started, a set request flag always has a worker or a call about to start one |
| `TriggerRuns.ListingsAsked` | internal/reconciliation/trigger.go:263-324 | Every listing was asked for: in every run no more listings begin than enqueue-all requests were made and retries taken |
| `AccessPolicy.Compile` | internal/accesspolicy/compiler.go:62-169 | A policy compiles exactly when it is well formed, and its lookup sets then hold exactly the declared names and the cross products of the rules |
| `AccessPolicy.EvaluationIsAdmission` | internal/accesspolicy/evaluator.go:104-157 | The decision of a compiled policy is allowed exactly when the declared policy admits the request: covered by a rule, allowed by the mode, not excluded |
| `AccessPolicy.ExclusionWins` | internal/accesspolicy/evaluator.go:130-157 | An excluded namespace is denied whatever the mode and the inclusions |
| `AccessPolicy.DecisionReasons` | internal/accesspolicy/evaluator.go:104-157 | Which reason a decision carries, read off the declared policy: an invalid request, a resource no rule covers, cluster scope not allowed, a namespace not admitted, or allowed, each if and only if |
| `AccessPolicy.TerminalReasons` | internal/accesspolicy/evaluator.go:104-157 | Without a compiled policy nothing is allowed and the reason is the one it is missing for |
| `Authorization.EvaluateBatch` | internal/authorization/enforcer.go:49-84 | One outcome per request, in order, each with a capability for exactly that subject and request when it is allowed; nothing for an invalid subject or a cancelled batch |
| `Authorization.RecordTells` | internal/authorization/enforcer.go:86-119 | The record of a decision names its subject, request and reason; its outcome is allowed exactly for allowed decisions and unavailable exactly without a policy to read, and its state tells a missing, an invalid and an unreadable policy apart |
| `Authorization.MintedCapability` | internal/authorization/enforcer.go:66-81 | A capability exists exactly when the declared policy admits the request, and is valid exactly when the request also names its source and, at cluster scope, no namespace |
| `Authorization.DenyAllMintsNothing` | internal/authorization/enforcer.go:49-84 | Without a compiled policy no capability is minted |
| `Binder.BindCapabilities` | internal/selection/binder.go:37-84 | Binding succeeds exactly when the targets are distinct and the outcomes are a rearrangement of one allowed outcome with a valid matching capability per target; read i is for target i; otherwise the first reason in the code's order |
| `Binder.TargetReasons` | internal/selection/binder.go:37-84 | What is wrong with a target, told from the outcomes, each if and only if: missing when none is for it, denied when the only one is not allowed, a mismatch when there are several or the only one carries no usable capability, nothing when the only one is usable |
| `Binder.FirstReason` | internal/selection/binder.go:37-84 | The reason reported is that of the first target something is wrong with |
| `Binder.IssuesDecide` | internal/selection/binder.go:37-84 | Finding no issue target by target is the same as that rearrangement existing |
| `Binder.BoundReadsAdmitted` | internal/selection/binder.go:37-84 | Every bound read is for a target the declared policy admits, under the subject of the decisions |
| `Accounting.Accountant.WouldExceedBytes` | internal/limits/profile.go:521-529 | Exceeding is exactly not fitting under the ceiling; negative sizes and 64-bit overflow are errors |
| `Accounting.Accountant.AddBytes` | internal/limits/profile.go:541-554 | Bytes are committed exactly when they fit |
| `Accounting.Accountant.ReleaseBytes` | internal/limits/profile.go:559-568 | Bytes are given back exactly when that many are in use |
| `Selection.RollbackExact` | internal/selection/executor.go:286-293 | Discarding a target's pages releases every charge, and leaves exactly the budget the target started from |
| `Selection.ListingExact` | internal/selection/executor.go:254-344 | Over any listing of a target, the budget grows by exactly what is retained, and stays within both ceilings |
| `Selection.RestartForgets` | internal/selection/executor.go:282-295 | A target restarted after expiry ends as if the discarded pages had never been read; if the continuation expires again it fails with the expiry reason |
| `Selection.SecondChance` | internal/selection/executor.go:282-295 | Having restarted changes nothing unless the continuation expires again, and then the target fails |
| `Selection.PagesGuarded` | internal/selection/executor.go:259-277 | Every list call is for a valid read and directly follows a check that found its subject current |
| `SelectionPages.ListedExactly` | internal/selection/executor.go:254-344 | A target's listing ends listed with these items, having used the first n turns, if and only if, from the beginning or from an expiry that follows acceptable pages, these are pages of which only the last has no continue token, their objects are acceptable under both ceilings, and the items are exactly the new objects in order, with body, size and identity |
| `SelectionPages.FailedExactly` | internal/selection/executor.go:254-388 | And it fails with this reason if and only if, from there, acceptable pages with continue tokens come before the last turn, and that turn gives the reason: a check before the request, no response, a list error, a second expiry, or the first object that is not acceptable |
| `SelectionPages.TokensFollow` | internal/selection/executor.go:270-342 | Every request asks with the continue token of the page before it, and with none at the start and after the expiry |
| `SelectionPages.RefusalRecorded` | internal/selection/executor.go:278-300 | A refusal is recorded exactly when the last turn used was a request that the API forbade, and no expiry |
| `SelectionItems.WalkExactly` | internal/selection/executor.go:305-339 | Pages are accepted exactly when every object has a name and a UID, every new one can be sized, and the new ones fit under both ceilings; then exactly those are kept |
| `SelectionWhole.SelectedExactly` | internal/selection/executor.go:205-236 | A selection of several targets is listed with these objects if and only if the turns fall into consecutive stretches, one per target in order, each completing its target on top of what was gathered before |
| `SelectionExecutor.SelectionBudget.Discard` | internal/selection/executor.go:286-289 | The budget is rolled back over the accepted objects, ignoring refused releases |
| `SelectionExecutor.Executor.AcceptPage` | internal/selection/executor.go:305-339 | A page is walked item by item: missing identity, known UID, ceiling, size, retention, in this order |
| `SelectionExecutor.Executor.ReadTarget` | internal/selection/executor.go:254-344 | The page loop, its expiry restart and its budget compute the listing of the target |
| `SelectionExecutor.Executor.Execute` | internal/selection/executor.go:205-236 | All targets over one budget, source-atomically: a complete outcome has distinct UIDs, is in order and within both ceilings, and every page was guarded |
| `SelectionOutcome.DeduplicateAndSort` | internal/selection/executor.go:394-415 | The sorted objects, each UID once at its first place |
| `SelectionOutcome.ArrangedKeeps` | internal/selection/executor.go:394-415 | Of any collected objects, one of each UID is kept, one that no other of the UID comes before, by namespace, name and UID |
| `SelectionOutcome.BudgetExact` | internal/selection/executor.go:222-233 | Throughout a selection of several targets the seen set is the retained UIDs and the bytes used are the sum of their sizes |
| `SelectionOutcome.CompleteSelection` | internal/selection/executor.go:222-236 | A complete outcome is a rearrangement of everything collected, with distinct UIDs, by namespace, name and UID, at most the resource ceiling and the byte ceiling: the final de-duplication drops nothing |
| `SelectionOutcome.EveryObjectRetained` | internal/selection/executor.go:254-344 | Every object on every page of a successful listing is retained, by this target or an earlier one; of a restarted listing, every object on every page after the expiry |
| `SelectionOutcome.ArrivalOrderIrrelevant` | internal/selection/executor.go:394-415 | The arranged outcome depends on the collected objects, not on their order of arrival |
| `SelectionOutcome.EveryPageAdmitted` | internal/selection/executor.go:259-277 | From policy to page: every list call of a bound selection is for a planned target the declared policy admits, under the decided subject, checked current just before |
| `RouteTable.NewRouteAccepted` | internal/reconciliation/routes.go:112-136 | A constructed route passes every check of a replacement for its own subject's lease, and is a mismatch for any other |
| `RouteTable.EveryRunKeeps` | internal/reconciliation/routes.go:363-447 | At every lock release of any run: bindings keyed by themselves and authorized, watches only for bound addresses and exactly min(capacity, bound addresses) many, no watched address deferred, supervisors distinct |
| `RouteTable.ReplaceInstalls` | internal/reconciliation/routes.go:401-419 | A replacement leaves its owner with exactly the new keys, kept keys with their earlier binding, and other owners untouched |
| `RouteReplacement.ReplacementOwned` | internal/reconciliation/routes.go:363-434 | After an accepted replacement every binding of the owner has the lease's subject, policy epoch included, and the bindings agree with the routes in address, source and subject, one for one |
| `RouteReplacement.AcceptedRoutes` | internal/reconciliation/routes.go:374-396 | Routes are accepted exactly when each passes its own checks and no two agree in address, source and subject |
| `RouteReplacement.RouteReasons` | internal/reconciliation/routes.go:374-396 | Which reason a route is rejected for: not the lease's, no capability for what it reads, an invalid address, or no source, in this order |
| `RouteReplacement.RoutesReason` | internal/reconciliation/routes.go:374-396 | The replacement is rejected for the reason of the first route that is rejected or repeats an earlier one |
| `RouteReplacement.ReplacementStops` | internal/reconciliation/routes.go:403-437 | A replacement stops exactly the supervisors that it takes out of the registry |
| `RouteReplacement.RemovalStops` | internal/reconciliation/routes.go:635-658 | So does every removal |
| `RouteTable.RecoveryRemembered` | internal/reconciliation/routes.go:639-697 | A pending recovery, of a deferred address or of a watched one whose supervisor has the flag, survives a step exactly when no removal or replacement takes the address's last binding away, or the replacement binds it anew on a started registry without room to watch it; of those, removing everything keeps the deferred ones |
| `RouteCases.RecoveryLostWitness` | internal/reconciliation/routes.go:639-697 | A new generation that binds the deferred address anew and gives up the watched one: the address is bound before and after, and its supervisor starts without a recovery |
| `RouteTable.GrownPicks` | internal/reconciliation/routes.go:660-697 | The addresses that get a supervisor are determined: the least unwatched bound addresses, as many as there is room for |
| `RouteTable.AddressesCompare` | internal/reconciliation/routes.go:699-713 | Addresses are compared by group, version, resource, scope and namespace, in this order |
| `RouteCases.NewSupervisorsAwaited` | internal/reconciliation/routes.go:410-434 | The replacement under the lock lists a supervisor it registers among those to wait for exactly when that is for one of its own routes; it lists all of them exactly when the picked addresses are all among its routes. Whether they are started is `RouteStarts.EveryPickedStarted` |
| `RouteStarts.TurnsReached` | internal/reconciliation/routes.go:438-445 | In the start loop, a supervisor has its turn exactly when no earlier wait fails, and its start takes effect exactly when it has its turn and was not started before |
| `RouteStarts.EveryPickedStarted` | internal/reconciliation/routes.go:363-447 | A call that replaces routes, with nothing else in between, starts a supervisor it registers exactly when the registry was started, the address is among its own routes, and no wait at an earlier address of its own fails; so it starts every one exactly when none is registered, or that is so of each |
| `RouteStarts.InterruptedExactly` | internal/reconciliation/routes.go:438-445 | The call returns the error of a wait exactly when the registry was started and, at some own address that gets a supervisor or has one whose first attempt may be open, the wait is not answered as settled |
| `RouteStarts.RunsAfterwards` | internal/reconciliation/routes.go:363-503 | After the call exactly those supervisors run that ran before or were started by it, except those stopped for good: with the bindings given up, or with those pruned after an interrupted wait |
| `RouteStarts.PrunedStarts` | internal/reconciliation/routes.go:476-503 | After an interrupted wait every supervisor that the pruning registers is started; and what a call leaves is a state in which calls can begin: the invariant, and flags only of registered supervisors |
| `RouteStarts.Fleet.ReplaceRoutes` | internal/reconciliation/routes.go:363-447 | The whole call: the rejections, or the installed registry, the stopped supervisors, the loop of starts and waits to its end or its first failing wait, and the pruning after that, as one relation between the states before and after |
| `RouteStarts.Fleet.StartAndWait` | internal/reconciliation/routes.go:522-552 | A supervisor that is not current is left alone; a current one is started, and waited for unless it has no ready channel any more, with each way a wait can end |
| `RouteStarts.Fleet.StartAndWaitForEach` | internal/reconciliation/routes.go:438-445 | The loop starts and waits in order and stops at the first wait that fails |
| `RouteStarts.Fleet.PruneStaleOwner` | internal/reconciliation/routes.go:476-503 | The owner's bindings that are not current go, their supervisors are stopped, and every supervisor that takes their room is started |
| `RouteStarts.Fleet.StartSupervisor` | internal/reconciliation/routes.go:510-520 | Only a current supervisor is started, and the start takes effect exactly when it was not started |
| `RouteStartCases.UnstartedRegistryWitness` | internal/reconciliation/routes.go:435-446 | On an empty registry that is not started, the only route's supervisor is registered and not started, although it is the caller's own and no wait fails |
| `RouteStartCases.InterruptedWaitWitness` | internal/reconciliation/routes.go:435-446 | On an empty started registry with room for both routes of a call, an interrupted first wait leaves the second supervisor registered, its address bound, and not started |
| `RouteCases.UnstartedWitness` | internal/reconciliation/routes.go:410-446 | Giving up the only watched address registers the other owner's supervisor, spends its deferral, and waits for nobody |
| `RouteTable.UnwatchedDeferred` | internal/reconciliation/routes.go:423-431 | Once started, a replacement defers every address of its own that it leaves unwatched |
| `RouteTable.DeferralsOutliveRemoveAll` | internal/reconciliation/routes.go:755-771 | Removing everything leaves the deferrals, which are then bound addresses only if there were none |
| `RouteTable.UnbindTwice` | internal/reconciliation/routes.go:635-658 | Removing bindings one after another, in any order, is removing them together, with the same supervisors to stop |
| `RouteRegistry.Registry.AddBindingLocked` | internal/reconciliation/routes.go:619-633 | Both indexes gain the binding and stay the same bindings grouped two ways |
| `RouteRegistry.Registry.RemoveBindingLocked` | internal/reconciliation/routes.go:635-658 | Both indexes lose the binding, leaving no empty group; the address loses its watch and deferral, and its supervisor is returned, exactly when that was its last binding |
| `RouteRegistry.Registry.EnsureWatchCapacityLocked` | internal/reconciliation/routes.go:660-697 | The least unwatched bound addresses get supervisors up to the capacity, each with the recovery flag of its deferral |
| `RouteRegistry.Registry.Replace` | internal/reconciliation/routes.go:363-447 | Stale leases and the first bad or repeated route reject everything unchanged; otherwise the owner's bindings become those of the routes, one for one and under the lease's subject, and the supervisors to stop and to wait for are exactly those affected |
| `RouteRegistry.Registry.SupervisorsForBindings` | internal/reconciliation/routes.go:449-470 | The watched supervisors of the routes' addresses, in address order |
| `RouteRegistry.Registry.PruneStaleOwner` | internal/reconciliation/routes.go:476-503 | Exactly the owner's bindings that are not current are removed |
| `RouteRegistry.Registry.PruneStale` | internal/reconciliation/routes.go:603-617 | Exactly the address's bindings that are not current are removed |
| `RouteRegistry.Registry.CurrentPermit` | internal/reconciliation/routes.go:556-601 | The permit carries exactly the capabilities left at the address, all of current subjects, and exists exactly when some are left, by owner and source in order: for authorized bindings its validity check never fails |
| `RouteRegistry.Registry.CurrentOwners` | internal/reconciliation/routes.go:778-812 | The distinct owners left at an address, by namespace and name |
| `RouteRegistry.Registry.RemoveOwner` | internal/reconciliation/routes.go:728-752 | All of the owner's bindings go, and freed capacity is used |
| `RouteRegistry.Registry.RemoveAll` | internal/reconciliation/routes.go:755-771 | Bindings and watches are emptied, every supervisor is to be stopped, deferrals stay |
| `RouteRegistry.Registry.Start` | internal/reconciliation/routes.go:326-359 | A registry with a watcher, a tracker and a queue starts once, and returns every supervisor to start |
| `RouteRegistry.PermitBuilt` | internal/reconciliation/routes.go:556-601 | A permit built from authorized bindings of one address is always valid |
| `WatchReadiness.Supervisor.StartWithReady` | internal/reconciliation/routes.go:890-909 | A start takes effect once and hands out the channel of that start |
| `WatchReadiness.Supervisor.Stop` | internal/reconciliation/routes.go:911-929 | A stop takes out the ready channel and the cancel function and clears the flags |
| `WatchReadiness.Supervisor.SignalReady` | internal/reconciliation/routes.go:1149-1165 | The first signal of a start takes out its ready channel, later ones nothing |
| `WatchReadiness.ReadyClosedOnce` | internal/reconciliation/routes.go:890-929 | However starts, stops, signals and timers interleave, each start's ready channel is closed at most once and none is lost |
| `WatchReadiness.WaitersReleased` | internal/reconciliation/routes.go:890-929 | The first signal or stop after a start takes that start's ready channel out of the flags for good, in order to close it |
| `WatchReadiness.Establishment.OnTimer` | internal/reconciliation/routes.go:939-964 | The timer settles an unsettled establishment as timed out and gets its cancel function |
| `WatchReadiness.Establishment.Settle` | internal/reconciliation/routes.go:966-990 | Settling reports a timeout exactly if the timer came first, and gets the cancel function if it is still there |
| `WatchReadiness.HandedOutOnce` | internal/reconciliation/routes.go:939-990 | Over any turns at the lock, the cancel function is handed out exactly once, to the first side, and the timeout is that side being the timer |
| `WatchLoop.Loop.ConsumeStream` | internal/reconciliation/routes.go:1179-1202 | Changes raise route events, versions are remembered, an error event ends the stream |
| `WatchLoop.Loop.Run` | internal/reconciliation/routes.go:1034-1122 | The loop's history, iteration by iteration |
| `WatchLoop.EveryRunRecovers` | internal/reconciliation/routes.go:1034-1122 | In any run of one loop, every stream after the first iteration, and the first too if the address was deferred, is consumed directly after a route event that follows its opening; no other first stream is |
| `WatchLoop.NothingLeaks` | internal/reconciliation/routes.go:1049-1091 | Every watch asked for has its transport released exactly once, by loop or timer, and every stream opened is stopped exactly once |
| `WatchHistory.HistoryExactly` | internal/reconciliation/routes.go:1034-1122 | What any script of turns amounts to: each attempt in turn as long as the one before goes on, the version it resumes from, the route events for recovery, changes and errors, the records of refusal and the ready signals |
| `WatchHistory.AttemptsExactly` | internal/reconciliation/routes.go:1034-1122 | An attempt is made exactly when every turn before it goes on: alive, permitted, its stream registered, the backoff waited out |
| `WatchHistory.ConsumedExactly` | internal/reconciliation/routes.go:1179-1202 | Consuming a stream reports every change before the first error event, keeps the last version read, and ends with that error, with the end of the context, or with none |
| `PathParser.ParsePath` | internal/extraction/parser.go:36-88 | The parser returns the parse of the path: operations, or the reason and offset of the first error |
| `PathParser.Parser.ParseIdentifier` | internal/extraction/parser.go:97-110 | Scans the longest identifier, or reports the offset and kind of error |
| `PathParser.Parser.ParseBracket` | internal/extraction/parser.go:112-144 | Scans one bracket token or reports the branch's error |
| `PathParser.Parser.ParseQuotedKey` | internal/extraction/parser.go:146-172 | Scans an escaped single-quoted key up to its closing bracket |
| `PathParser.Parser.ParseIndex` | internal/extraction/parser.go:174-192 | Scans a decimal index that fits a signed 64-bit int |
| `PathParser.ScanAdvances` | internal/extraction/parser.go:53-86 | Every accepted token moves strictly forward and stays inside the path |
| `PathParser.AcceptsExactly` | internal/extraction/parser.go:36-88 | A path is accepted with some operations exactly when it is the writing of a well-formed list of lexemes that means them |
| `PathErrors.RejectedExactly` | internal/extraction/parser.go:36-200 | A path is rejected with a kind and an offset exactly when its delimiters or its leading dot are wrong, or else the text behind the longest well-formed start is one that starts no lexeme, told by how it is written: no name, no closing bracket, a key or an index that is not closed or does not fit, with the offset at the character or the bracket at fault |
| `PathParser.DerivationUnique` | internal/extraction/parser.go:36-88 | No path is written by two lists of lexemes |
| `PathParser.PrintedParsesBack` | internal/extraction/parser.go:112-192 | Printing operations in escaped bracket form parses back to them, exactly when the keys hold no brace and the indexes fit a signed 64-bit int |
| `PathParser.LexSound` | internal/extraction/parser.go:53-86 | What is lexed is well formed and written exactly as the text read |
| `PathParser.LexComplete` | internal/extraction/parser.go:53-86 | The writing of any well-formed list of lexemes lexes to that list |
| `Rounding.RoundRationalDecimal` | internal/typedoutput/aggregation_bridge.go:164-187 | Rounds the magnitude and prints it with its sign, for scales 0 to 18 and the four modes; errors otherwise |
| `Rounding.RoundingUnique` | internal/typedoutput/aggregation_bridge.go:164-207 | The result is the only integer within half a unit with the named tie rule, or under one unit on the named side |
| `Rounding.RoundedOdd` | internal/typedoutput/aggregation_bridge.go:169-185 | Rounding is symmetric around zero |
| `Rounding.RoundedExact` | internal/typedoutput/aggregation_bridge.go:189-192 | Representable values are kept |
| `Rounding.RoundedReduces` | internal/typedoutput/aggregation_bridge.go:164-187 | Rounding depends on the value, not on how the fraction is written |
| `Rounding.RoundedMonotone` | internal/typedoutput/aggregation_bridge.go:164-207 | Rounding is monotone over all rationals |
| `Rounding.TextDenotes` | internal/typedoutput/aggregation_bridge.go:209-229 | The text is a shortest decimal numeral, signed exactly when the value is negative, denoting the integer over 10^scale; there is no negative zero |
| `Rounding.TextInjective` | internal/typedoutput/aggregation_bridge.go:209-229 | At one scale different integers print differently |
| `CanonicalKeys.WriteKeyPart` | internal/typedoutput/aggregation_bridge.go:51-60 | Appends a big-endian length and the text, or fails for more than 2^32 - 1 bytes |
| `CanonicalKeys.PartHeld` | internal/typedoutput/aggregation_bridge.go:51-60 | A part is its text behind four bytes that stand, most significant first, for the length of the text; only a text beyond 2^32 - 1 bytes has none |
| `CanonicalKeys.MakeCanonicalKey` | internal/typedoutput/aggregation_bridge.go:33-49 | The two length-prefixed parts, or an error for a null, mistyped, unsupported or unserializable match |
| `CanonicalKeys.PartsSplit` | internal/typedoutput/aggregation_bridge.go:51-60 | A part can be read back whatever follows it |
| `CanonicalKeys.CanonicalKeyInjective` | internal/typedoutput/aggregation_bridge.go:33-60 | Two values share a key exactly when they agree in type and payload |
| `CanonicalKeys.EqualKeyTuples` | internal/aggregation/keys.go:81-91 | Compares tuples position by position |
| `CanonicalKeys.EqualTuplesAreIdentities` | internal/aggregation/keys.go:81-91 | Comparing tuples of keys compares what they stand for |
| `CanonicalKeys.TupleKeyInjective` | internal/aggregation/keys.go:93-99 | The concatenated key identifies the whole tuple, whatever the lengths |
| `Grouping.FormGroups` | internal/aggregation/grouping.go:42-140 | The loops over resources and matches, the limits and the final sorts compute the grouping |
| `Grouping.AddMatches` | internal/aggregation/grouping.go:94-116 | Each non-null match is limited, placed in the first equal group or a new one, and credited once to its resource |
| `Grouping.FindGroupIndex` | internal/aggregation/grouping.go:211-218 | Finds the first group with an equal tuple |
| `Grouping.AppendUniqueProvenance` | internal/aggregation/grouping.go:220-227 | A contributor is listed once |
| `Readings.ReadExactly` | internal/aggregation/grouping.go:149-190 | A resource is read as a failure, or as feeding matches to keys, exactly as its state, its provenance, its grouping fields and its target field say |
| `Readings.FormedExactly` | internal/aggregation/grouping.go:42-140 | Within the limits the failures are exactly those of the resources that are no repetitions, and every group holds exactly the contributions these bring under its identity, none left out |
| `GroupingLaws.GroupingIsPartition` | internal/aggregation/grouping.go:42-140 | For every input the groups have different key identities, each gathers exactly its contributions in order, none is missing; or the contributions or their different keys are more than the limits, whatever the order |
| `GroupingLaws.StoppedByFirst` | internal/aggregation/grouping.go:94-116 | The limit that stops the grouping is the one that the first contribution beyond them breaks: the number of contributions, or else that of groups |
| `GroupingLaws.PlacePartitions` | internal/aggregation/grouping.go:105-115 | Placing one contribution keeps the partition |
| `GroupingOrder.EachMatchLands` | internal/aggregation/grouping.go:94-119 | Each non-null match of each usable resource lands with its index in exactly one group, that of its keys |
| `GroupingOrder.SharedGroup` | internal/aggregation/grouping.go:149-170 | Two resources share a group exactly when their grouping values agree in type and payload |
| `GroupingOrder.OrderIndependent` | internal/aggregation/grouping.go:42-140 | Permuting resources with distinct UIDs and complete provenance keeps failures, key identities, group order, contributions and contributors; a limit stops one order exactly when it stops the other |
| `GroupingOrder.SettledAlike` | internal/aggregation/grouping.go:125-132 | Sorted contributions and contributors of a key do not depend on arrival order |
| `ShownKeys.FirstKeyShown` | internal/aggregation/grouping.go:198-209 | Every formed group shows the keys that arrived first under its identity |
| `ShownKeys.ShownKeysExactly` | internal/aggregation/grouping.go:198-209 | Every order of the resources shows the same keys exactly when contributions with equal key identities carry equal keys |
| `ShownKeys.ShownKeyWitness` | internal/aggregation/grouping.go:198-209 | Two volumes of 1Gi and 1024Mi share a group, whose shown key depends on which arrived first |
| `Reducers.ExactContributionSum` | internal/aggregation/reducers.go:193-206 | The running rational total, or an error at the first value that is not a number of the type |
| `Reducers.SumOverflowsExactly` | internal/aggregation/reducers.go:181-206 | A sum of integers or durations overflows exactly when its exact total leaves the signed 64-bit range, never for an intermediate total |
| `Reducers.QuantitySumOverflowsExactly` | internal/aggregation/reducers.go:181-206 | A sum of quantities overflows exactly when the magnitude of its exact total exceeds 2^63 - 1, never for an intermediate total |
| `Reducers.QuantityOverflowWitness` | internal/typedoutput/converters.go:402-436 | Twice 9223372036854775807 overflows, and adding its negative brings the total back |
| `Reducers.NumberSumOverflowsExactly` | internal/aggregation/reducers.go:181-206 | A sum of numbers overflows exactly when its exact total is no integer of at most 2^20 digits over a power of ten of fewer than 2^20 decimals |
| `Reducers.LopsidedNumbersOverflow` | internal/typedoutput/converters.go:236-297 | 10^k and 10^-k each convert, and their sum overflows, for every k from 2^19 to below 2^20 |
| `Reducers.AverageOverflowsExactly` | internal/aggregation/reducers.go:103-119 | A mean overflows exactly when its rounded value needs more than 2^20 digits; otherwise it is that value's text |
| `NumberText.NumberHolds` | internal/typedoutput/converters.go:509-537 | A rational can be written out and read back as a number exactly when it is an integer of at most 2^20 digits over a power of ten of fewer than 2^20 decimals, and reading back changes no text |
| `NumberText.PrintedReads` | internal/typedoutput/converters.go:236-297 | Reading a printed scaled integer gives the same text, or refuses it exactly when it needs too many digits |
| `NumberText.CanonicalRationalDecimal` | internal/typedoutput/converters.go:509-537 | The loop finds the fewest decimals that write the value exactly, or none below 2^20 |
| `Reducers.AverageMeant` | internal/aggregation/reducers.go:103-119 | An average is absent without contributions, an input error for one that is no number, overflow for a precision or mode that does not exist, and otherwise the text of the one integer that rounds the exact total over the count, scaled by the precision, unless that has too many digits |
| `Reducers.SumDenotes` | internal/aggregation/reducers.go:193-206 | As a real number the exact sum is the total of the contributions |
| `Reducers.AverageBetween` | internal/aggregation/reducers.go:103-119 | The reported average of whole numbers is the text of an integer between the least and the greatest of them, scaled, for every precision and mode |
| `Reducers.Extremum` | internal/aggregation/reducers.go:120-139 | The first contribution no other beats, or an error when some are not comparable |
| `Aggregates.DistinctValues` | internal/aggregation/reducers.go:154-175 | One match per different key, at its first appearance, with everyone who contributed it once |
| `Aggregates.ReduceGroup` | internal/aggregation/reducers.go:72-179 | Each of the nine reducers |
| `Aggregates.ReductionUnique` | internal/aggregation/reducers.go:72-179 | The contributions determine the reduced value |
| `Extremes.ExtremeOfGroup` | internal/aggregation/reducers.go:120-139 | The minimum is the value of the first contribution at the lowest position in the order of its type, the maximum that of the first at the highest; incomparable values are an error |
| `Extremes.EndsOfGroup` | internal/aggregation/reducers.go:140-153 | The first value is that of a contribution no other precedes by namespace, name, UID, version, kind and position, the last that of one that precedes no other |
| `Extremes.WholeGroup` | internal/aggregation/reducers.go:72-102 | Counting gives the number of contributions of the group, and collecting every one of them in order, with its contributor if provenance is asked for |
| `Extremes.FinishedInOrder` | internal/aggregation/grouping.go:121-139 | Groups stand in the order of their key values, failures in that of their provenance, and nothing is added or lost |
| `DistinctLaws.DistinctExactly` | internal/aggregation/reducers.go:154-175 | The distinct values are one per key, that of its first appearance, with exactly the contributors of that key, each once |
| `Aggregates.AverageMatch` | internal/aggregation/reducers.go:103-119 | The text of the one integer that rounds the exact total over the number of contributions, absent without contributions, overflow when it has too many digits |
| `Aggregates.SumMatch` | internal/aggregation/reducers.go:181-191 | The exact total if its type can hold it, else overflow: 64 signed bits, the magnitude of a quantity, or the digits of a number |
| `Aggregates.ReduceAggregate` | internal/aggregation/reducers.go:26-70 | Every group reduced in order, with an empty global group if there is none; one failure fails the aggregate |
| `AggregateLimits.AggregateLimitFailure` | internal/aggregation/evaluator.go:200-256 | Fails exactly when a counted total exceeds its limit |
| `AggregateLimits.DistinctProvenanceCounts` | internal/aggregation/evaluator.go:258-276 | The number of UIDs per distinct value |
| `AggregateLimits.PreCountExact` | internal/aggregation/evaluator.go:200-276 | For every reducer, what is counted for a group beforehand is what its report emits: collected values, distinct values, provenance entries counted by UID and shown in full |
| `AggregateLimits.UidsCountContributors` | internal/aggregation/evaluator.go:258-276 | Counting a value's contributors by UID or by full provenance is the same |
| `AggregateLimits.ReportWithinLimits` | internal/aggregation/evaluator.go:200-256 | The counts pass exactly when the report respects every limit |
| `AggregateLaws.OneProvenance` | internal/aggregation/grouping.go:69-73 | A UID contributes through one resource only |
| `AggregateLaws.ReportRespectsLimits` | internal/aggregation/evaluator.go:114-142 | From resources to report: the evaluation is refused over its counts exactly when the report would break one of the five limits as it emits them |
| `AggregateLaws.EvaluationOrderIndependent` | internal/aggregation/evaluator.go:105-145 | Permuting the resources changes nothing of how the evaluation ends: stopped by a limit, refused over the counts, the same reduction error, or the same failures and, group by group, the same key identity, value and contributors |
| `AggregateLaws.PreCheckOrderIndependent` | internal/aggregation/evaluator.go:200-256 | Nor whether the counts pass |
| `AggregateLaws.Evaluate` | internal/aggregation/evaluator.go:105-145 | Group, check, reduce: stopped exactly beyond the grouping limits, refused exactly over the counts, errored with the error of the first group whose reduction fails, and otherwise reported within all limits |
| `AggregateLaws.DegradedExactly` | internal/aggregation/reducers.go:26-38 | A report is degraded exactly when some resource that is no repetition is to be reported as a failure, and its failures are exactly those |

## Left out

- Kubernetes clients, informers, metadata transport, metrics, logging, error texts and defensive copies.
- `internal/discovery/resolver.go` matching of a resource list against a kind, and parsing of group versions: a refresh yields some answer, and an invalidation gets a canonical group version or none.
- Policy epochs, key epochs and generations do not wrap: they are unbounded numbers. The 64-bit access counter does wrap.
- `internal/reconciliation/pipeline.go` beyond the nesting of lease and gate, and everything that writes status.
- Cancellation of the context in the trigger loops, in `formGroups` and in the reducers, which ends them with an interruption error.
- Other steps between the parts of one call that replaces routes: `RouteStarts` takes the lock, the stops, the starts and waits and the pruning in one piece, while `RouteTable` interleaves the critical sections freely. A supervisor that leaves the registry before its turn is skipped by `RouteStarts.Fleet.StartAndWait`, but the results about whole calls exclude it.
- The backoff durations between watch attempts.
- The identity of the policy object in the record of a decision.
- A supervisor that is started again after it was stopped: the registry never does this, and `WatchLoop` runs one loop. `WatchReadiness` allows it.
- The order in which maps are iterated: loops over maps take any order, and results that would show it are sets.
- `CompareMatches` is a position per type and payload, injective where a law needs it; booleans and the byte-wise fallback for types that cannot be ordered are positions too.
- Canonical JSON, regular expressions, timestamps and quantities as text: a match carries its canonical payload and its exact number.
- The text of a sum of numbers or quantities: the result is the exact rational, once its text has been found to convert.
- The quantity parser of Kubernetes: a quantity is a whole number of billionths, as its conversion requires; a number that a sum or a mean writes out has no exponent.
- Accounting of the bytes of produced values after the aggregates are reduced.
- White space outside ASCII around a path that does not start with a brace, which only decides between two error kinds.
- Validation of admission requests and most limit profiles: independent bound checks.
- SelectionExecutor.Executor.Execute: does not model the page observer, nor the lister's own second check of the permit.
- RouteRegistry.Registry.Replace: the two answers of the tracker are inputs, because the tracker has its own lock.
