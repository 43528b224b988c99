# Verified model of milestone-operator

milestone-operator watches the objects a Milestone or ClusterMilestone depends
on and records, in the owner's status, whether they are all ready. This project
models its three layers and proves what they promise.

**The watcher registry** keeps one informer per group-version-kind for all
owners that need it. `SubscriberIndex.dfy` and `Registry.dfy` hold the index and
the critical sections as classes over the program's own maps;
`RegistryProtocol.dfy` is the small-step system in which Subscribe calls
(leaders, followers, cancellations, panics) interleave with everything else.
`RegistryRuns.dfy` is what holds in all its runs, `RegistryPass.dfy` what one
owner's subscription pass leaves behind in any of them, and
`RegistryRetries.dfy` which starts an invalidation leaves behind.

**The reconcile pipeline** turns a spec into a stored status: `Normalize.dfy`,
`Subscriptions.dfy`, `Reducer.dfy`, `Membership.dfy`, `NotReady.dfy`,
`ErrorText.dfy`, `Evaluation.dfy`, `Status.dfy`, `Reconcile.dfy`. The merge patch
is in `MergePatch.dfy`, `JsonKeys.dfy`, `StatusPatch.dfy`; `StatusCodec.dfy` and
`Settling.dfy` close the loop through the API server, and `Rewording.dfy` says
when it is quiet while a watch fails. `Evaluator.dfy` is the command-line
evaluator's view of one dependency, `Report.dfy` its report and the agreement
with the operator from a spec on. `OwnerLifecycle.dfy` is the finalizer protocol
and the code that takes its steps.

**Two state machines beside it**: `CrdWatcher.dfy`, and the discovery cache in
`Resolver.dfy` and `ResolverRuns.dfy`. `Recovery.dfy` runs them beside the
registry: what one call of the watcher leaves true for the owners it wakes.

## Conventions

- A string holds one char per byte, so lengths, cuts and order are byte-wise.
- Libraries the program calls enter as data: an object carries the answer
  kstatus gives for it, a selector carries its matching function and its parse
  error, an `Attempt` what a factory start meets, `Pages` what a list returns.
- A Go map iteration is a loop that picks any remaining key. `sort.Slice`
  promises only some sorted permutation; `sort.SliceStable` is a function.
- A slice is nil, or allocated and possibly empty; the two differ in comparisons.
- int32 counters wrap. Times are integers, in a status whole seconds.
- In the protocol a call, its sentinel and its entry share one number, because a
  Subscribe call creates at most one of each.

## Where the code does less than its words

- `jsonKeysOf` skips a field tagged `"-,"`, which encoding/json writes under the
  key `-` (`JsonKeys.DashIsMissed`), and lists a tag name that encoding/json
  rejects, writing the field's own name instead (`JsonKeys.MalformedIsMissed`).
  Where all names are accepted the derived keys cover all that can be written
  iff no field tagged `"-,"` lies above all others so tagged; where two fields
  share a name at the least depth the library writes neither, and the derivation
  lists one key too many (`JsonKeys.KeysCover`).
- The evaluator counts an object twice when a ClusterMilestone lists `""` beside
  other namespaces (or one namespace twice, which the set type of the field at
  `api/v1/shared_types.go:104` excludes), and only then
  (`Evaluator.ProperExactly`). Ready and Reason still agree, counters do not
  (`Evaluator.SameVerdict`).
- `InvalidateGroupKind` of the discovery cache does not reach what a call under
  way has already been told. A query without a version asks twice, first which
  version is preferred and then what that version serves. Later hits rest on
  later replies only, however the run goes on, iff no call held an answer, nor,
  for such a query, a version (`ResolverRuns.FreshExactly`; the shortest stale
  runs are `ResolverRuns.StoredPastInvalidation` and
  `ResolverRuns.VersionPastInvalidation`).
- `InvalidateGroupKind` of the registry promises an immediate retry from a clean
  state, but reaches no start under way. A caller that comes later may be handed
  its failure, by the cooldown or by following it, unless none was inside the
  factory, or out of it with an error and its sentinel still in the map
  (`RegistryRetries.RetryExactly`); and its informer may be installed later,
  unless none was inside the factory or about to install
  (`RegistryRetries.CleanSlateExactly`). Both conditions are exact.
- A failed informer start is worded differently while it cools down: the text
  of an error that keeps coming changes when its cooldown begins and back when
  it has passed, for ever (`Registries.RewordsForEver`). Two consecutive
  reconciles meet the same errors iff every desired kind is steady
  (`Subscriptions.SameErrorsExactly`), and the second is quiet iff the same
  watches fail and what the caps leave of the Stalled message is the same
  (`Rewording.QuietExactly`).
- When an Established CRD changes its kind, only the new kind is invalidated
  (`CrdWatchers.ReplacedKindIsKept`).
- Past 2^31-1 members the counters wrap: a dependency reads as empty iff the
  number of its members is a multiple of 2^32 (`Reducer.EmptySetExactly`), and
  what Ready then means is `Reducer.ReadyWraps`.
- Shutdown clears informers and counts but not the index, so the agreement of
  the maps is stated for the runs up to it (`RegistryRuns.MapsAgree`).

## Model

| member | source | states |
|---|---|---|
| `RegistryRuns.MapsAgree` | internal/watcher/registry.go:156-258 | in every state of every interleaving before shutdown: informers, refcount and index have the same GVKs, each count is the number of distinct owners and at least 1, the two index maps are exact inverses, every subscriber is stored under its own owner, and no GVK both runs and has a failure on record |
| `RegistryRuns.OneLeader` | internal/watcher/registry.go:165-229 | one leader per GVK; the sentinel in the map is its own, so its cleanup deletes that one; while it starts no informer for the GVK is installed, so installing overwrites none |
| `RegistryRuns.NoStrandedFollower` | internal/watcher/registry.go:165-215 | a waiting follower's sentinel is closed or belongs to a call for the same GVK that can still move by itself, panics included; at most three moves of that call release the follower |
| `RegistryRuns.NilReturn` | internal/watcher/registry.go:156-241 | a Subscribe that returned nil was registered at some step right after which the informer ran and the index held exactly the subscriber passed |
| `RegistryRuns.StoppedOnce` | internal/watcher/registry.go:213-228 | at all times, shutdown included, each entry a start returned is in exactly one of four places (held by its leader, installed, awaiting one invalidation's Stop, stopped) and is stopped at most once |
| `RegistryRuns.NothingLeaks` | internal/watcher/registry.go:297-383 | when all calls have returned and all Stops are done, before shutdown, an entry not serving a subscriber has been stopped exactly once |
| `RegistryRuns.CooldownHolds` | internal/watcher/registry.go:156-228 | after a start failed at t, nobody is inside or enters the factory for that GVK before t plus the cooldown, unless its group and kind were invalidated in between |
| `RegistryRuns.OthersCannotInterfere` | internal/watcher/registry.go:245-327 | while no step touches an owner's subscription, no other owner's or call's step changes its row, nor stops or replaces the informer serving it |
| `RegistryRuns.FollowerRegisters` | internal/watcher/registry.go:187-199 | a follower whose leader succeeded goes round again and is registered with its own subscriber by its next two moves, as long as the informer runs |
| `RegistryRuns.CallLife` | internal/watcher/registry.go:156-228 | the moves a Subscribe call can make, phase by phase; it keeps its GVK and subscriber throughout |
| `RegistryRuns.NobodyStuck` | internal/watcher/registry.go:165-228 | in every phase a call can make each move that depends on itself, its context or the factory, and where it leads; a follower is released exactly by a closed sentinel |
| `RegistryPasses.PassSubscribes` | internal/controller/reconciler.go:237-304 | in any run, starts in flight, invalidations and other owners' calls included: at the end of an owner's pass its rows are exactly those of the desired GVKs whose call was registered after the last invalidation of their kind in the pass, with exactly the subscribers passed; without one that is whose call returned nil, and a GVK held before and still desired succeeds and keeps its informer |
| `RegistryPasses.PassDelivers` | internal/controller/reconciler.go:237-304 | right after a pass, in any run, an event reaches the owner exactly if its call on the kind is still registered and some desired dependency on it admits the object |
| `RegistryRetries.RetryExactly` | internal/watcher/registry.go:297-305 | after an invalidation everyone who then takes the lock and returns another start's failure, by the cooldown or from the sentinel followed, does so for a start begun since, in every continuation, iff no start was inside the factory, or out of it with an error and its sentinel still in the map |
| `RegistryRetries.FailsAfresh` | internal/watcher/registry.go:156-228 | a call that arrives after an invalidation and fails, in whatever way, returns the very error of a start begun since, unless one was under way then |
| `RegistryRetries.CleanSlateExactly` | internal/watcher/registry.go:288-327 | after an invalidation whatever runs for the kind was started since, in every continuation, iff no start was inside the factory or out of it with an informer still to install |
| `RegistryProtocol.SingleFlightHolds` | internal/watcher/registry.go:165-229 | every step of every thread keeps the single-flight invariant |
| `RegistryProtocol.ConservedHolds` | internal/watcher/registry.go:213-359 | every step keeps each entry in exactly one place, with its Stop count |
| `Registries.Registry.Subscribe` | internal/watcher/registry.go:156-230 | a Subscribe nobody interferes with: new state and error as the specification function says, in the running, cooling, started and failed cases |
| `Registries.SubscribeSays` | internal/watcher/registry.go:156-230 | nil iff the informer runs, or no failure is cooling down and the factory delivers; what each outcome leaves in every map, and both error texts word for word |
| `Registries.CooldownSays` | internal/watcher/registry.go:156-164 | the cooldown is the configured one, else the sync timeout, else 30 seconds; always positive |
| `Registries.Registry.EnterSubscribe` | internal/watcher/registry.go:166-198 | the first critical section: registered, cooling down, follower of the sentinel found, or leader with its own |
| `Registries.EnterSays` | internal/watcher/registry.go:166-198 | registered iff the informer runs, cooling down iff a failure is younger than the cooldown, else following the start under way or leading; which maps change in each case |
| `Registries.Registry.RegisterLocked` | internal/watcher/registry.go:234-241 | the count grows only for an owner not yet registered; the row is replaced |
| `Registries.Registry.UnsubscribeLocked` | internal/watcher/registry.go:365-383 | drops one owner; stops and forgets the informer exactly when the count reaches zero |
| `Registries.Registry.UnsubscribeAll` | internal/watcher/registry.go:252-258 | the loop amounts to dropping the owner from everything it holds at once, stopping exactly what only it held |
| `Registries.Registry.InvalidateGroupKind` | internal/watcher/registry.go:297-327 | detaches, uncounts and unindexes every informer of the group and kind, forgets their failures, and hands back exactly the detached entries |
| `Registries.Registry.Shutdown` | internal/watcher/registry.go:347-359 | stops everything running and clears informers and counts, but not the index |
| `Registries.Registry.Dispatch` | internal/watcher/registry.go:385-393 | wakes exactly the owners subscribed to the GVK whose matchers admit the object, once each |
| `Registries.RegisterAgrees` | internal/watcher/registry.go:234-241 | registering on a running or just installed informer re-establishes the agreement of all maps |
| `Registries.DropAgrees` | internal/watcher/registry.go:252-258 | an owner letting go of any GVKs it holds keeps the agreement; released are exactly those it held alone |
| `Registries.LeavesSays` | internal/watcher/registry.go:252-258 | an owner letting go of everything loses its own rows only; an informer goes on iff somebody else is subscribed |
| `Registries.InvalidateSays` | internal/watcher/registry.go:288-327 | exactly the kind's failures are forgotten, its informers detached and handed back, and the rows of those cleared |
| `Registries.InvalidateAgrees` | internal/watcher/registry.go:297-327 | invalidation keeps the agreement |
| `Registries.SameWords` | internal/watcher/registry.go:172-213 | two failed Subscribes return the same text iff both or neither were cut short by the cooldown and the factory's error behind them is the same |
| `Registries.NextWords` | internal/watcher/registry.go:156-213 | the next Subscribe to a GVK returns the same as the last iff it is steady: it succeeded, or fails again, both times or neither while cooling down, with the same error behind it |
| `Registries.RewordsForEver` | internal/watcher/registry.go:172-176 | a start that keeps failing with one error is reworded when its cooldown begins and back when it has passed |
| `SubscriberIndexes.AddRows` | internal/watcher/subscriber_index.go:91-102 | Add changes one row of the (GVK, owner) table and keeps the two maps inverse |
| `SubscriberIndexes.RemoveRows` | internal/watcher/subscriber_index.go:105-120 | Remove clears one row and nothing else |
| `SubscriberIndexes.ClearRows` | internal/watcher/subscriber_index.go:169-184 | ClearGVK clears every row of the GVK and nothing else |
| `SubscriberIndexes.StaysTight` | internal/watcher/subscriber_index.go:91-184 | no operation leaves an empty inner map behind |
| `SubscriberIndexes.Matches` | internal/watcher/subscriber_index.go:60-70 | the matcher loop decides whether some matcher, or no matcher at all, admits |
| `SubscriberIndexes.SubscriberIndex.Add` | internal/watcher/subscriber_index.go:91-102 | the maps after Add |
| `SubscriberIndexes.SubscriberIndex.Remove` | internal/watcher/subscriber_index.go:105-120 | the maps after Remove |
| `SubscriberIndexes.SubscriberIndex.ClearGVK` | internal/watcher/subscriber_index.go:169-184 | the loop over owners amounts to unlinking them all |
| `SubscriberIndexes.SubscriberIndex.Subscribers` | internal/watcher/subscriber_index.go:125-140 | exactly the owners with a matching row, no duplicates |
| `SubscriberIndexes.SubscriberIndex.GVKsByOwner` | internal/watcher/subscriber_index.go:187-199 | exactly the GVKs the owner has a row for, no duplicates |
| `Subscriptions.ReconcileSubscriptions` | internal/controller/reconciler.go:237-304 | with nothing interleaved and no start in flight: the owner ends with exactly the desired GVKs whose Subscribe went through and exactly its matchers, other owners' rows and the informers of still desired GVKs are untouched, errors are one per dependency on each failed GVK, in the order the kinds are first desired |
| `Subscriptions.PassErrorsSay` | internal/controller/reconciler.go:264-294 | an error is returned iff some desired dependency's kind fails to be subscribed to, with that dependency's name, its kind, reason WatchSetupFailed and the text of the failure |
| `Subscriptions.OrderSays` | internal/controller/reconciler.go:246-262 | the kinds are taken in the order in which they are first desired |
| `Subscriptions.SameErrorsExactly` | internal/controller/reconciler.go:264-304 | the next pass returns the same errors, text for text, iff every desired GVK is steady |
| `Subscriptions.DeliversExactly` | internal/controller/reconciler.go:237-304 | afterwards an event reaches the owner exactly if the GVK was reached and some desired dependency on it admits the object, and every other owner exactly as before |
| `Subscriptions.SubscriberAdmits` | internal/watcher/subscriber_index.go:39-70 | one subscriber carrying all matchers of a GVK matches exactly what some dependency admits |
| `Subscriptions.SubscribeKeeps` | internal/controller/reconciler.go:270-294 | each Subscribe of the pass leaves everything but its own row and informer alone |
| `Subscriptions.GroupByGVK` | internal/controller/reconciler.go:246-262 | grouping keeps every dependency, in spec order, under its GVK, each GVK once |
| `OwnerLifecycle.FinalizerGuards` | internal/controller/reconciler.go:101-128 | in every run, for any conflicts, lost answers, stale snapshots and recreations: an owner holding a subscription is stored with the finalizer |
| `OwnerLifecycle.GoneForGood` | internal/controller/reconciler.go:219-235 | once a deleted incarnation was unsubscribed it never holds a subscription again; only a later incarnation may |
| `OwnerLifecycle.HeldIsStored` | internal/controller/reconciler.go:109-135 | a snapshot read alive and finalized is still stored, finalized and not finalised by the operator, however stale |
| `OwnerLifecycle.StepKeeps` | internal/controller/reconciler.go:101-235 | every step of operator, users and server keeps the invariant |
| `OwnerLifecycle.Finalize` | internal/controller/reconciler.go:219-235 | without the finalizer nothing; with it the owner lets go of all, others of nothing, informers it held alone are stopped, and only conflicts are swallowed |
| `OwnerLifecycle.ReconcileObject` | internal/controller/reconciler.go:101-202 | which of finalise, add finalizer, reconcile runs; what each does to the owner's GVKs and sends as an update; status changes only in the last |
| `OwnerLifecycle.ReconcileIsSteps` | internal/controller/reconciler.go:101-235 | what ReconcileObject does are steps of the finalizer protocol, from the world its snapshot was read in to one holding exactly the GVKs the registry then has for the owner and storing the update if it went through: whoever is subscribed is stored with the finalizer |
| `Normalize.NormalizeMilestone` | internal/membership/normalize.go:33-73 | dependencies and errors are those of the entries taken one by one, in spec order; every dependency admits exactly the objects of the Milestone's namespace that its entry's selector matches, with the entry's policies and the resolver's kind and scope |
| `Normalize.NormalizeClusterMilestone` | internal/membership/normalize.go:78-135 | as above, as if namespaces were listed afresh for every entry, over the namespaces named, those the selector lists, or all; no selector is listed again once that succeeded |
| `Normalize.MilestoneEntrySays` | internal/membership/normalize.go:39-70 | an entry resolves iff its kind does and is namespaced and its selector parses; what it then admits and carries; otherwise what its error says |
| `Normalize.ClusterEntrySays` | internal/membership/normalize.go:86-132 | an entry resolves iff its kind does, its namespaces can be chosen (not at all for a cluster-scoped kind, by name or by selector, not both) and its selector parses; what it then admits; otherwise what its error says |
| `Normalize.BuildNamespaceMatcher` | internal/membership/normalize.go:179-204 | the memoised matcher is the one listing afresh gives; failures are not memoised |
| `Normalize.Partitions` | internal/membership/normalize.go:33-135 | each spec entry goes to exactly one of the two lists, both in spec order |
| `Normalize.EachNameOnce` | internal/membership/normalize.go:33-135 | with distinct names each is resolved once or failed once |
| `Normalize.MilestoneKeepsNames` | internal/membership/normalize.go:33-73 | an entry keeps its name, in its dependency or in its error |
| `Normalize.ClusterKeepsNames` | internal/membership/normalize.go:78-135 | the same for ClusterMilestone entries |
| `Membership.RollupsOf` | internal/membership/membership.go:117-136 | adds one Unknown stand-in per named failure without a rollup, the first error of a name winning |
| `Membership.FirstNamedIsFirst` | internal/membership/membership.go:117-136 | the stand-in's error is the earliest of its name |
| `Membership.StandInsSay` | internal/membership/membership.go:117-136 | a name has a rollup iff it had one or an error bears it; its own is kept, a stand-in is Unknown with the earliest error's target and reason and no members |
| `Evaluation.ListAndCompute` | internal/controller/reconciler.go:347-372 | a listing's admitted objects, computed, in listing order; its failure passed on |
| `Evaluation.EvaluateDependencies` | internal/controller/reconciler.go:311-345 | rollups, not-ready list and list errors dependency by dependency; one that failed upstream is not listed |
| `Evaluation.FailedDependencyReasons` | internal/controller/reconciler.go:374-390 | the earliest reason under each name |
| `Evaluation.MembersSay` | internal/controller/reconciler.go:347-372 | the members are the admitted objects in listing order, each computed |
| `Evaluation.FailureSays` | internal/controller/reconciler.go:318-342 | a dependency failed upstream, or whose listing failed, is Unknown with that reason and lists nothing; only the listing's failure is a new error |
| `Evaluation.OrderIrrelevant` | internal/controller/reconciler.go:311-372 | rollups and list errors are the same, and the not-ready entries the same set, for every order of every listing |
| `Evaluation.SnapshotIsConsistent` | internal/controller/reconciler.go:513-519 | listings of one cluster state give equal entries for equal identities |
| `Reducer.Compute` | internal/status/kstatus.go:35-70 | identity, status, first non-empty reason and message of an object, for each kind of kstatus answer; suspended iff spec.suspend is the bool true |
| `Reducer.FineExactly` | internal/status/kstatus.go:29-31 | an object does not block iff its kstatus answer is a result Current and it is not suspended under NotReady |
| `Reducer.ReduceDependency` | internal/status/reducer.go:44-103 | counters as tallied in int32, and the verdict on them |
| `Reducer.RollupSays` | internal/status/reducer.go:44-103 | Ready and Reason by the members' status texts: failures before suspension before progress before anything unknown |
| `Reducer.SummarySays` | internal/status/reducer.go:44-70 | within int32 each counter is the number of members with that status text, Unknown that of all other texts |
| `Reducer.TallyWraps` | internal/status/reducer.go:44-70 | each counter is the true count, wrapped to int32 |
| `Reducer.RollupConserves` | api/v1/shared_types.go:171-178 | Total is the sum of the six buckets, always in int32 and as plain numbers when the members fit |
| `Reducer.RollupPermutes` | internal/status/reducer.go:44-103 | a rollup is the same for every order of the members |
| `Reducer.RollupMeaning` | internal/status/reducer.go:44-103 | Ready=True iff non-empty with no blocking member, or empty with policy Ready; when it is False; when the reason is EmptySet or ResourcesSuspended |
| `Reducer.BlocksWhy` | internal/status/kstatus.go:29-31 | some member blocks iff one is in a bucket other than Current, or suspended under NotReady |
| `Reducer.EmptySetExactly` | internal/status/reducer.go:44-60 | for any number of members the reason is EmptySet iff that number is a multiple of 2^32 |
| `Reducer.ReadyWraps` | internal/status/reducer.go:44-103 | for any number of members Ready=True iff the count reads as zero under policy Ready, or no blocking bucket's count reads as positive in int32 |
| `Reducer.ReduceOwner` | internal/status/reducer.go:109-134 | verdict, reason and sorted message are one function of the rollups whatever the map order |
| `Reducer.OwnerVerdictSays` | internal/status/reducer.go:109-134 | False iff some rollup is False, the message listing exactly those names in increasing order; True iff all are; else Unknown; reasons and words |
| `Reducer.SummarizeOwner` | internal/status/reducer.go:139-152 | the owner summary is the int32 sum of the rollups whatever the map order |
| `Reducer.SumOfAny` | internal/status/reducer.go:139-152 | the sum does not depend on which rollup is taken first |
| `Reducer.OwnerSummaryExact` | internal/status/reducer.go:139-152 | while all members together fit an int32, every owner counter is the plain sum and Total is the sum of the buckets |
| `NotReady.NotReadyResourcesOf` | internal/controller/reconciler.go:476-504 | one entry per blocking member, relabelled when suspension alone blocks it |
| `NotReady.ListedSays` | internal/controller/reconciler.go:488-502 | an entry carries its member's identity and status, its reason and message unless only suspension blocks it, then that |
| `NotReady.NotReadyMembers` | internal/controller/reconciler.go:476-504 | the list holds exactly the blocking members, and is empty iff none blocks |
| `NotReady.IdOrder` | internal/controller/reconciler.go:534-549 | the comparator is a strict total order on identities |
| `NotReady.IdLtSays` | internal/controller/reconciler.go:534-549 | it is the lexicographic order of group, kind, namespace, name, version |
| `NotReady.DedupeAndSortResources` | internal/controller/reconciler.go:520-551 | nil for nothing, else the canonical list, whichever sorted order the sort picks |
| `NotReady.CanonIs` | internal/controller/reconciler.go:520-551 | one entry per identity, the first one, in strictly increasing order |
| `NotReady.CanonIgnoresOrder` | internal/controller/reconciler.go:513-519 | the list depends on which entries there are, not on order or repetition, when equal identities carry equal entries |
| `NotReady.CapIs` | internal/controller/reconciler.go:506-511 | capping keeps exactly the first cap entries, all if they fit, and Truncated says exactly whether identities were cut |
| `ErrorText.TruncateWithEllipsis` | internal/controller/reconciler.go:574-587 | the cut loop finds the last rune start that fits |
| `ErrorText.TruncatedBounds` | internal/controller/reconciler.go:574-587 | at most maxBytes bytes on any input; truncating twice is truncating once |
| `ErrorText.TruncatedKeeps` | internal/controller/reconciler.go:567-587 | valid UTF-8 stays valid; a cut keeps the longest valid prefix that leaves room for the ellipsis, at most 3 bytes short of the budget |
| `ErrorText.TruncatedSays` | internal/controller/reconciler.go:574-587 | on any bytes: unchanged if they fit, empty without room for the ellipsis, else cut at the last possible rune start and the ellipsis appended |
| `ErrorText.RuneLenSays` | internal/controller/reconciler.go:569-573 | what counts as one well-formed rune, by lead byte, continuation bytes and the code point it encodes, as section 3 of RFC 3629 has it |
| `ErrorText.FlatAppends` | internal/controller/reconciler.go:556-567 | flattening byte by byte: a line break becomes a space, the line feed of a CRLF nothing, any other byte stays |
| `ErrorText.SanitiseErrText` | internal/controller/reconciler.go:556-567 | the three replacements amount to one pass turning each line break, CRLF as one, into a space |
| `ErrorText.SanitisedIs` | internal/controller/reconciler.go:553-567 | one line, at most 256 bytes, valid when the error is, unchanged when already short and flat |
| `Statuses.StatusBase.ApplyStatus` | internal/controller/reconciler.go:392-406 | the whole new status as a function of its arguments and the previous conditions |
| `Statuses.AppliedSays` | internal/controller/reconciler.go:392-406 | the new status field by field: generation, summary, dependsOn, capped resources, Ready and Stalled with their transition times, every other condition kept |
| `Statuses.StatusBase.ApplyStalledFromErrors` | internal/controller/reconciler.go:600-642 | the Stalled condition set, with reason and assembled message |
| `Statuses.StatusBase.SetStatusCondition` | internal/controller/reconciler.go:589-598 | update by type, else append; the transition time moves only with the status |
| `Statuses.SettingSays` | internal/controller/reconciler.go:589-598 | the first condition of the type is replaced in place, or one appended; no other moves; the transition time stays exactly while the status does |
| `Statuses.SortedDependencyStatuses` | internal/controller/reconciler.go:410-420 | nil for nothing, else one entry per name in increasing order, whatever the map order |
| `Statuses.InNameOrderIs` | internal/controller/reconciler.go:408-420 | exactly the map's values, strictly increasing by name |
| `Statuses.StalledIs` | internal/controller/reconciler.go:600-642 | True iff there were errors; the reason is that of an error with the least name; the message is at most 4096 bytes |
| `Statuses.StalledSays` | internal/controller/reconciler.go:600-642 | the message word for word: the errors stably by name, the first cap of them as group.version/kind [reason]: flattened text, then how many more, cut to 4096 bytes |
| `Statuses.StalledTextsValid` | internal/controller/reconciler.go:569-573 | message and reason are valid UTF-8 for valid error texts, cut or not |
| `Statuses.UpsertFinds` | internal/controller/reconciler.go:589-598 | setting a condition is seen under its type and no other |
| `Statuses.AppliedIsFixpoint` | internal/controller/reconciler.go:131-195 | applied to its own output with the same inputs at a later time, the status is the same to the last field |
| `Statuses.BumpPatches` | internal/controller/reconciler.go:650-668 | a new generation is always patched |
| `Statuses.EqualConditions` | internal/controller/reconciler.go:650-668 | statuses that compare equal have the same conditions but for times and generations |
| `Statuses.EqualExactly` | internal/controller/reconciler.go:650-668 | two statuses compare equal iff generation, summary, dependsOn, resources and truncated are the same and the conditions pairwise in type, status, reason and message |
| `Statuses.AppliedShape` | internal/controller/reconciler.go:392-406 | list fields are nil rather than empty, conditions never empty, at most cap resources listed, Truncated exact |
| `Reconcile.ReconcileActive` | internal/controller/reconciler.go:131-202 | the new status; a patch iff it differs from the stored one in anything but times and condition generations; notification iff a stored patch changed Ready; requeue iff there were errors; only a conflict is swallowed |
| `Reconcile.Conclude` | internal/controller/reconciler.go:172-202 | the decision after the status is computed, likewise |
| `Reconcile.ReadyExactly` | internal/controller/reconciler.go:134-170 | Ready=True iff there is a dependency, nothing failed at any stage, and each admits only objects that kstatus calls Current and suspension does not hold back, or none under policy Ready |
| `Reconcile.NotReadyExactly` | internal/controller/reconciler.go:311-345 | before the cap, the resources listed are exactly those of objects an evaluated dependency admits and that are not fine, one per identity, each with the status, reason and message its object gives, in lexicographic order |
| `Reconcile.ReadyForSpec` | internal/controller/reconciler.go:134-170 | the same in terms of the spec: entries exist, all resolved, all kinds watched and listed, all satisfied |
| `Reconcile.ReadyMeansClean` | internal/controller/reconciler.go:392-406 | Ready=True implies Stalled=False, no not-ready resources, not truncated |
| `Reconcile.FailedIsUnknown` | internal/membership/membership.go:98-136 | a dependency any error names is reported Unknown |
| `Reconcile.EveryEntryReported` | internal/controller/reconciler.go:392-420 | dependsOn has exactly the names of dependencies and failures, strictly increasing, a failed one with the reason of its first failure |
| `Reconcile.SpecReported` | api/v1/shared_types.go:206-208 | dependsOn has exactly one entry per spec entry |
| `Reconcile.SpecGivesUpstream` | internal/controller/reconciler.go:134-160 | normalising a valid spec and subscribing yields what the verdict lemmas assume |
| `Reconcile.OneErrorPerName` | internal/controller/reconciler.go:134-170 | through resolution, subscription and listing no name fails twice |
| `Reconcile.SubscribeErrorNames` | internal/controller/reconciler.go:270-294 | a failed subscription is reported once for each dependency on its GVK and for no other |
| `Reconcile.SummaryConserves` | api/v1/shared_types.go:298-303 | the owner Total is the number of members counted and the sum of the six buckets, while they fit an int32 |
| `Reconcile.SecondReconcileIsQuiet` | internal/controller/reconciler.go:131-195 | unchanged inputs, listed in any order, give the stored status again: no patch and no notification |
| `Rewording.QuietExactly` | internal/controller/reconciler.go:131-195 | with the same spec, resolution and objects but watches failing anew, the next reconcile has nothing to patch iff the same watches fail and the Stalled message is the same |
| `Rewording.SteadyWatchesQuiet` | internal/controller/reconciler.go:131-195 | in terms of the registry: the errors are equal iff every desired GVK is steady, and then the next reconcile is quiet |
| `JsonKeys.JsonKeysOf` | internal/controller/status_patch.go:42-74 | the recursive loop computes the specified keys, or panics where an exported field has no name |
| `JsonKeys.KeysCover` | internal/controller/status_patch.go:27-74 | where encoding/json accepts all tag names: the derived keys cover all the type can marshal, equal names at one depth dropped, iff no reachable field tagged "-," lies above all others so tagged; all of them can be marshalled iff every name has a topmost field |
| `JsonKeys.DashIsMissed` | internal/controller/status_patch.go:60-63 | a field tagged "-," is emitted and not derived |
| `JsonKeys.MalformedIsMissed` | internal/controller/status_patch.go:60-72 | a tag name encoding/json rejects is derived, and the field's own name, which is written, is not |
| `StatusPatches.StatusKeysDerived` | internal/controller/status_patch.go:23-29 | for MilestoneStatusBase the derivation gives its seven keys |
| `StatusPatches.StatusKeysEmitted` | internal/controller/status_patch.go:23-29 | those seven are exactly the keys encoding/json may write for it |
| `StatusPatches.MarshalledKeys` | internal/controller/status_patch.go:23-29 | a marshalled status has no other key |
| `StatusPatches.StatusMergePatch` | internal/controller/status_patch.go:86-105 | the marshalled status, null under every derived key it lacks |
| `StatusPatches.PatchReplacesExactly` | internal/controller/status_patch.go:76-105 | applied by section 2 of RFC 7386, the stored status becomes exactly the new one without nulls iff it had only status keys and its summary only the eight counters |
| `StatusPatches.PatchLeavesRest` | internal/controller/status_patch.go:76-105 | nothing outside the status is touched |
| `MergePatches.PatchTwice` | internal/controller/status_patch.go:76-80 | applying any merge patch twice is applying it once |
| `MergePatches.MergeSays` | internal/controller/status_patch.go:76-80 | section 2 of RFC 7386, key by key: null removes, another value is merged into the old one, other keys stay |
| `StatusCodec.SurvivesExactly` | internal/controller/reconciler.go:569-573 | reading back what was stored gives the computed status iff no list was allocated but empty and all texts were valid UTF-8 |
| `StatusCodec.StatusWritten` | api/v1/shared_types.go:282-331 | the JSON written under each of the seven keys |
| `StatusCodec.CoercedIs` | internal/controller/reconciler.go:569-573 | a text survives being written iff it is valid UTF-8 |
| `Settling.ComputationSurvives` | internal/controller/reconciler.go:172-176 | from valid texts, the computed status is stored and read back unchanged |
| `Settling.LoopSettles` | internal/controller/reconciler.go:513-519 | compute, patch, store, read back, compute again: the second comparison finds nothing to patch, so the operator does not feed its own loop |
| `Settling.WatchLoopSettles` | internal/controller/reconciler.go:172-202 | the same with failing watches: compute, patch, store, read back, subscribe and compute again is quiet when every desired GVK is steady, and exactly when the same watches fail with the same Stalled message |
| `Evaluator.List` | internal/membership/evaluate.go:217-238 | all pages in order, or the failure |
| `Evaluator.EvaluateDependency` | internal/membership/evaluate.go:150-194 | the rollup of the members found; the members sorted, each marked blocking or not, or the error text and whether it was a denied list |
| `Evaluator.MarkedSays` | internal/membership/evaluate.go:183-194 | a member is marked blocking iff its object is not fine |
| `Evaluator.CollectedFirst` | internal/membership/evaluate.go:155-182 | what is collected, namespace by namespace from the first on: its objects, the kind filled in where a list left it out, admitted and computed; the first failure ends it |
| `Reports.Evaluate` | internal/membership/evaluate.go:89-144 | an owner-wide error aborts; otherwise the whole report: per entry members or error, status and the first recorded entry; drift iff the record is not stale and that entry differs from the live rollup in Ready or Reason; verdict, summary, recorded conditions and times |
| `Reports.EvaluateMilestone` | internal/membership/evaluate.go:57-71 | the report of a Milestone from its spec; there is none exactly without a resolver, or if an entry without a name did not resolve |
| `Reports.EvaluateClusterMilestone` | internal/membership/evaluate.go:73-87 | the report of a ClusterMilestone from its spec, likewise |
| `Reports.TargetSays` | internal/membership/evaluate.go:257-278 | the target shown: group, version, kind and namespaces of the spec, each selector as its text, <none> when empty, <error> when it does not parse |
| `Evaluator.SameRollup` | internal/membership/membership.go:11-15 | page by page, namespace by namespace, selector honoured or ignored, each admitted object shown once: the rollup is the operator's |
| `Evaluator.SameVerdict` | internal/membership/evaluate.go:150-194 | each admitted object shown at least once: Ready and Reason agree, and the rollups are equal iff none is shown twice |
| `Evaluator.ListsOnce` | internal/membership/evaluate.go:155-170 | where the namespaces listed fit the dependency every admitted object is covered, and once when they are proper |
| `Evaluator.ProperExactly` | internal/membership/evaluate.go:155-170 | no object of a namespaced kind is ever counted twice iff no namespace but "" stands twice and "" does not stand beside another |
| `Evaluator.EntriesFit` | internal/membership/evaluate.go:59-87 | the namespaces listed for an entry contain all its dependency admits |
| `Reports.MilestoneAgrees` | internal/membership/membership.go:11-15 | from any valid Milestone spec, where both see one cluster: the report has the operator's verdict, reason, message and summary, per entry its rollup and its members, those marked blocking the not-ready ones; and if that was recorded, nothing is stale or drifts and the recorded Ready condition is the reported verdict |
| `Reports.ClusterMilestoneAgrees` | internal/membership/membership.go:11-15 | the same from any valid ClusterMilestone spec whose namespace lists are proper |
| `Reports.RefinesOperator` | internal/membership/evaluate.go:89-144 | the agreement for what either kind's normalisation hands over |
| `Reports.NoDrift` | internal/membership/evaluate.go:116-136 | right after a recorded reconcile: not stale, each entry recorded as seen, no drift, the recorded Ready status, reason, message and summary |
| `Reports.ChangedVerdictShown` | internal/membership/evaluate.go:116-136 | against what a reconcile of some earlier world recorded for this generation, an entry it had drifts iff its live Ready or Reason is another |
| `CrdWatchers.CRDWatcher.Reconcile` | internal/controller/crd_watcher.go:97-148 | effects, failure and memory as specified; the memory changes only when the effects succeeded |
| `CrdWatchers.CRDWatcher.ApplyTransition` | internal/controller/crd_watcher.go:154-170 | both caches invalidated, then both wake loops, either failing |
| `CrdWatchers.InvalidatesFirst` | internal/controller/crd_watcher.go:154-170 | both caches are invalidated, discovery first and each at most once, before anybody is woken |
| `CrdWatchers.CRDWatcher.WakeOwners` | internal/controller/crd_watcher.go:196-234 | wakes for the listed owners that target the kind, or the list failure |
| `CrdWatchers.CrdEstablished` | internal/controller/crd_watcher.go:244-251 | whether some condition is Established=True |
| `CrdWatchers.ObservedSays` | internal/controller/crd_watcher.go:97-119 | what an observation amounts to: the kind of the CRD found and whether it is established; gone is not established |
| `CrdWatchers.AnyTargetMatches` | internal/controller/crd_watcher.go:253-260 | whether some target is the kind |
| `CrdWatchers.WakesExactly` | internal/controller/crd_watcher.go:196-234 | exactly the listed owners targeting the kind are woken |
| `CrdWatchers.FiresExactly` | internal/controller/crd_watcher.go:97-148 | in any run a call carries out exactly the effects (wired caches, listed owners that target it) of the kind that turned since the last call about that CRD that did not fail, and fails iff the CRD could not be read or a kind turned and its owners could not be listed; an unseen or recreated CRD is silent |
| `CrdWatchers.RetriesUntilDone` | internal/controller/crd_watcher.go:135-146 | the same observation fires again after a failure and not after a success, other CRDs in between |
| `CrdWatchers.FiresUntilFirstSuccess` | internal/controller/crd_watcher.go:135-146 | over any stretch of one observation every retry fires until the first success and none after |
| `CrdWatchers.NeverLeavesSilently` | internal/controller/crd_watcher.go:135-146 | over any run, an Established kind leaves the memory only in a call that first invalidated the caches wired and woke exactly the listed owners: those of that kind if it is gone, of the new kind if it was replaced |
| `CrdWatchers.ReplacedKindIsKept` | internal/controller/crd_watcher.go:121-127 | a kind replaced while Established is not itself invalidated |
| `Resolvers.Resolver.Resolve` | internal/discovery/resolver.go:113-163 | alone: the cached answer until it expires, else exactly what the server answers, stored only when positive |
| `Resolvers.Resolver.PreferredVersionOf` | internal/discovery/resolver.go:204-222 | the first group of the name decides: its preferred, else first version |
| `Resolvers.Resolver.InvalidateGroupKind` | internal/discovery/resolver.go:174-184 | drops every entry of the group and kind and no other |
| `Resolvers.AskIs` | internal/discovery/resolver.go:113-163 | an answer fits its query; the error is an outage iff a discovery call itself failed |
| `Resolvers.AskSays` | internal/discovery/resolver.go:113-163 | the server's answer: the version asked for, v1 for a core kind, or the one its first group of the name prefers; the first resource of the kind listed under it, namespaced iff that one is |
| `Resolvers.ErrorSays` | internal/discovery/resolver.go:113-163 | the error is an outage iff the groups were needed and failed, or the resources of the version failed |
| `ResolverRuns.HitIsGenuine` | internal/discovery/resolver.go:113-202 | in any interleaving a hit at T answers that very query, stored no earlier than T minus ttl: its version is the query's own or one a first reply preferred, its kind one a second reply listed under that version |
| `ResolverRuns.OneServerAnswers` | internal/discovery/resolver.go:113-163 | if both replies stem from one state of the server, the hit is that server's answer |
| `ResolverRuns.CallSays` | internal/discovery/resolver.go:113-163 | each step of a call: a hit ends it, a miss goes on with its version or asks for one, a reply takes it on exactly with the version or the kind the server gave, and otherwise ends it; no other call is touched |
| `ResolverRuns.CacheSays` | internal/discovery/resolver.go:165-202 | an entry is written only by a store of its key, with its own expiry, and removed only by an invalidation of its group and kind, or of all |
| `ResolverRuns.CacheFits` | internal/discovery/resolver.go:196-202 | every cached entry agrees with its key |
| `ResolverRuns.FreshExactly` | internal/discovery/resolver.go:174-184 | after an invalidation every reply behind a later hit was given after it, in every continuation, iff the ttl is negative, or no call then held an answer to the key nor, where the query leaves it open, a version |
| `ResolverRuns.FreshAfterInvalidation` | internal/discovery/resolver.go:174-184 | a hit after an invalidation was stored after it, its kind listed after it unless a call held an answer then, and its version given after it unless one held that |
| `ResolverRuns.StoredPastInvalidation` | internal/discovery/resolver.go:113-163 | the shortest run in which it fails for a query with a version: an answer given before is stored after and returned |
| `ResolverRuns.VersionPastInvalidation` | internal/discovery/resolver.go:113-163 | and for one without, no call holding an answer: a version preferred before outlives the invalidation |
| `Recovery.Recovers` | internal/controller/crd_watcher.go:154-170 | a call of the watcher that completes a transition and does not fail forgets the kind in the cache, then in the registry, then wakes every listed owner of it; from its wake on such an owner resolves it from later replies only, and every pass it makes leaves its rows exact, its failures those of later starts and what runs started later, but for what was under way then |
| `Recovery.CatchesUp` | internal/controller/reconciler.go:237-304 | what a pass begun after an invalidation leaves: exact row, fresh failures, fresh informer |

## Left out

- Liveness under fair scheduling or real time: stated as enabledness and as safety over all runs.
- Kubernetes clients, informers, REST mapping, the workqueue and controller wiring: abstract operations.
- kstatus, label-selector parsing and matching: uninterpreted, as the answers objects and selectors carry.
- Waking on an object's old labels: update events carry only the new object.
- Retrying list calls whose page token expired, and the reset of a stale REST mapper: one answer per call.
- Resolver errors wrapped around library errors: kept as one text and one flag.
- Recursive Go types reached through embedded pointers: `JsonKeys.GoType` is finite.
- Which tag names encoding/json rejects: a field says whether its own is accepted.
- Normalize.Resolve: one function for a whole spec; the resolver may answer two entries of one spec from different states of the server, ResolverRuns saying what each answer rests on.
- The API server's answer to a status patch: taken to be the patched object.
- API server defaulting and validation of a status: no part of this model.
- Settling.LoopSettles: takes the errors of the two reconciles as equal; when they are is Settling.WatchLoopSettles.
- OwnerLifecycle.FinalizerGuards: assumes snapshots never go back in time and that only the operator removes its finalizer; a restart of the operator is not modelled.
- Subscriptions.ReconcileSubscriptions: the method states the pass of an owner that meets no start in flight and no interleaved step; what a pass leaves behind in any run, starts in flight, invalidations and other owners included, is RegistryPasses.PassSubscribes.
- Registries.Registry.Subscribe: the method states a call that meets no start in flight; one that does waits for another thread, and its steps are those of RegistryProtocol.
- Reconcile.ReconcileActive: its Subscribe calls meet no start in flight; the status it computes is a function of their results, whatever the interleaving. Listings are one per dependency, not one per kind.
- OwnerLifecycle.ReconcileObject: as Reconcile.ReconcileActive; of an active reconcile it says only that it sends no update and leaves other owners alone, its status and subscriptions being Reconcile.ReconcileActive's.
- JSON text syntax: values are trees, and a time is kept as the time its RFC 3339 text denotes.
- Metrics, logging, timers, version reporting, the Flux notifier's own patch, tables, trees and completion: side channels or presentation.
