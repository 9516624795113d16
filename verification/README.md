# Verified model of the tunnel reconciliation controller

The controller keeps a Cloudflare tunnel's ingress rules and DNS records in step with labelled Docker
containers. Each cycle reads both sides, computes a change plan, checks it against a deletion guard, performs
it one request at a time while surviving failures, and carries tombstones of departed hosts into the next cycle.

This project models that loop and four smaller mechanisms beside it (connector activation, the debounced
trigger, the Docker event stream, host name normalization with the DNS fetch), and proves what they promise.
Stateful code is imperative Dafny (classes and loops) proved equal to a specification function; the theorems
are about those functions, over every input, every run, or every interleaving.

## Files

- `Text`, `Models`: strings as Python sees them; rules, records, plans, and the ownership classifier.
- `Ingress`, `MergeFacts`: the ordered merge of managed roots into the remote rule list.
- `Planner`, `PlannerLoops`, `PlanFacts`, `PlanTheorems`: what each host and record deserves, the loops that
  compute it, and theorems about one plan.
- `Executor`, `Effects`, `BlastRadius`, `Failures`: the guard and the requests, with any outcome for each of them, and
  what the log and the tombstones make of failures.
- `Sync`, `Runs`: one cycle as a method, and safety over whole runs of the controller's memory.
- `Verdicts`: every decision of the planner and the cycle as a table over rules, records, tombstones, clock and
  settings alone, and the requests that carry it out.
- `Lockstep`, `ReadOrder`: whether the two loops of the planner agree, and whether the order of records matters.
- `Aftermath`, `Scope`, `Convergence`, `Guarded`, `Fixpoint`: what a cycle leaves behind, in the part of the zone it
  reads and in the rest, and when the next cycle has nothing to do, also after the sudden-drop guard intervened.
- `EndToEnd`: the same from fetch to fetch, in whatever order records are delivered.
- `Goals`, `Departures`, `Orphans`: what a smooth cycle achieves, a departure from burial to silence, and what
  failed requests leave behind.
- `Ownership`: several controllers in one zone, taking turns or interleaving single requests from stale plans.
- `Activation`, `Debounce`, `EventStream`, `Hostname`, `Fetch`: the smaller mechanisms.

## Findings

- Repeating a failure-free cycle (`src/tunnel_sync/application/executor.py:54-58`) is silent exactly when the
  first one adopted the record of no preserved manual root that differs from the discovered service or origin
  request (`src/tunnel_sync/domain/planner.py:79-106`), deleted no root with a twin behind the first
  hostname-less rule (`src/tunnel_sync/domain/ingress.py:21-30`), and had nothing spared by the sudden-drop
  guard (`src/tunnel_sync/application/sync.py:342-349`): the guard intervenes once, and the repeated cycle
  deletes what it spared. See `Fixpoint.NextCycleIsSilent`, with a cycle for each exception after which the next
  one sends requests again.
- When the PUT of the routes is refused while the deletion of the host's record gets through, the evidence that
  the root was ours is gone, and every later plan keeps that root (`src/tunnel_sync/domain/planner.py:160-173`).
  `Orphans.StuckExactly` says that this is the only way for one root and one record to stay, whatever else
  fails, and `Orphans.StuckInGeneral` has the condition for any number of them; `Orphans.OrphansExist` is such
  an input.
- The sudden-drop guard is spent by a cycle that discovers nothing and then fails to read Cloudflare, because
  the service list is replaced before those reads (`src/tunnel_sync/application/sync.py:246-260`;
  `Runs.GuardCanBeSpent`). `Runs.DepartureExactly` says exactly what is deleted after a departure.
- A failed write of the token file that nevertheless stored the whole token is not followed by a restart, while
  reads succeed and the token stays the same (`src/tunnel_sync/application/executor.py:96-99`;
  `Activation.TornWriteIsForgotten`); `Activation.LostExactly` says over every run when a restart stays lost.
- `docs/architecture-and-safety.md:68` says that a failed restart is not repeated while the token is unchanged.
  The code repeats it (`src/tunnel_sync/application/executor.py:94-113`), and the model follows the code.
- Host name normalization is not idempotent on every input: a line feed before a final dot slips through the
  pattern's `$` (`src/tunnel_sync/domain/discovery.py:14` and `39-50`; `Hostname.NotAlwaysIdempotent`). The
  exact condition on the input is `Hostname.IdempotentExactly`.
- The ingress loop and the DNS loop can disagree about an absent host: under the legacy policy
  (`src/tunnel_sync/domain/planner.py:382-391`), and under any policy when several records bear its name
  (`src/tunnel_sync/domain/planner.py:151-161`). `Lockstep.LoopsInStep` says exactly when, with an input for
  each.

## Model

| member | source | states |
|---|---|---|
| Models.TagsSeparateTunnels | src/tunnel_sync/domain/models.py:36-61 | a record tagged by one tunnel is foreign to every tunnel of another name |
| Models.WrittenTagIsOwned | src/tunnel_sync/domain/models.py:36-58 | a record carrying the written tag is recognised as owned exactly when the tag survives stripping |
| Ingress.MergeIngress | src/tunnel_sync/domain/ingress.py:7-34 | the merge loop computes the merge specification the theorems below are about |
| MergeFacts.MergeIsLossless | src/tunnel_sync/domain/ingress.py:13-34 | apart from the desired hosts' first roots, the result is every path rule, hostname-less rule and repeated root of the input, once each and in order (plus a 404 rule if there was no fallback) |
| MergeFacts.MergeReaches | src/tunnel_sync/domain/ingress.py:18-31 | each desired host's first root stands before the first hostname-less rule and carries the desired service and origin request over the fields of the rule it replaces |
| MergeFacts.MergedRootExactly | src/tunnel_sync/domain/ingress.py:18-30 | field by field, what stands for a desired host: its host and service as desired, no path, the desired origin request or else the replaced one, and every unknown field of the replaced root that the desired one does not name |
| MergeFacts.InsertedInOrder | src/tunnel_sync/domain/ingress.py:24-31 | the new roots come last before the first hostname-less rule, in increasing order of host name: those of the desired hosts that had no root before it |
| MergeFacts.MergeEndsInFallback | src/tunnel_sync/domain/ingress.py:18-33 | the result has a hostname-less rule, and ends in one whenever the input did or had none |
| MergeFacts.MergeFromOthers | src/tunnel_sync/domain/ingress.py:21-30 | a host that is not desired has, as its first root, the first of its repeated roots, on both sides of the fallback |
| MergeFacts.MergeCounts | src/tunnel_sync/domain/ingress.py:13-34 | the result's length from the roots gained, the roots lost and the fallback |
| MergeFacts.MergeUnchangedIffSettled | src/tunnel_sync/domain/ingress.py:13-34 | the merge returns its input exactly when every desired root is already in place before a fallback and no other root is there |
| PlannerLoops.ComputeChangePlan | src/tunnel_sync/domain/planner.py:23-562 | the four planning loops, the tombstone marks and the summary compute the plan specification |
| PlannerLoops.PlanMissingIngress | src/tunnel_sync/domain/planner.py:156-219 | the loop over departed roots yields one verdict per first root of an absent host, in order |
| PlannerLoops.PlanMissingDns | src/tunnel_sync/domain/planner.py:363-514 | the loop over departed records yields one verdict per relevant record of an absent host, in order |
| PlannerLoops.DegradedChangePlan | src/tunnel_sync/domain/planner.py:565-633 | the fail-closed plan for an untrusted inventory |
| Verdicts.ActiveHostIsRouted | src/tunnel_sync/domain/planner.py:72-131 | every active host's first root in the final rules: with manual roots preserved, a root there and a last record that does not both point here and bear our tag, the old service and origin request; in every other case the discovered ones |
| Verdicts.ContainerDecides | src/tunnel_sync/domain/planner.py:79-131 | with manual roots not preserved, that is always the discovered service and request |
| Verdicts.UnknownFieldsSurvive | src/tunnel_sync/domain/planner.py:108-131 | the unknown fields of an active host's reachable root are still there, whatever becomes of its service |
| Verdicts.ActiveRouteIsAnnounced | src/tunnel_sync/domain/planner.py:79-148 | what is announced for an active host's route, in terms of its root, its record and the discovered service |
| Verdicts.ActiveRecordVerdict | src/tunnel_sync/domain/planner.py:233-360 | created, updated, left or protected: the verdict on an active host's last record from its content, comment, proxy flag and the policy |
| Verdicts.ActiveRecordIsWritten | src/tunnel_sync/domain/planner.py:252-330 | a created or updated record is a proxied record of automatic lifetime for the host, pointing to the tunnel, with our tag |
| Verdicts.RecordIsDeletedExactly | src/tunnel_sync/domain/planner.py:363-446 | a record is deleted exactly when its host is absent, it is an alias or bears the tag prefix, it is ours or in our care under the legacy policy, and its time is up by the clock |
| Verdicts.RootIsDeletedExactly | src/tunnel_sync/domain/planner.py:156-208 | a root is deleted exactly when its host is absent, the last record of that name points here with our tag, and its time is up by the clock |
| Verdicts.TombstoneIsSetExactly | src/tunnel_sync/domain/planner.py:186-446 | who is buried, from records, rules, tombstones and settings alone |
| Verdicts.TombstoneIsClearedExactly | src/tunnel_sync/domain/planner.py:133-463 | whose tombstone goes, from records, rules, tombstones and settings alone |
| Verdicts.DnsChangesInOrder | src/tunnel_sync/domain/planner.py:233-514 | the DNS changes: one for each active host in increasing order of name, then one for each considered record in the order fetched |
| Verdicts.SummaryExactly | src/tunnel_sync/domain/planner.py:516-548 | every number of the summary is the number of changes of its kind |
| Verdicts.BlindPlanExactly | src/tunnel_sync/domain/planner.py:565-633 | a plan for an untrusted inventory keeps the rules, protects every named record, announces no change and marks nothing |
| PlanFacts.IngressPicksExactly | src/tunnel_sync/domain/planner.py:72-219 | exactly one ingress verdict per active host and per absent host with a root, and no other |
| PlanFacts.DnsPicksExactly | src/tunnel_sync/domain/planner.py:233-514 | exactly one DNS verdict per active host and one for each relevant record of an absent host, and no other |
| PlanFacts.SetExactly | src/tunnel_sync/domain/planner.py:186-187 | a tombstone is set exactly for an absent host with an owned root or managed record, a positive wait and no tombstone yet |
| PlanFacts.ClearExactly | src/tunnel_sync/domain/planner.py:408-463 | a tombstone is cleared exactly when its host is back, or what it stood for is being removed |
| PlanFacts.IngressDeleteExactly | src/tunnel_sync/domain/planner.py:156-208 | a root is planned for deletion exactly when its host is absent, its last record is owned, and its time is up |
| PlanFacts.DnsDeleteHasRecord | src/tunnel_sync/domain/planner.py:363-446 | every planned DNS deletion names a fetched, managed record of an absent host whose time is up |
| PlanTheorems.CreatesAndDeletes | src/tunnel_sync/domain/planner.py:516-519 | the announced ingress creations and deletions are the numbers of roots gained and lost |
| PlanTheorems.RulesAreConserved | src/tunnel_sync/domain/planner.py:222-222 | final rules = existing rules + creates - deletes + one fallback if missing |
| PlanTheorems.DroppedRootsAreAnnounced | src/tunnel_sync/domain/planner.py:156-222 | the hosts whose roots the merge drops are exactly those announced as deleted |
| PlanTheorems.DiffIsTruthful | src/tunnel_sync/application/executor.py:165-171 | no PUT is due exactly when the summary announces no ingress change and the remote list was tidy |
| Lockstep.LoopsInStep | src/tunnel_sync/domain/planner.py:156-219 | for an absent host with a root and any relevant record of its name, the two separately coded loops delete together and leave the same mark exactly while the wait is running, or when the host's last record is owned iff this one is owned or the policy is the legacy one |
| Lockstep.OneRecordInStep | src/tunnel_sync/domain/planner.py:382-391 | for the host's last record, that means always but in one case of the legacy policy |
| Lockstep.LegacyLoopsPart | src/tunnel_sync/domain/planner.py:382-391 | an input on which the legacy policy deletes an untagged record and keeps its route |
| Lockstep.RepeatedNamesPart | src/tunnel_sync/domain/planner.py:151-173 | an input on which an owned record is deleted and its route kept, because a later record of that name is not owned |
| PlanTheorems.PlanIgnoresOriginOrder | src/tunnel_sync/domain/planner.py:49-72 | reordering the discovered origins leaves the whole plan unchanged |
| Executor.ChangeExecutor.Execute | src/tunnel_sync/application/executor.py:117-214 | dry run and a tripped guard touch nothing; otherwise server, requests and operation log are those of the run specification, for any outcome of each request |
| Failures.EveryStepIsReported | src/tunnel_sync/application/executor.py:151-214 | without fail-fast the log has one entry a step, in order, under its own resource, verb and target; it is a failure exactly if the request was not reported done |
| Failures.FailedExactly | src/tunnel_sync/application/executor.py:151-163 | the log shows a failure for a resource exactly if some request for it was not reported done |
| Failures.FailFastExactly | src/tunnel_sync/application/executor.py:161-162 | with fail-fast the run is that of the steps up to the first request not reported done, that one included |
| Failures.StoppedExactly | src/tunnel_sync/application/executor.py:161-162 | and it is broken off exactly if there is such a request |
| Verdicts.RequestsExactly | src/tunnel_sync/application/executor.py:165-213 | an execution requests exactly the PUT of the planned rules, if they differ, and for each DNS change the request with its identifier and fields |
| Verdicts.DueWithoutComparison | src/tunnel_sync/application/executor.py:165-170 | without a configuration to compare with, a PUT is due exactly if the plan changes some route |
| Verdicts.PlanIsDoneInOrder | src/tunnel_sync/application/executor.py:165-213 | the routes first, then the DNS changes in the order of the plan, each protected one reported and no no-operation |
| BlastRadius.GuardTripsExactly | src/tunnel_sync/application/executor.py:17-30 | the guard stops a plan exactly when mass deletion is off and either of the two deletion counts exceeds the maximum, or, under a positive ratio, exceeds its share of what was discovered |
| BlastRadius.WithinLimitsEverythingIsTried | src/tunnel_sync/application/executor.py:17-214 | a plan within both limits, or with mass deletion on, makes every one of its calls |
| BlastRadius.RequestsAsAnnounced | src/tunnel_sync/application/executor.py:165-213 | as many POST, record PUT and DELETE requests as DNS creations, updates and deletions announced |
| Executor.ShareWithoutDivision | src/tunnel_sync/application/executor.py:23-25 | the share limit restated without division, covering the empty total |
| BlastRadius.DeleteRequestsAsAnnounced | src/tunnel_sync/application/executor.py:183-194 | as many DELETE requests as announced (at most that many when fail-fast stops early) |
| BlastRadius.NormalReturnIsBounded | src/tunnel_sync/application/executor.py:17-30 | past the guard, deleted records and dropped roots are within the maximum and the share limit; none at all when nothing was discovered |
| BlastRadius.BlindPlanIsInert | src/tunnel_sync/domain/planner.py:45-47 | a plan from a degraded inventory makes no request |
| Effects.CleanRun | src/tunnel_sync/application/executor.py:151-213 | a failure-free run makes every call; the records become the surviving old ones, rewritten in place, followed by the created ones |
| Aftermath.TouchedIsNew | src/tunnel_sync/application/executor.py:183-213 | what a plan's requests make of one record is what that record's own verdict says, however many other requests there are |
| Sync.SyncService.RunOnce | src/tunnel_sync/application/sync.py:342-456 | one cycle: drop guard, plan, tombstones before and after execution, and the server state |
| Sync.SyncService.BuryAndRecover | src/tunnel_sync/application/sync.py:376-385 | recovered hosts leave the tombstones, new ones enter, existing timestamps stay |
| Sync.SyncService.AbandonAfterDiscovery | src/tunnel_sync/application/sync.py:246-260 | a cycle that fails after discovery only remembers the service count |
| Verdicts.PlannedFrom | src/tunnel_sync/application/sync.py:342-372 | what a cycle plans from: settings and readings as given, but after two or more services became none no immediate removal and a wait of at least 300 s and at least the configured one |
| Verdicts.CycleDeletesExactly | src/tunnel_sync/application/sync.py:342-372 | what a cycle deletes of a host, in numbers: nothing younger than 300 s or the configured wait after such a drop, one service becoming none not guarded |
| Failures.CompletesExactly | src/tunnel_sync/application/sync.py:450-456 | a cycle goes through exactly if it is no dry run, the guard lets it pass, and every request is reported done |
| Failures.FailureKeepsTombstones | src/tunnel_sync/application/sync.py:450-456 | whatever fails in a cycle, no absent host loses its tombstone or its timestamp |
| Failures.SuccessClearsTombstones | src/tunnel_sync/application/sync.py:450-456 | and if nothing fails, what was removed leaves no tombstone |
| Runs.TombstoneStep | src/tunnel_sync/application/sync.py:376-456 | a cycle keeps a tombstone and its timestamp unless the host is back or the whole cycle went through and removed what it stood for |
| Runs.EveryTombstoneHasAStory | src/tunnel_sync/application/sync.py:376-385 | in every run each tombstone was set by an earlier cycle at its timestamp, and its host stayed away since |
| Runs.GracePeriodIsHonoured | src/tunnel_sync/domain/planner.py:186-219 | in every run, with a positive grace period and no immediate cleanup, whatever is planned for deletion was buried at least that long ago and has not been seen since |
| Runs.ExpiryIsActedUpon | src/tunnel_sync/domain/planner.py:408-446 | the first planned cycle past the deadline deletes the owned root and every managed record |
| Runs.FailuresKeepTheTombstone | src/tunnel_sync/application/sync.py:450-456 | through any failures and tripped guards a tombstone keeps its original timestamp |
| Runs.RemovalIsRetried | src/tunnel_sync/application/sync.py:450-456 | past the original deadline every cycle plans the removal again while something is left |
| Runs.PlansDeleteExactly | src/tunnel_sync/domain/planner.py:156-446 | something of a host is planned for deletion exactly when something of it lingers and its time is up |
| Runs.DepartureExactly | src/tunnel_sync/application/sync.py:342-349 | at the first planned cycle after one that saw a host, something of it is planned for deletion exactly when something lingers, deletion without waiting is configured, and the drop guard does not intervene |
| Runs.SuddenDropDeletesNothing | src/tunnel_sync/application/sync.py:342-349 | hence, when at least two services become none, nothing of a host active at the previous planned cycle is deleted, whatever the cleanup settings |
| Runs.ConsecutiveDropDeletesNothing | src/tunnel_sync/application/sync.py:246-349 | the same for consecutive cycles with only attempts aborted before discovery between them |
| Runs.GuardCanBeSpent | src/tunnel_sync/application/sync.py:246-260 | a run in which a failed read between the two cycles defeats that protection |
| Convergence.SecondCycleIsSilent | src/tunnel_sync/domain/planner.py:23-562 | after a failure-free cycle the next plan announces nothing exactly without adopted manual roots, and sends nothing exactly if also without hidden twins; any policy, remote state and tombstones |
| Convergence.TombstonesAreSettled | src/tunnel_sync/domain/planner.py:186-219 | that next plan neither sets nor clears a tombstone |
| Scope.SeenAfter | src/tunnel_sync/application/sync.py:65-76 | a failure-free run planned from the part of the zone a fetch is after leaves the expected records in that part, and every other record as it was |
| Guarded.PostponedExactly | src/tunnel_sync/application/sync.py:342-349 | what the cycle after a guarded one deletes is exactly what the settings would have deleted and the sudden-drop guard did not let through |
| Guarded.SilentExactly | src/tunnel_sync/application/executor.py:165-194 | without services a plan sends nothing exactly when nothing is planned for deletion and the rules are tidy |
| Fixpoint.SmoothCyclesExist | src/tunnel_sync/application/sync.py:342-456 | from every server state with one record an identifier, every memory and every trimmed tunnel name, with any services and settings but a dry run, a failure-free cycle is possible, and it is smooth unless the deletion guard stops its plan |
| Fixpoint.NextCycleIsSilent | src/tunnel_sync/application/executor.py:54-58 | over the whole cycle, guarded or not: repeating a smooth cycle sends nothing exactly outside three exceptions: an adopted manual root that differs from what was discovered, a twin behind the fallback, something spared by the sudden-drop guard |
| Fixpoint.SmoothCycleIsFixpoint | src/tunnel_sync/application/executor.py:54-58 | under that same condition the server and the memory are a fixpoint; the memory is one already when the sudden-drop guard spared nothing |
| Fixpoint.GuardPostpones | src/tunnel_sync/application/sync.py:342-349 | a smooth cycle in which the sudden-drop guard spares a host, with neither other exception, after which the same cycle sends requests again |
| Fixpoint.ManualRootsAreLost | src/tunnel_sync/domain/planner.py:79-106 | a smooth cycle that preserves a manual root and adopts its record, after which the same cycle sends requests again |
| Fixpoint.TwinsSurface | src/tunnel_sync/domain/ingress.py:21-30 | a smooth cycle that deletes a root with a twin behind the fallback, after which the same cycle sends requests again |
| EndToEnd.RunPermuted | src/tunnel_sync/application/executor.py:151-214 | a run's requests, operations and effect do not depend on the order of the server's records |
| EndToEnd.SettlesInAnyOrder | src/tunnel_sync/application/sync.py:342-456 | the fixpoint, when each of the two cycles reads its records in an order of its own in which every name ends on the same record |
| EndToEnd.UniqueNamesAgree | src/tunnel_sync/domain/planner.py:226-230 | with one record a name in the first reading, every order of the second will do |
| EndToEnd.FetchedCyclesSettle | src/tunnel_sync/application/sync.py:60-110 | from fetch to fetch: two successive cycles that work on what a fetch returned by either path (the listing sufficing on the batch path) settle outside the three exceptions, in any order with one record a name, or else when every name ends on the same record |
| Goals.ActiveHostIsServed | src/tunnel_sync/domain/planner.py:72-145 | after a smooth cycle every active host is routed as planned before any fallback, with a record that is ours wherever the plan claims it |
| Goals.ActiveRecordIsOurs | src/tunnel_sync/domain/planner.py:233-330 | after a smooth cycle the last record of an active host is proxied, points to the tunnel and bears our tag, if there was none or it was ours or claimable under the policy; else it is what it was |
| Goals.AbsentHostIsCleared | src/tunnel_sync/domain/planner.py:156-219 | after a smooth cycle no record in the whole zone is owned under a host whose time is up, and its owned root is gone; other absent hosts keep root and record |
| Departures.TwinsPersist | src/tunnel_sync/domain/ingress.py:21-30 | a merge keeps the repeated roots of a desired host |
| Departures.KeptThroughout | src/tunnel_sync/application/sync.py:376-385 | through any number of smooth cycles before the deadline the tombstone keeps the first cycle's timestamp and the host its record and its roots |
| Departures.DepartureIsCleanedUp | src/tunnel_sync/application/sync.py:342-456 | burial, any number of cycles waiting, clean-up by the first cycle past the deadline (no record of that name, no root but what repeated it, no tombstone), then silence but for the three known exceptions; guarded cycles included |
| Orphans.SurvivesExactly | src/tunnel_sync/application/executor.py:151-194 | a record that requests only ever delete is there after a run with any outcomes exactly if none of them got through |
| Orphans.FailedPutOrphansRoots | src/tunnel_sync/domain/planner.py:160-173 | if the PUT is refused and no owned record of the host escapes deletion, every later plan keeps the root while the host stays away |
| Orphans.RetriedExactly | src/tunnel_sync/application/executor.py:54-58 | after a refused PUT, with any outcomes of the other requests, the next plan past the deadline removes the root again exactly if every request deleting the host's one record was refused too |
| Orphans.StuckExactly | src/tunnel_sync/application/executor.py:54-58 | for a host with one root and one record the next plan past the deadline leaves a root behind exactly if the PUT was refused and some request deleting the record was not |
| Orphans.NamedAfterRun | src/tunnel_sync/application/executor.py:151-194 | after a run with any outcomes, the records of a name nobody writes are, in order, those no deletion got through for |
| Orphans.StuckInGeneral | src/tunnel_sync/application/executor.py:54-58 | for any number of roots and records of a host and any outcomes: the next plan past the deadline leaves a root behind exactly if one is left (the PUT was refused, or a root was repeated) and the last seen record of that name that survived is not ours |
| Orphans.OrphansExist | src/tunnel_sync/domain/planner.py:160-173 | an input on which one refused PUT leaves such a root, due for removal in both cycles |
| Ownership.OffLimitsIsNeverTouched | src/tunnel_sync/domain/planner.py:252-514 | over every run under the adopt and strict policies, for any snapshots, clocks and failures, such a record stays unchanged |
| Ownership.OthersLeaveOurRecords | src/tunnel_sync/domain/models.py:57-61 | controllers with other tunnel names never modify an owned record when cycles take turns, even for the same target |
| Ownership.AlwaysOrderly | src/tunnel_sync/application/executor.py:183-213 | in any interleaving of plans, single requests and failures, a queued request only ever concerns records of its own tunnel |
| Ownership.StalePlansStayHome | src/tunnel_sync/application/executor.py:183-213 | in any such interleaving no record of one tunnel is rewritten or deleted by another tunnel's controller |
| Ownership.TwoNamesRace | src/tunnel_sync/application/sync.py:273-299 | were two distinct names to stand for one tunnel, some interleaving would let either take over the other's record, over any host |
| Ownership.InterleavingIsSafeExactly | src/tunnel_sync/application/sync.py:273-299 | no interleaving of single requests lets one controller take a record another one owns, exactly when the controllers' tunnels differ, as they do when each is looked up by its own name |
| Activation.ConnectorActivation.Activate | src/tunnel_sync/application/executor.py:86-115 | token file, pending restart and connector after one activation, for any failure of reading, writing, lookup and restart |
| Activation.ConnectorActivation.WriteToken | src/tunnel_sync/adapters/connector.py:19-35 | a failed write leaves the file alone or holding a prefix of the token |
| Activation.ForgettingExactly | src/tunnel_sync/application/executor.py:86-115 | after one activation an owed restart is forgotten exactly if a torn write or an untrimmed token whose restart was refused lost it, or it was forgotten before and this activation did not heal it |
| Activation.LostExactly | src/tunnel_sync/application/executor.py:86-115 | over every run of activations, with any tokens and failures, a restart is forgotten in the end exactly if some activation lost it and none since has healed it |
| Activation.OwedRestartsAreRetried | src/tunnel_sync/application/executor.py:72-108 | over any sequence with atomic writes and trimmed tokens, the early return never skips an owed restart, and the next working activation of the token performs it |
| Activation.WorkingActivation | src/tunnel_sync/application/executor.py:86-115 | with write and restart working, a file that cannot be read for an operating-system error, or reads as another token, is written and the connector restarted; one that reads as the token is left, with a restart exactly if one is owed |
| Activation.FailingActivation | src/tunnel_sync/application/executor.py:96-115 | a failed restart after a write is remembered; after a failed write none is attempted and nothing new remembered |
| Activation.OwedActivation | src/tunnel_sync/application/executor.py:94-108 | an owed restart of the token in the file is attempted without a write, and stays owed if it fails |
| Activation.TornWriteIsForgotten | src/tunnel_sync/application/executor.py:98-99 | without atomic writes, after a failed write that stored the token no activation of that token restarts the connector, as long as the file can be read |
| Activation.UntrimmedIsRewritten | src/tunnel_sync/application/executor.py:92-99 | an untrimmed token in the file is written again, with a restart, when it is activated again |
| Activation.RepeatIsQuiet | src/tunnel_sync/application/executor.py:96-97 | repeating a successful activation does nothing exactly when the token is trimmed |
| Debounce.DebouncedSyncTrigger.Trigger | src/tunnel_sync/runtime/debounce.py:36-57 | one trigger under the lock |
| Debounce.DebouncedSyncTrigger.EnsureWorker | src/tunnel_sync/runtime/debounce.py:59-62 | a worker is created only when none is alive and the trigger is open |
| Debounce.DebouncedSyncTrigger.Look | src/tunnel_sync/runtime/debounce.py:65-76 | the worker stops, sleeps until the deadline, or goes on |
| Debounce.DebouncedSyncTrigger.Recheck | src/tunnel_sync/runtime/debounce.py:78-85 | the worker goes back while the deadline is ahead, else takes all reasons and fires |
| Debounce.LooksExactly | src/tunnel_sync/runtime/debounce.py:65-76 | when the worker stops, how long exactly it sleeps, and when it goes on |
| Debounce.RechecksExactly | src/tunnel_sync/runtime/debounce.py:78-85 | the worker goes back exactly while the deadline is more than 5 ms ahead, and else takes every reason |
| Debounce.DebouncedSyncTrigger.Close | src/tunnel_sync/runtime/debounce.py:98-106 | closing clears everything and cancels the worker |
| Debounce.AlwaysSound | src/tunnel_sync/runtime/debounce.py:36-106 | over every interleaving: at most one worker; both deadlines are set together and are delay after the last and maximum after the first waiting trigger; no sleep beyond the deadline; reasons match the waiting triggers |
| Debounce.FiresWhenDue | src/tunnel_sync/runtime/debounce.py:78-94 | a synchronization starts only for waiting triggers that are due to within 5 ms, never after close, never beside another, with exactly the waiting reasons |
| Debounce.NothingIsLost | src/tunnel_sync/runtime/debounce.py:45-85 | fired triggers followed by waiting ones are the accepted ones, in order, until close |
| Debounce.StrandingExactly | src/tunnel_sync/runtime/debounce.py:48-69 | a step leaves a wake-up lost exactly if it is a trigger that finds no running loop while no worker is alive or due, or one was lost before and the step neither finds the loop nor closes |
| Debounce.LostExactly | src/tunnel_sync/runtime/debounce.py:48-69 | over every run a wake-up is lost exactly if some trigger found no loop with nobody on duty and no trigger since found the loop, nor was everything closed |
| Debounce.NoLostWakeUp | src/tunnel_sync/runtime/debounce.py:48-70 | with a running loop no wake-up is lost in any interleaving |
| Debounce.WakingOnTimeFires | src/tunnel_sync/runtime/debounce.py:64-85 | a worker sleeps no later than the maximum delay after the first trigger, and waking at the deadline fires all that is waiting |
| Debounce.FiredInTime | src/tunnel_sync/runtime/debounce.py:36-94 | over every run on a prompt loop, whatever is waiting, and whatever the next step fires, was triggered at most the maximum delay ago, or the longest synchronization if that is longer, and whatever was triggered longer ago has been fired or dropped by close |
| EventStream.Drain | src/tunnel_sync/adapters/docker.py:256-270 | the inner loop delivers the events of the complete lines and leaves the tail |
| EventStream.Listen | src/tunnel_sync/adapters/docker.py:249-270 | the events depend on the bytes received before end of stream alone, not on how they were cut into chunks |
| EventStream.SplitJoins | src/tunnel_sync/adapters/docker.py:257-261 | lines and tail joined again are the stream, and hold no newline |
| EventStream.JoinSplits | src/tunnel_sync/adapters/docker.py:257-261 | joining newline-free lines and splitting returns them: the splitting is the only one |
| EventStream.WrittenLinesArrive | src/tunnel_sync/adapters/docker.py:249-270 | a stream written line by line is delivered line by line however it is cut |
| EventStream.ListenToWriter | src/tunnel_sync/adapters/docker.py:249-270 | of texts written as lines, with any blanks around them and blank lines between, exactly the parsed ones arrive, in order, however the stream is cut |
| Hostname.NormalizeHostname | src/tunnel_sync/domain/discovery.py:22-52 | the step-by-step normalizer computes the specification |
| Hostname.ResultsAreWellFormed | src/tunnel_sync/domain/discovery.py:22-52 | from input without line feeds, in any alphabet, every result is a well-formed name |
| Hostname.WellFormedOnInput | src/tunnel_sync/domain/discovery.py:24-51 | for every accepted input, the result is well formed exactly when the part of the input that should be a host name has no line feed |
| Hostname.IdempotentExactly | src/tunnel_sync/domain/discovery.py:22-52 | for every accepted input, a second pass returns the first result exactly unless the part that should be a host name, stripped of white space and then of final dots, ends in a line feed |
| Hostname.WellFormedIsFixed | src/tunnel_sync/domain/discovery.py:22-52 | every well-formed name is a fixed point |
| Hostname.UrlYieldsHost | src/tunnel_sync/domain/discovery.py:27-39 | an address yields its host in lower case: scheme, credentials, port, path, query, fragment, final dots and white space go, whichever are there |
| Hostname.AcceptedExactly | src/tunnel_sync/domain/discovery.py:22-52 | on ASCII text a name comes out if and only if the text is such an address and its host a spelling of that name |
| Hostname.AnyCaseIsLowered | src/tunnel_sync/domain/discovery.py:39-51 | a name is accepted in any case, and comes out in lower case |
| Hostname.NotAlwaysIdempotent | src/tunnel_sync/domain/discovery.py:39-50 | an input whose result is changed by a second pass |
| Fetch.FetchDns | src/tunnel_sync/application/sync.py:60-110 | a fetch that returns delivers the specified records if the zone listing suffices (a complete one does), and without failures only then; from any listing only records in scope and one per served host; one failed read never loses the fetch |
| Fetch.PerHost | src/tunnel_sync/application/sync.py:98-110 | the fallback path delivers exactly the specified records |
| Fetch.Batch | src/tunnel_sync/application/sync.py:64-95 | what the batch, empty-batch and uncovered-host paths deliver from any listing, record by record |
| Fetch.GatheredExactly | src/tunnel_sync/application/sync.py:64-95 | that is the specified records exactly when every record in scope the first reads missed bears the name of a service they said nothing about |
| Fetch.ReturnedExactly | src/tunnel_sync/application/sync.py:60-110 | whatever path a fetch took, its result is the specified records exactly if the listing sufficed where it came by the batch path |
| Fetch.SpecifiedIsScoped | src/tunnel_sync/application/sync.py:71-76 | the specified map holds exactly the records a cycle is modelled to read |
| ReadOrder.PlanIgnoresRecordOrder | src/tunnel_sync/domain/planner.py:151-153 | the same records fetched in another order, each name still ending on the same record, give the same plan up to the order of the DNS changes |
| ReadOrder.UniqueNamesReadAlike | src/tunnel_sync/domain/planner.py:226-230 | one record a name is enough for that |

## Left out

- HTTP, sockets, retries, pagination and authentication: a request is an operation that is done, refused, or done with its reply lost.
- Provisioning of tunnels, zone and account lookup: they only supply identifiers.
- Reason strings, plan identifiers, timestamps for display, log and metric records, current content and current comment of a change.
- Floating point: times, periods and ratios are real numbers.
- JSON null inside rules and records where a string, number or boolean is expected, and a non-text comment in a plan for a degraded inventory, which the controller's validation rejects with an exception.
- An absent `originRequest` and a null one are not distinguished in rules; an empty one is.
- Tombstone persistence on disk (off by default): memory starts empty.
- Configuration changes made on the server between reading it and writing it, other than by the controllers modelled in `Ownership`.
- An exception raised by the event callback, other than a JSON or decoding error, which leaves the read loop for the reconnect loop (`src/tunnel_sync/adapters/docker.py:271-273`): the callback is taken to return.
- Discovery of services from container labels, reconnecting to Docker, and the dashboard.
- Restarts of the connector by anyone but the controller, and a new process forgetting the pending restart.
- Cancellation of the debounced worker by anyone but `close`, and an event loop that stops running.
- Lower-casing outside ASCII: any mapping that agrees on ASCII and leaves line feeds what and where they are (`Hostname.LoweringExists` is a witness).
- Name normalization inside a cycle: discovered host names are taken as already normalized, and a fetch as filtering by any normalization.
- Two names for one tunnel: every cycle looks its tunnel up by name, so this needs a renaming between two lookups; `Ownership` proves what distinct tunnels are needed for.
