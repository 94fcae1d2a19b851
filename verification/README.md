# A verified model of the skill registry

The registry keeps no database. It publishes signed skill packages into an
append-only object store and serves them from an in-memory index that every
replica rebuilds, patches and repairs on its own. What it promises therefore
rests on a handful of algorithms and protocols, and this project models those in
Dafny and proves what they guarantee.

| file | subject |
|---|---|
| `DependencyGraph.dfy`, `Tarjan.dfy`, `DependencyGate.dfy` | walks and components of a dependency graph; the cycle search with its shared counter, stack and low links; the gate inside a publish |
| `Ordering.dfy`, `Text.dfy`, `Registry.dfy`, `Versions.dfy` | sorted listings; joining and splitting text; records, entries, sidecars and the storage view; version precedence and constraint resolution |
| `IndexStore.dfy`, `IdCache.dfy`, `ObjectStore.dfy` | the in-memory index with its sorted-id cache; that cache under concurrent puts and reads; the write-once and overwritable parts of the store |
| `Reconciliation.dfy`, `EventConsumer.dfy` | rebuild, checksum and repair; the retrying, deduplicating event consumer |
| `Replication.dfy`, `Completion.dfy`, `Convergence.dfy` | any number of replicas and handlers interleaved at single reads, writes and puts; what each handler left alone ends with; safety and convergence of every run |
| `Staleness.dfy`, `KeyConvergence.dfy` | exactly when a put shows a stale entry, traced back to the reads it rests on; convergence of one version beside any traffic for others |
| `Sharing.dfy`, `Search.dfy`, `Usage.dfy` | share grants and visibility; search, ranking and paging; usage counters flushed by many replicas |
| `Publishing.dfy` | one publish, and many publishers racing for the same version |
| `GitMirror.dfy`, `DraftGit.dfy`, `ConcurrentSaves.dfy`, `SkillDirectory.dfy` | the draft-to-branch mirror over whole runs; the handlers and stores that carry it out; saves of one draft served side by side; the folder derived from an id |
| `Archive.dfy`, `Certification.dfy` | the normalized package archive; guardrail policies and certified levels |

Code that changes things step by step is a class or a method with loops, proved
against a function of the old state; what the repository promises is then proved
about that function. Concurrency is a state machine: a handler is a sequence of
steps, each one store read, one store write or one index put; a run is any
sequence of steps of any handlers, and a handler may crash between any two.

## Where the code and its documentation differ

The model follows the code in each case.

- A reconcile that overlaps a yank puts the version back as active, and it stays
  so on that replica until the next reconcile
  (`Convergence.OverlappingReconcileUndoesYank`). The index does not always show
  the current sidecar. Each kind of put shows what storage prescribes exactly when
  it carries the stored sidecar values (`Staleness.PutShowsViewIff`); traced through
  the run, it is stale exactly when these have changed since the handler read, wrote
  or saw them (`Staleness.ReadPutIsStaleIff`, `StatusPutIsStaleIff`,
  `GovernancePutIsStaleIff`).
- `drift_detected` is true exactly when a stored version was missing or had
  another digest (`Reconciliation.DriftIff`): a missed yank or governance change
  is repaired without being reported as drift.
- The id cache is dropped by every put, but a put that runs to its end between the
  sort and the store of a concurrent read leaves a listing without its id
  (`IdCache.HiddenIff`). It stays hidden from search and checksums until another put
  drops the cache or another read stores a listing; a reconcile ends that only if it
  repairs something (`IdCache.ReconcileEndsHidingIff`). So two converged replicas
  have equal checksums exactly when their reads list the same ids
  (`Convergence.ConvergedReplicasAgree`).
- A read raises when a put drops the cache while the read is at its copy, unless
  another read stores a listing in time (`IdCache.ReadRaisesIff`).
- The dependency gate checks a graph that its caller took earlier. Two re-publishes
  that pass side by side close a cycle exactly when each depends, directly or not,
  on the other (`DependencyGate.SideBySideIff`).
- Two saves of one path served side by side can cross, so that the branch ends with
  the earlier write under a clean status (`ConcurrentSaves.CrossedSavesDisagree`);
  `ConcurrentSaves.AgreeIff` says exactly when draft and branch agree.
- Yanking can raise the answer of the `stable` channel; exactly when is
  `IndexStore.YankRaisesStableIff`, and a case of it is
  `IndexStore.YankRaisesStableHere`.
- `create_working_branch` promises that no partial branch is left dangling. A
  failed connect deletes the draft, but a working branch cut from an existing
  target stays, and so does the first commit of an empty repository.
  `DraftGit.ConnectDraftToGit` says exactly when it succeeds and which branches a
  failure leaves; `DraftGit.BrokenSeedLeavesBranch` is a case.
- The id pattern is applied with `match` and ends in `$`, so an id with one final
  newline passes too and shares its folder with the id without it
  (`SkillDirectory.SharedFolderIff`).
- Listing a draft skips every file whose last name part is `_meta.json`, although
  such a file can be saved in a sub-folder. It is not seeded and not moved, so it
  agrees with the branch afterwards exactly when the branch held it in the folder
  already (`GitMirror.AllAgreeAfterMoveIff`, `GitMirror.AllAgreeAfterConnectIff`).
- Several replicas, a restart or a flush that raises may lose usage counts, as the
  code accepts. `Usage.LossLaw` says in which step and how many; `Usage.DurableNeverExceedsRecorded` says they
  are never counted twice.
- `extract_archive` is called the inverse of `build_normalized_archive`. It is,
  exactly for names without a NUL (up to 100 ASCII characters) or without a final
  slash (longer or non-ASCII names): `Archive.ExtractUndoesBuildIff`.

## Model

| member | source | states |
|---|---|---|
| Tarjan.FindCycles | src/jaas_registry/validation/graph.py:12-56 | for every finite graph, including unknown successors, duplicate edges and self-loops: the result lists exactly the cyclic strongly connected components, each maximal, mutually reachable and duplicate-free, no node in two of them, and a node is listed iff it has a non-empty walk back to itself |
| Tarjan.Search.StrongConnect | src/jaas_registry/validation/graph.py:26-50 | one recursive visit keeps the search invariant and either leaves the node on the stack with a low link naming an older stack member it reaches, or reports its whole component |
| Tarjan.Search.OpenNode | src/jaas_registry/validation/graph.py:28-32 | numbering and pushing a fresh node keeps the invariant with the node open |
| Tarjan.Search.CloseNode | src/jaas_registry/validation/graph.py:41-50 | the comparison of low link and index decides rightly between leaving the node stacked and popping its component |
| Tarjan.Search.PopComponent | src/jaas_registry/validation/graph.py:42-48 | the pop loop takes off exactly the stack segment from the node up |
| Tarjan.SegmentIsComponent | src/jaas_registry/validation/graph.py:41-50 | a stack segment from a root up, mutually reachable and without edges to what is still open below it, is a whole component |
| Tarjan.ReportComponent | src/jaas_registry/validation/graph.py:49-50 | appending the component iff it is cyclic keeps the report exact for all finished nodes |
| DependencyGraph.CyclicIffOnCycle | src/jaas_registry/validation/graph.py:49 | a component has several nodes or a self-loop iff its nodes lie on cycles |
| DependencyGate.ValidateNoCycles | src/jaas_registry/validation/graph.py:59-66 | passes iff no node has a non-empty walk back to itself, and otherwise reports exactly the nodes that do |
| DependencyGate.CheckDependencies | src/jaas_registry/artifact/publish.py:167-177 | passes iff all dependencies are known and the updated graph is acyclic; a missing dependency is the first unknown one and is reported before any cycle |
| DependencyGate.EveryRunHasInstallOrder | src/jaas_registry/artifact/publish.py:167-177 | over every run of publishes and re-publishes through the gate the graph stays acyclic and closed, so all accepted skills can be installed dependencies first |
| DependencyGate.InstallOrderIsSafe | src/jaas_registry/artifact/publish.py:167-177 | the converse: a graph with an install order is acyclic and closed |
| DependencyGate.EmptyGraphIsSafe | src/jaas_registry/artifact/publish.py:167-177 | the empty graph, where runs start, is acyclic and closed |
| DependencyGate.AcyclicUpdateIff | src/jaas_registry/artifact/publish.py:170-177 | replacing one id's edges in an acyclic graph closes a cycle iff some new dependency already leads to that id |
| DependencyGate.FirstPublishAdmittedIff | src/jaas_registry/artifact/publish.py:167-177 | a first publish into a closed acyclic graph is admitted iff all its dependencies are published already |
| DependencyGate.NewWayIff | src/jaas_registry/artifact/publish.py:167-170 | an update that closes no cycle opens a way from x to y exactly through the updated id and one of its new dependencies |
| DependencyGate.SideBySideIff | src/jaas_registry/artifact/publish.py:167-177 | two publishes that pass the gate on the same graph leave it acyclic together iff not each of them depends, directly or not, on the other |
| DependencyGate.FirstPublishesSideBySide | src/jaas_registry/artifact/publish.py:167-177 | two first publishes that pass on the same graph never close a cycle |
| DependencyGate.CrossedRepublishesClose | src/jaas_registry/artifact/publish.py:168-170 | two independent skills re-published to depend on each other both pass, and close one |
| Versions.PrecedenceIsTotalOrder | src/jaas_registry/index/semver_resolver.py:52 | precedence after section 11 of SemVer 2.0.0, whose clauses the next rows state, is a strict total order |
| Versions.NumbersDecide | src/jaas_registry/index/semver_resolver.py:52 | a lower major is lower whatever follows; with equal majors the minor decides, then the patch |
| Versions.PrereleaseDecides | src/jaas_registry/index/semver_resolver.py:52 | between equal numbers: a release is above its prereleases; else the first differing identifier decides, numbers by value, numbers below texts, texts by code points; a proper prefix is lower |
| Versions.PrereleaseRanksBelowRelease | src/jaas_registry/index/semver_resolver.py:42 | a prerelease ranks below its release |
| Versions.Max | src/jaas_registry/index/semver_resolver.py:52 | the chosen version is in the pool and nothing in the pool ranks above it |
| Versions.ResolvedIsStored | src/jaas_registry/index/semver_resolver.py:22-52 | an answer is a stored version that is the maximum of its pool; no answer iff there are no versions or the pool is empty; an error iff the range does not parse |
| Versions.ResolutionIsHighestEligible | src/jaas_registry/index/semver_resolver.py:41-52 | without speaking of pools: `stable` answers the highest release, or the highest version when there is no release at all, `latest` the highest version, a range the highest version it matches; nothing iff no version is eligible |
| Versions.AnswerIsUnique | src/jaas_registry/index/semver_resolver.py:22-52 | the stored maximum of the pool is what resolution returns |
| IndexStore.ResolvesToMaximum | src/jaas_registry/index/store.py:35-52 | an exact pin is answered even when yanked; everything else gets the maximum of the versions not yanked, and nothing iff that pool is empty |
| IndexStore.LatestHasGreatestNumbers | src/jaas_registry/index/store.py:46-52 | `latest` answers a version not yanked whose major is the greatest offered, whose minor is the greatest among those, and whose patch is the greatest among those |
| IndexStore.YankNeverRaises | src/jaas_registry/index/store.py:46-52 | yanking never raises the answer to `latest` or a range, and unless the yanked version was the answer it stays the same, found or not |
| IndexStore.YankRaisesStableIff | src/jaas_registry/index/semver_resolver.py:41-43 | yanking raises the `stable` answer iff it takes the last release while a higher prerelease is offered |
| IndexStore.YankRaisesStableHere | src/jaas_registry/index/semver_resolver.py:41-43 | 1.0.0 beside 2.0.0-a is such a case |
| IndexStore.UnyankRestores | src/jaas_registry/index/store.py:46-52 | yank followed by unyank restores every answer |
| IndexStore.InMemoryIndex.constructor | src/jaas_registry/index/store.py:15-24 | a new index is empty, with no cached ids |
| IndexStore.InMemoryIndex.Put | src/jaas_registry/index/store.py:26-30 | upserts exactly the entry's id and version and drops the id cache |
| IndexStore.InMemoryIndex.Get | src/jaas_registry/index/store.py:32-33 | finds exactly what is filed under an id and version |
| IndexStore.InMemoryIndex.GetResolved | src/jaas_registry/index/store.py:35-52 | resolves among the versions shown for the id |
| IndexStore.InMemoryIndex.ListVersions | src/jaas_registry/index/store.py:54-55 | lists every version of an id once, sorted |
| IndexStore.InMemoryIndex.AllIds | src/jaas_registry/index/store.py:57-62 | always the sorted ids of the current contents, in an array of the caller's own, so writing to it cannot spoil the cache |
| IdCache.HiddenIff | src/jaas_registry/index/store.py:26-30 | in every interleaving of puts and reads, id by id and once its own puts are through: the cache hides a stored id iff a put of it came and dropped the cache between the sort and the store of the read whose listing is cached, with nothing stored or dropped since |
| IdCache.HiddenUntilDropOrStore | src/jaas_registry/index/store.py:57-62 | a hidden id stays hidden until some put drops the cache or some read stores a listing |
| IdCache.ReconcileEndsHidingIff | src/jaas_registry/index/reconciliation.py:45-56 | a reconcile ends the hiding of an id iff it repairs something, and then leaves an exact listing |
| IdCache.ReadRaisesIff | src/jaas_registry/index/store.py:57-62 | in every run, a read at its copy raises iff some put dropped the cache while it waited there and no other read has stored a listing since |
| IdCache.PutDuringReadRaises | src/jaas_registry/index/store.py:58-62 | a concrete run in which a read raises |
| IdCache.StoreRescuesRead | src/jaas_registry/index/store.py:58-62 | a concrete run with the same drop in which another read's store lets it return |
| IdCache.UndisturbedReadReturns | src/jaas_registry/index/store.py:57-62 | a read with no put beside it returns the cached listing as it is, stale or not, and without one returns and stores every id |
| IdCache.PutDuringReadIsHidden | src/jaas_registry/index/store.py:58-59 | a concrete run after which every later read misses a stored id |
| ObjectStore.LocalFilesystemStore.WriteBlobIfAbsent | src/jaas_registry/storage/local_filesystem.py:38-46 | stores a blob once; a second write of the key changes nothing |
| ObjectStore.LocalFilesystemStore.WriteTagIfAbsent | src/jaas_registry/storage/local_filesystem.py:48-58 | creates a tag iff there is none, and never changes one |
| ObjectStore.LocalFilesystemStore.WriteStatus | src/jaas_registry/artifact/yank.py:31-42 | overwrites one version's status and nothing else |
| ObjectStore.LocalFilesystemStore.WriteGovernance | src/jaas_registry/artifact/governance.py:37-49 | overwrites one skill's governance record and nothing else |
| Reconciliation.BootstrapIndex | src/jaas_registry/index/bootstrap.py:20-38 | a fresh index that shows every stored tag with its current sidecars and nothing else |
| Reconciliation.ReadEntry | src/jaas_registry/index/bootstrap.py:33-35 | reading tag, status and governance in turn gives the storage view of the version |
| Registry.Storage.ViewMeans | src/jaas_registry/index/bootstrap.py:33-36 | the storage view: for exactly the stored tags the record with its own status or active, and its skill's governance record or the empty one |
| Reconciliation.ComputeChecksum | src/jaas_registry/index/reconciliation.py:21-27 | the hash of the sorted `id@version:digest` parts of the index |
| Reconciliation.Reconcile | src/jaas_registry/index/reconciliation.py:41-59 | from any index: every stored version ends up as storage prescribes, other entries stay, `repaired` names exactly the differing versions once each, and drift is reported iff a stored version was missing or had another digest |
| Reconciliation.ReconcileId | src/jaas_registry/index/reconciliation.py:50-54 | the inner loop repairs exactly the differing versions of one id |
| Reconciliation.ReconcileTwice | src/jaas_registry/index/reconciliation.py:41-59 | a second run over an unchanged store repairs nothing, reports no drift and changes nothing |
| Reconciliation.ReconciledIsTruth | src/jaas_registry/index/reconciliation.py:41-44 | an index that holds only published versions becomes equal to the storage view |
| Reconciliation.DriftIff | src/jaas_registry/index/reconciliation.py:37-38 | for an injective hash and names without the separators, checksums before and after differ iff a stored version was missing or had another digest |
| Reconciliation.SameChecksumIff | src/jaas_registry/index/reconciliation.py:21-27 | two indexes have the same checksum iff they hold the same versions with the same digests |
| Reconciliation.DriftIsBlindToSidecars | src/jaas_registry/index/reconciliation.py:26 | a repair that concerns sidecars only is never reported as drift, whatever the hash |
| EventConsumer.IndexEventConsumer.Apply | src/jaas_registry/index/consumer.py:58-86 | skipped iff applied before; otherwise applied at the first attempt that can be read, or dead-lettered after all attempts; one wait after every failed attempt but the last, the backoff of that attempt with its jitter added; the exact new state |
| EventConsumer.BackoffDoubles | src/jaas_registry/index/consumer.py:78-81 | before jitter the first wait is the base and each further one doubles the one before, all capped |
| EventConsumer.IndexEventConsumer.ConsumeAll | src/jaas_registry/index/consumer.py:88-90 | a batch is the fold of its events, failing ones included |
| EventConsumer.BatchEffect | src/jaas_registry/index/consumer.py:58-90 | on a fixed store a batch shows the storage view of exactly the keys with a readable delivery and leaves all others alone |
| EventConsumer.OrderAndDuplicatesDoNotMatter | src/jaas_registry/index/consumer.py:31-35 | batches delivering the same keys in any order, with any repetition and failures, end in the same index |
| EventConsumer.NothingIsLost | src/jaas_registry/index/consumer.py:76-86 | every delivered event ends up applied or in the dead letters, which only grow |
| Replication.EveryEntryShownWasStored | src/jaas_registry/index/reconciliation.py:41-59 | in every interleaving on any number of replicas, what is shown has a stored tag, its record is that tag, and its status and governance are the default or were stored by a step of the run or before it |
| Replication.ShownRecordsAreForever | src/jaas_registry/index/store.py:26-30 | stored tags and shown versions never vanish, and their records never change |
| Replication.ProceedIsSafe | src/jaas_registry/api/routes.py:744-759 | the next step of any handler in any state keeps the safety invariant and only adds to the facts |
| Replication.DoIsSafe | src/jaas_registry/api/routes.py:927-931 | starting, advancing or abandoning any handler keeps the safety invariant |
| Replication.RememberedWasStored | src/jaas_registry/artifact/yank.py:31-42 | a sidecar value the store has held was written by a step of the run or was there at the start |
| Completion.PublishCompletes | src/jaas_registry/api/release_routes.py:310-318 | a publish of a new version, or a release of any, left alone ends with the tag stored and the stored record put on its replica; nothing else has changed |
| Completion.StatusCompletes | src/jaas_registry/api/routes.py:744-759 | a yank or unyank left alone ends with the status stored and the entry seen at the start put with that status |
| Completion.GovernanceCompletes | src/jaas_registry/api/routes.py:927-931 | a governance change left alone ends with the record stored and shown on every version of the skill that the replica showed, all other entries as before |
| Completion.EventCompletes | src/jaas_registry/index/consumer.py:65-71 | an event for a stored version left alone ends with what storage prescribes shown for it |
| Completion.StartCompletes | src/jaas_registry/index/bootstrap.py:20-38 | a replica that starts, left alone, goes live with exactly the storage view |
| Convergence.ReconcileConverges | src/jaas_registry/index/reconciliation.py:41-59 | after any run, once writers and in-flight handlers are gone, a reconcile that started and completed since then leaves its replica equal to the storage view, whatever else still reads and puts beside it |
| Convergence.ConvergedReplicasAgree | src/jaas_registry/index/reconciliation.py:21-27 | two such replicas show the same entries and resolve every id and constraint alike; their checksums, taken over what their reads list, are equal iff they list the same ids, as they do when each cache is exact or absent |
| Convergence.ReconcileCompletes | src/jaas_registry/index/reconciliation.py:46-54 | left alone, the steps of a reconcile always complete with the effect of the sequential one |
| Convergence.RecordPutShowsViewIff | src/jaas_registry/api/release_routes.py:310-318 | a published record put without its sidecars shows what storage prescribes iff the sidecars are absent or hold the defaults |
| Staleness.PutShowsViewIff | src/jaas_registry/index/reconciliation.py:52-53 | in every safe state, the put of a publish, status, governance, event or repair handler shows what storage prescribes iff the status and governance it carries are the stored ones or the defaults |
| Staleness.RunIsTraced | src/jaas_registry/index/bootstrap.py:33-36 | in every run, what any handler carries rests on reads, writes and entries seen in its own steps since it began |
| Staleness.ReadPutIsStaleIff | src/jaas_registry/index/consumer.py:65-70 | in every run, the put of a repair or of an event is stale iff what the sidecars say has changed since the two reads its handler made of them |
| Staleness.StatusPutIsStaleIff | src/jaas_registry/api/routes.py:744-759 | in every run, the put of a yank or unyank is stale iff the status has changed since its handler wrote it or the governance record differs from what the replica showed when it began |
| Staleness.GovernancePutIsStaleIff | src/jaas_registry/api/routes.py:927-931 | in every run, the put of a governance change is stale iff the record has changed since its handler wrote it or the status differs from what the replica showed when it came to that version |
| KeyConvergence.KeyConverges | src/jaas_registry/index/reconciliation.py:46-54 | per version and replica: once nothing writes the version's sidecars and only storage reads put it there, a completed reconcile makes it show what storage prescribes, beside any traffic for other versions and replicas |
| KeyConvergence.RunLeaves | src/jaas_registry/index/background_sync.py:42-43 | no interleaving of such steps disturbs the version or its stored values |
| Convergence.OverlappingReconcileUndoesYank | src/jaas_registry/index/background_sync.py:43 | a concrete run in which a reconcile in a worker thread undoes a yank on its replica while storage keeps it |
| Sharing.GrantStore.Create | src/jaas_registry/sharing/grants.py:42-61 | adds exactly the new grant |
| Sharing.GrantStore.Revoke | src/jaas_registry/sharing/grants.py:69-73 | removes exactly the named grant and says whether it existed |
| Sharing.GrantStore.ListForGrantee | src/jaas_registry/sharing/grants.py:81-87 | exactly the grants addressed to the grantee |
| Sharing.VisibleSkillIdsViaGrants | src/jaas_registry/sharing/access.py:77-105 | exactly the ids some grant opens to an authenticated caller or its tenant |
| Sharing.CanViewIsMayView | src/jaas_registry/sharing/access.py:108-130 | with or without the per-request set, the check decides the four-way rule |
| Sharing.CallersFollowDocumentedRule | src/jaas_registry/sharing/access.py:48-74 | for every caller that a token, its claims and the stored access tokens can resolve to, the check decides the rule as documented; said on the token: public, or a token that decodes, names no revoked access token, and whose tenant owns the skill or whose user or tenant holds a grant on it |
| Search.ScoreEntry | src/jaas_registry/index/query.py:50-68 | the accumulated score is the sum over the six fields of 1.0 (exact id), 0.6 (name), 0.5 (owner), 0.4 (tags), 0.3 (category) and 0.2 (description), each iff its field is hit; it is zero iff none is |
| Search.TextScoreIsSum | src/jaas_registry/index/query.py:50-68 | the score is the sum of the shares of the six fields |
| Search.OneMoreField | src/jaas_registry/index/query.py:55-67 | one more field hit, the others as before, raises the score by exactly that field's weight |
| Search.LoneFieldScores | src/jaas_registry/index/query.py:55-67 | a field hit alone scores exactly its weight |
| Search.ZeroScoreIff | src/jaas_registry/index/query.py:133-135 | the score is zero, so that the query passes the record over, iff no field is hit |
| Search.Search | src/jaas_registry/index/query.py:71-154 | for every index, caller, grant store and request the answer is the requested page of the unique ranking of the naively specified matches: its total is the number of ids that qualify, each item is a qualifying id with its entry and score, items come by descending score and then id, and size and next page follow from the total; refused iff some id's constraint does not parse |
| Search.RankingIsUnique | src/jaas_registry/index/query.py:147 | one match set has one ranking, so insertion order cannot show |
| Search.SortedIsRanking | src/jaas_registry/index/query.py:147 | sorting the candidates lists exactly the matches in strict order of descending score, then id |
| Search.CandidatesAreMatches | src/jaas_registry/index/query.py:102-144 | the loop over sorted ids collects exactly the naive matches, each once |
| Search.PagesCoverRanking | src/jaas_registry/index/query.py:149-152 | pages 1 to k are the first k page sizes of the ranking; the token is absent exactly from the last page on |
| Search.PageMeans | src/jaas_registry/index/query.py:147-154 | what a page of any ranking of the matches says: total, items with their scores, order, size and next page |
| Search.UsageKeepsMatches | src/jaas_registry/index/query.py:133-142 | usage counts never change which entries match |
| Search.ZeroUsageIsNoUsage | src/jaas_registry/index/usage.py:91-98 | counts of zero rank as no counts |
| Search.UsageNeverOverturnsRelevance | src/jaas_registry/index/query.py:137-142 | a text-score gap above the usage weight is never overturned |
| Usage.UsageCounter.Record | src/jaas_registry/index/usage.py:51-53 | counts one use of one skill |
| Usage.UsageCounter.Drain | src/jaas_registry/index/usage.py:55-59 | hands out everything counted and starts again from nothing |
| Usage.FlushUsageCounts | src/jaas_registry/index/usage.py:74-88 | an uninterrupted flush moves every counted use into the file, no more and no less |
| Usage.FlushAlone | src/jaas_registry/index/usage.py:81-88 | the steps of a flush left alone add every use the replica has counted to the file and nothing else |
| Usage.DurableNeverExceedsRecorded | src/jaas_registry/index/usage.py:74-88 | any number of replicas, any file to start from, any interleaving of drain, read, write, restart and raised flush: the file plus what is still pending never exceeds what was recorded |
| Usage.LossLaw | src/jaas_registry/index/usage.py:85-88 | every step: uses are lost by a write, as much as the file moved since that flush read it, by a restart, all that the replica had pending, and by a flush that raises, what it had drained; by nothing else |
| Usage.UndisturbedConserves | src/jaas_registry/index/usage.py:74-88 | runs in which no flush writes over a changed file lose exactly what restarts and raised flushes destroy |
| Usage.OneReplicaConserves | src/jaas_registry/index/usage.py:74-88 | with one replica, over any file and after every step, recorded is durable plus pending plus what restarts and raised flushes destroyed |
| Usage.NothingDroppedWithoutCrash | src/jaas_registry/index/usage.py:51-88 | runs of completed records and flushes destroy nothing |
| Usage.TwoReplicasCanLose | src/jaas_registry/index/usage.py:77-80 | a concrete run of two replicas that loses a use |
| Publishing.PublishSkill | src/jaas_registry/artifact/publish.py:148-267 | published iff screening, gate, signature choice, verification and tag creation all succeed; each refusal names its cause, down to the first unknown dependency or the nodes on cycles. Said on the submission: past the other checks it is published iff exactly one of key and external signature is given and the policies accept it as `dev-rsa` or `sigstore` for the archive's digest; the record is the draft with that digest, signature and kind, and tag, blob, one event and one audit event are stored for it; a refusal leaves tags, events and audit alone |
| Publishing.OutcomeOfFreshSubmission | src/jaas_registry/artifact/publish.py:191-208 | how the steps end for a version not yet published: the draft with the digest, the given signature or the key applied to the digest, and the kind that goes with it; or refused with nothing stored |
| Publishing.EveryInterleavingIsSound | src/jaas_registry/artifact/publish.py:188-259 | with any number of concurrent publishers every tag names a stored blob with the recomputed digest and a verified signature, every audit event and index event names a stored tag, and each version has exactly one winner |
| Publishing.TagsAreForever | src/jaas_registry/storage/local_filesystem.py:48-58 | a stored tag is the same at every later moment |
| Publishing.LosersLeaveNoTrace | src/jaas_registry/artifact/publish.py:239-259 | in every run, no step of a publisher that ends up failing has changed a tag, an event or the audit |
| Publishing.EachVersionSpeaksOnce | src/jaas_registry/artifact/publish.py:242-259 | in every run each version is audited exactly once if its winner is done and else not at all, and announced exactly once if its winner has got that far |
| Publishing.StepsRefinePublish | src/jaas_registry/artifact/publish.py:188-259 | run alone, the steps of a publisher have the effect of the whole call for every submission: bad signature, duplicate and success |
| GitMirror.PrefixCommutesWithCommit | src/jaas_registry/drafts/git_sync.py:97-98 | committing prefixed changes acts on the folder as the plain changes would and leaves everything outside alone |
| GitMirror.BranchIsFoldOfLandedChanges | src/jaas_registry/api/draft_routes.py:234-270 | in every run the branch differs from its base only inside the draft's folder, where it is the seed with exactly the landed changes folded in |
| GitMirror.SyncStatusIsExact | src/jaas_registry/drafts/store.py:192-201 | in every run the synced commit is the branch's head and the last one that landed, and an error shows iff the last attempt failed |
| GitMirror.UpToDatePathsAgree | src/jaas_registry/api/draft_routes.py:234-270 | draft and branch agree on every path whose latest change landed, across failed saves, unsynced saves and a move |
| GitMirror.FullySyncedMeansEqual | src/jaas_registry/api/draft_routes.py:413-463 | when every save syncs and lands, they agree on every seeded and every touched path |
| GitMirror.MoveIsExact | src/jaas_registry/api/draft_routes.py:497-519 | for every file set: each file is at its nested path, no flat path survives unless it is itself such a target, every other path is unchanged |
| GitMirror.OnlyMetaIsUnlisted | src/jaas_registry/drafts/store.py:125-131 | a draft lists exactly its files whose last path part is not `_meta.json`, with their contents |
| GitMirror.MovedMetaAgreesIff | src/jaas_registry/drafts/store.py:125-131 | after a landed move an unlisted file agrees iff the branch already held it in the folder |
| GitMirror.AllAgreeAfterMoveIff | src/jaas_registry/api/draft_routes.py:497-522 | after a landed move all draft files agree iff each unlisted one was in the folder already |
| GitMirror.AllAgreeAfterConnectIff | src/jaas_registry/api/draft_routes.py:183-194 | the same after connecting, for the base branch |
| GitMirror.SavedMetaIsLeftFlat | src/jaas_registry/drafts/store.py:125-131 | a run in which such a file, saved and synced, is left at the root under a clean status |
| GitMirror.NestedMetaExists | src/jaas_registry/drafts/store.py:125-131 | `a/_meta.json` is such a file |
| GitMirror.SyncedCanHideDrift | src/jaas_registry/drafts/store.py:195-198 | a later success clears the error of an earlier failure, so a clean status does not mean equality |
| DraftGit.DraftStore.WriteFile | src/jaas_registry/drafts/store.py:139-142 | writes one file of one draft, or refuses the path and changes nothing |
| DraftGit.PathAllowedIff | src/jaas_registry/drafts/store.py:69-74 | a path is allowed iff it is not empty, not `_meta.json`, does not start with a slash and has no part `..` |
| DraftGit.DraftStore.DeleteFile | src/jaas_registry/drafts/store.py:144-146 | removes one file of one draft, or refuses the path and changes nothing |
| DraftGit.DraftStore.Replace | src/jaas_registry/drafts/store.py:151-157 | updates one draft's record, or fails on an unknown draft |
| DraftGit.DraftStore.SetGitConnection | src/jaas_registry/drafts/store.py:159-183 | records connection, seed commit and folder, and clears the error |
| DraftGit.DraftStore.SetSyncStatus | src/jaas_registry/drafts/store.py:192-201 | a success sets the commit and clears the error, a failure sets only the error |
| DraftGit.DraftStore.SetGitSubdirectory | src/jaas_registry/drafts/store.py:185-190 | records the folder and nothing else |
| DraftGit.CommitFiles | src/jaas_registry/drafts/git_sync.py:151-181 | one commit on the branch's current head with all changes, or nothing at all |
| DraftGit.SyncFileChange | src/jaas_registry/api/draft_routes.py:234-270 | never fails; for a draft with a live branch it is one sync of its mirror; without a connection nothing happens; a vanished branch is recorded as an error |
| DraftGit.PutDraftFile | src/jaas_registry/api/draft_routes.py:413-438 | a save is one save step of the draft's mirror, and every other draft's files, branch and status stay the same |
| DraftGit.DeleteDraftFile | src/jaas_registry/api/draft_routes.py:441-463 | a deletion is one delete step of the draft's mirror, and every other draft stays the same |
| DraftGit.LandMove | src/jaas_registry/api/draft_routes.py:508-522 | the move commits first and records folder and status only when it has landed |
| DraftGit.MoveDraftToGitDirectory | src/jaas_registry/api/draft_routes.py:466-522 | each refusal and its order; a failure changes nothing; a success is the mirror's single move step; the folder is the id in a listed `manifest.yaml`, dots turned into slashes, when that id fits pattern and caps, and the draft id without `draft_` when there is no usable one |
| DraftGit.CreateWorkingBranch | src/jaas_registry/drafts/git_sync.py:101-148 | succeeds iff the requests go through, the name is free and there is a target or a confirmed, non-empty first commit; exactly which branches and commits there are afterwards |
| DraftGit.SeedBranch | src/jaas_registry/api/draft_routes.py:195-216 | exactly when the seed lands on a new branch, and which branches stay when it does not |
| DraftGit.ConnectDraftToGit | src/jaas_registry/api/draft_routes.py:141-231 | succeeds iff no check refuses and the seed lands, and is then exactly the mirror of a seed commit on a branch nobody had; failure deletes the draft, moves no existing branch, and leaves exactly the stated ones behind; the folder is that of the listed `manifest.yaml` as for a move |
| DraftGit.FolderIsNamed | src/jaas_registry/drafts/git_sync.py:76-94 | the folder of a draft: the segments of a fitting id in its `manifest.yaml` joined with slashes; without that file or a usable id the draft id with `draft_` removed |
| DraftGit.SeedIsEmptyIff | src/jaas_registry/api/draft_routes.py:183-194 | there is nothing to seed iff the draft lists no file |
| DraftGit.BrokenSeedLeavesBranch | src/jaas_registry/api/draft_routes.py:205-219 | a failed connect whose working branch stays: the seed commit breaks after the cut |
| DraftGit.DraftsDoNotInterfere | src/jaas_registry/api/draft_routes.py:188-194 | work of one draft on its own branches leaves every other draft's mirror alone and no two drafts ever share a branch |
| DraftGit.DraftsRunApart | src/jaas_registry/api/draft_routes.py:413-522 | over any sequence of handlers for any number of drafts, each connected draft's mirror is the run of the steps its own handlers made |
| ConcurrentSaves.RunFolds | src/jaas_registry/drafts/git_sync.py:164-181 | in every interleaving of saves and deletions the files are the local writes in their order and the branch is the landed changes in theirs, none lost to another |
| ConcurrentSaves.AgreeIff | src/jaas_registry/api/draft_routes.py:426-463 | draft and branch agree at a path iff the last change written there and the last one landed there come to the same |
| ConcurrentSaves.NothingInvented | src/jaas_registry/api/draft_routes.py:426-463 | every landed change was written locally, and the synced commit is never ahead of the branch |
| ConcurrentSaves.WriteIsSaved | src/jaas_registry/drafts/store.py:139-142 | a write is saved at once, synced or not, and touches no other path |
| ConcurrentSaves.UnreadHeadIsRecorded | src/jaas_registry/api/draft_routes.py:255-270 | a sync that cannot read the head ends with its error recorded and nothing else changed |
| ConcurrentSaves.UnlandedIsRecorded | src/jaas_registry/api/draft_routes.py:255-270 | past that, a sync lands and clears the error iff its commit goes through on the head it read, and otherwise ends with the error recorded and the branch unmoved |
| ConcurrentSaves.SingleWriteAgrees | src/jaas_registry/api/draft_routes.py:426-463 | a path written once agrees as soon as that write has landed |
| ConcurrentSaves.CrossedSavesDisagree | src/jaas_registry/api/draft_routes.py:426-438 | a concrete run of two crossing saves that ends with a clean status and different contents |
| DraftGit.MergePublishPr | src/jaas_registry/drafts/git_sync.py:206-235 | asks at most five times and stops at the first definite answer or at a poll that raises; refuses iff that answer or the merge itself is a conflict |
| SkillDirectory.SkillDirectoryName | src/jaas_registry/drafts/git_sync.py:76-94 | the loop computes the folder of the candidate id |
| SkillDirectory.DirectoryIsSafe | src/jaas_registry/drafts/git_sync.py:50-94 | for any string the folder is the fallback, or 1 to 6 tidy segments of safe characters within 180 characters |
| SkillDirectory.FallbackIff | src/jaas_registry/drafts/git_sync.py:82-94 | the fallback is used exactly without an id, with more than 6 pieces, with a piece that holds only dashes and unsafe characters, or beyond 180 characters |
| SkillDirectory.NameCharsStay | src/jaas_registry/drafts/git_sync.py:85 | characters allowed in a folder name stay as they are |
| SkillDirectory.RunBecomesDash | src/jaas_registry/drafts/git_sync.py:85 | any run of other characters becomes one dash |
| SkillDirectory.SpacesAround | src/jaas_registry/drafts/git_sync.py:84 | white space around an id is taken off |
| SkillDirectory.ValidIdOnlyTurnsDots | src/jaas_registry/drafts/git_sync.py:83-93 | a validated id within the caps only has its dots turned into slashes |
| SkillDirectory.SharedFolderIff | src/jaas_registry/validation/models.py:16 | two validated ids within the caps share a folder iff they differ at most in a final newline |
| SkillDirectory.NewlineSharesFolder | src/jaas_registry/validation/models.py:16 | `a.b.c` with and without a final newline are two such ids |
| Archive.BuildNormalizedArchive | src/jaas_registry/artifact/packaging.py:47-61 | the bytes are a function of the file map alone and fill whole tape records |
| Archive.ExtractArchive | src/jaas_registry/artifact/packaging.py:68-88 | collects the regular members in order, skips the others, later ones overwriting earlier ones; nothing at all is no archive |
| Archive.HeaderReads | src/jaas_registry/artifact/packaging.py:54-60 | reading a written header gives back name, octal size and type, its checksum holds, and it is not an end block |
| Archive.HeaderLayout | src/jaas_registry/artifact/packaging.py:54-60 | where a written header holds name, mode, owner, group, size, time, type and magic, and that the rest is zero |
| Archive.ChecksumIsBlockSum | src/jaas_registry/artifact/packaging.py:60 | the six digits of the checksum hold the byte sum of the whole header with that field taken as eight spaces |
| Archive.SumIsSum | src/jaas_registry/artifact/packaging.py:60 | that sum is additive, and a byte alone is its own sum |
| Archive.OctalDigitsOfMode | src/jaas_registry/artifact/packaging.py:59 | permissions 644 are written as the digits 0000644 |
| Archive.PlainRecordStarts | src/jaas_registry/artifact/packaging.py:54-60 | a file of a plain name is a header with its name, mode 644, size and regular type, followed by its contents |
| Archive.PathRecordReads | src/jaas_registry/artifact/packaging.py:51 | an extended path record, whose length counts its own digits, reads back as the path |
| Archive.RecordReads | src/jaas_registry/artifact/packaging.py:52-60 | whatever follows, one file's records read back as its recovered name and its contents |
| Archive.BareMembersAreSkipped | src/jaas_registry/artifact/packaging.py:83-84 | links, devices, folders and pipes are skipped |
| Archive.ExtractUndoesBuildIff | src/jaas_registry/artifact/packaging.py:68-71 | extraction undoes building iff every name survives |
| Archive.ArchiveIdentifiesFiles | src/jaas_registry/artifact/packaging.py:47-49 | equal archives mean equal files |
| Certification.ComputeCertification | src/jaas_registry/guardrails/certification.py:41-84 | the level is the greatest with itself and all below certified; all four statuses in order; the warning ids sorted once each; nothing without a scan |
| Certification.CertifiedStatus | src/jaas_registry/guardrails/certification.py:65-72 | a level is certified iff all its checks ran and none found anything, and not attempted iff one of them is neither enabled nor mandatory |
| Certification.LevelIsMonotone | src/jaas_registry/guardrails/certification.py:59-78 | for any catalog more enabled checks and fewer findings never lower the level |
| Certification.GuardrailPolicyStore.Put | src/jaas_registry/guardrails/policy.py:48-69 | refuses unknown checks, drops mandatory ones, and every scan certifies the same level under the stored policy |
| Certification.DroppingMandatoryChangesNothing | src/jaas_registry/guardrails/policy.py:62-67 | dropping mandatory checks never changes the level |
| Certification.ResolveGuardrailsForSkill | src/jaas_registry/guardrails/skill_config.py:134-188 | adds exactly the applied catalog checks, the tenant's own rules in order and the inline rules under tenant, skill and slug; refused iff some applied id is neither a catalog check nor `custom:`, the tenant and the slug of a rule it stores |
| Certification.RulesInOrder | src/jaas_registry/guardrails/skill_config.py:152-161 | a catalog check adds no rule, and an id made of `custom:`, the tenant and a stored slug adds that rule after those before it |
| Certification.OwnConfigNeverLowers | src/jaas_registry/guardrails/skill_config.py:148-165 | for one scan a skill's own configuration never lowers its level |

## Left out

- HTTP routing, request schemas, the command line, SDK adapters, PDF, logging, metrics and tracing.
- Cryptography: digest and signature verification are parameters (`Publishing.Crypto`), and so are the hash behind checksums and UTF-8.
- Library text functions (`strip`, `lower`, `split`), runtime matching and the usage scaling are parameters of search; an error raised by runtime matching is not modelled.
- Parsing of YAML, JSON and version strings, and the grammar of ranges: parameters of the functions that need them.
- Versions with build metadata: precedence is defined for versions without it.
- Structural validation and the guardrail scan enter a publish as one verdict; what the skill's own rules find is not modelled.
- Publishing.PublishSkill: takes the archive as bytes; how the bytes come from a file map is `Archive.BuildNormalizedArchive`.
- Replication.ProceedIsSafe: a sidecar's existence test and its read are one step, which is exact because sidecars are never removed.
- Convergence.ReconcileConverges: for the whole index at once it asks for all handlers to be gone, finished ones by being forgotten; `KeyConvergence.KeyConverges` asks it of one version only. Periodic timing and stop signals are not modelled.
- Reconciliation.DriftIff: that ids, versions and digests do not hold the separators follows from validation, whose patterns are not modelled here; the hash is taken to be injective.
- Entries carry the record fields that searching, resolving and checking look at; descriptive fields such as provenance and permissions travel with the record and are not listed.
- Partial writes, the temporary file behind an overwrite, S3 behaviour, tracing spans, wall-clock lag fields and random jitter beyond its bound.
- Stores are keyed by tuples; matching of file names by pattern is not modelled.
- Scores are reals; rounding of floating-point sums is not modelled.
- DraftGit.PutDraftFile: paths are compared as written; normalisation, links and a file standing where a folder is needed are not modelled.
- ConcurrentSaves.RunFolds: the remote is taken to refuse a commit that does not continue the branch; a move beside other handlers of the same draft is not modelled.
- IndexStore.InMemoryIndex.AllIds: the class is for one thread at a time; `IdCache` is the same cache under several.
- DraftGit.CommitFiles: a commit either lands or leaves the branch alone; a lost answer to a landed update is not modelled.
- DraftGit.CreateWorkingBranch: the first commit of an empty repository is one step, although the client sends one request per file.
- DraftGit.DraftsRunApart: discarding a draft ends its mirror and is not a step.
- DraftGit.ConnectDraftToGit: the checks before any request to the remote (provider, account, repository link, URL) are one refusal reason.
- Pull request creation, releases, branch deletion and pushes by others to a working branch.
- SkillDirectory.SkillDirectoryName: only ASCII white space is stripped around an id.
- Archive.ExtractUndoesBuildIff: for files below 8 GiB, where one header field states the size.
- Archive.ExtractArchive: global and vendor headers, extended headers that say more than a path, and malformed archives are answered with `None`.
- Certification.ResolveGuardrailsForSkill: parsing of the configuration file and rule contents beyond id and slug.
- Tenants, memberships, invites, access tokens, repository links and scope matching: keyed stores that would add only easy members.
- The digest answered on a duplicate release: it is recomputed from the request's files and stored nowhere.
