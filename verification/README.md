# Atum: verified models of its core algorithms and protocols

Atum is a deployment CLI. Most of it drives other tools; this project models the parts of it that
are algorithms or protocols in their own right and proves what they guarantee over all inputs, all
interleavings or all crash points. `dafny verify dfyconfig.toml` checks everything.

| file | what it models |
|---|---|
| `OciGraph.dfy` | the OCI graph verifier, a worklist traversal with two memo tables that outlive a call |
| `FileReplace.dfy` | crash-atomic file replacement next to other processes |
| `SeedPublication.dfy` | racing publishers of the seed archive |
| `DeliveryBudget.dfy` | the delivery token pool, its exclusive jobs and cancellation |
| `ReleaseLadder.dfy`, `Convergence.dfy` | the release ladder, the upgrade planner and the convergence loop |
| `FluxHandoff.dfy` | the two views of the Big Bang root, and why a handoff makes progress |
| `BakeGraph.dfy`, `BakeInheritance.dfy`, `BakeReferences.dfy`, `BakeValidator.dfy` | the Bake graph: reachability, inheritance, reference resolution and the validator's search |
| `ValuesMerge.dfy`, `ValuesInPlace.dfy` | layered platform values, as values and as mutable maps |
| `SnapshotStream.dfy`, `SnapshotTree.dfy`, `SnapshotTreeNodes.dfy`, `SnapshotIdentity.dfy` | the source snapshot's byte stream, its Git tree, the nodes the tree is built from, and the pass that computes both identities |
| `BuildGraphText.dfy`, `GraphContents.dfy`, `GraphAttested.dfy` | the rendered build graph, and what it says of each build and of all of them |
| `BuildTags.dfy`, `GraphHash.dfy`, `ContentAddressing.dfy` | the normalization of tag lines, the hash of the graph, and content-addressed build tags |
| `ImageReference.dfy`, `MirrorTags.dfy` | image references and mirror tags |
| `FileManifest.dfy`, `FilePublication.dfy` | the Kubespray file manifest and its publication |
| `Text.dfy`, `Sorting.dfy`, `Decimal.dfy`, `Outcomes.dfy` | strings, sorting, decimal numbers, results |

Loops and in-place updates of the program are methods and classes here; each is proved equal to a
function or to a stated property, and the theorems are about those.

## What does not hold

Ten guarantees one might expect turn out to be conditional. Each has a concrete run or input that
breaks it and, where there is one, the exact condition under which it holds.

- A graph verifier that has failed once must not be used again: a node is recorded as expanded before
  its successors are looked at, so a retry on the same verifier returns success
  (`OciGraph.HalfStoreRetried`, `OciGraph.RetryAfterFailureAccepts`). Later results can be trusted if and
  only if the table is full, the root was itself bad, or everything reachable from it is good, which a
  call that hit no limit says by returning nil (`OciGraph.ReuseSoundExactly`). After a call that hit the
  limit on pending descriptors, a retry reads nothing and returns nil as well (`OciGraph.LimitsRetried`).
- The values guard joins the colliding path with dots and treats the empty text as "no collision". A
  top-level collision under the empty key joins to the empty text and sorts first, so it switches the
  guard off for every other key (`ValuesMerge.EmptyKeyBypassesGuard`). A collision is rejected if and
  only if there is none under that key (`ValuesMerge.MergePlatformValues`).
- The token pool deadlocks if and only if it holds at least two tokens and at least two exclusive
  jobs run in it (`DeliveryBudget.DeadlockExactly`). The program runs one per pool (cli/delivery/build.go:112).
- The convergence loop runs out of iterations when the Big Bang root keeps reporting incomplete
  (`Convergence.FlappingRootExhausts`); `Convergence.ExhaustedExactly` says exactly when.
- A publisher of the seed archive that finds a matching file returns success without a sync, so its
  success may not survive a crash (`SeedPublication.MatchedBeforeSync`); `SeedPublication.SuccessSurvivesExactly`
  says when it does: as soon as the publisher that placed the file is past its first directory sync.
- The graph's text names the target of `sbom-scanner` outside any tag line. Were that image a build, its
  own tag would change the graph's hash (`ContentAddressing.BuiltSbomUnstable`); the hashed text is stable
  if and only if that target is left alone (`ContentAddressing.NormalTextStableExactly`), which the hash
  enforces by demanding a mirror (`ContentAddressing.HashedSbomIsMirror`).
- A build may name the graph file itself, `platform/build/docker-bake.hcl`, among its materials. The file is
  then hashed a second time as it stands, tags included, and the pass that writes the tags changes the hash
  they were derived from (`ContentAddressing.SelfNamingUnstable`, `ContentAddressing.NamedGraphUnstable`).
  Unless strings collide, the hash survives a change of targets if and only if no build does that and the
  target of `sbom-scanner` is left alone (`ContentAddressing.GraphShaStableExactly`).
- Replacing the tag of an image reference twice is not the same as replacing it once when a quotation mark
  is left in front of the repository: quotes are trimmed before blanks, so one can hide behind a blank
  (`ImageReference.QuotedReference`, `ImageReference.QuotedRepositoryDrifts`). Without one the replacement
  settles (`ImageReference.RetagSettles`); content addressing needs that condition of its build targets.
- Materializing the Kubespray manifest looks only at the cache file that the first selected file of each
  digest names. When two files of one digest name different cache files, the order of the inventories
  decides between success and failure (`FileManifest.OrderDecides`); every order succeeds if and only if
  every selected file is in the cache (`FileManifest.SucceedsInEveryOrder`).
- A mirror's tag does not change with every (repository, digest) pair: for a group of one image only
  the first 48 digits of the digest enter (`MirrorTags.RepositoryNotInSingleTag`,
  `MirrorTags.GroupTagIdentifies`).

## Model

| member | source | states |
|---|---|---|
| `OciGraph.BlobVerifier.constructor` | cli/oci/platform.go:38-44 | a new verifier has empty tables |
| `OciGraph.BlobVerifier.VerifyGraph` | cli/oci/platform.go:289-388 | the worklist loop terminates on every graph by (limit minus expanded, stack height), its stack never exceeds the limit, and it leaves exactly the tables and the error of `Traverse`; from sound, closed tables it returns a limit error, or nil if and only if every reachable descriptor is good |
| `OciGraph.LinksExactly` | cli/oci/platform.go:316-370 | what is pushed for a good document is exactly what its decoder says it names: subject, config, layers, manifests, blobs |
| `OciGraph.ReadsExactly` | cli/oci/platform.go:316-370 | reading fails on exactly the documents that are not bounded, matching and of the right schema |
| `OciGraph.FetchFails` | cli/oci/platform.go:402-426 | why a document is not fetched: too large as declared or as stored, not there, or not the bytes its descriptor says |
| `OciGraph.BlobMeans` | cli/oci/platform.go:247-284 | with sound tables a blob is accepted if and only if the store holds its bytes and its size is not the largest integer, whether or not the tables know it |
| `OciGraph.DockerFormsToo` | cli/oci/platform.go:320-352 | Docker's lists and manifests are read like the OCI ones |
| `OciGraph.VisitMeans` | cli/oci/platform.go:247-284 | a visit is accepted if and only if the store's bytes match digest and size and a document is bounded and of the right schema, said of the decoders; it yields the document's links and keeps the tables sound |
| `OciGraph.ConflictIsBad` | cli/oci/platform.go:305-313 | a size that contradicts the tables is wrong about the store, whatever the traversal order was |
| `OciGraph.Traverse` | cli/oci/platform.go:289-388 | a run never forgets an expansion and never expands past the limit |
| `OciGraph.TraverseKeepsMemo` | cli/oci/platform.go:289-388 | every run, failed ones included, keeps the tables sound and forgets nothing admitted |
| `OciGraph.TraverseSound` | cli/oci/platform.go:296-388 | success admits everything that was pending and closes the tables under successors again |
| `OciGraph.TraverseRejects` | cli/oci/platform.go:296-388 | an error that is not a size limit comes with a reachable descriptor that really is bad |
| `OciGraph.VerdictIsExact` | cli/oci/platform.go:289-388 | from sound, closed tables and within the limits: nil if and only if every descriptor reachable along what the decoded documents name (subject, config, layer, nested manifest, blob) is good; nil leaves the tables closed |
| `OciGraph.SmallGraphsAreDecided` | cli/oci/platform.go:296-388 | a graph with few enough descriptors, naming few enough others, never hits a limit: nil if and only if all of it is good |
| `OciGraph.OneSizePerDigest` | cli/oci/platform.go:305-313 | after success no two reachable descriptors give one digest two sizes |
| `OciGraph.InventorySound` | cli/oci/platform.go:289-388 | a fresh verifier that accepts every root of an inventory has checked every graph in it |
| `OciGraph.RetryAfterFailureAccepts` | cli/oci/platform.go:376-388 | after a failure below a readable root the same verifier accepts that root, although something reachable is bad |
| `OciGraph.HalfStoreRetried` | cli/oci/platform.go:376-388 | a store with a manifest but without its config: the first call reports it, the second returns nil |
| `OciGraph.BadRootLeavesNothing` | cli/oci/platform.go:305-375 | a call whose root is bad itself leaves the tables as they were |
| `OciGraph.ReuseSoundExactly` | cli/oci/platform.go:289-388 | however the call ended, later nils mean that everything reachable is good if and only if the table is full, the root was itself bad, or everything reachable from the root is good; a call that hit no limit returned nil exactly in the last case |
| `OciGraph.VouchedIsReuseSound` | cli/oci/platform.go:289-388 | tables that are not closed under successors can be trusted all the same when every node in them is good all the way down |
| `OciGraph.LimitsRetried` | cli/oci/platform.go:296-388 | after a limit: with a full table every retry fails at the graph limit; otherwise, past the limit on pending descriptors, a retry on the root returns nil; neither reads anything, so both hold whatever the store contains by then |
| `FileReplace.SafeStep` | cli/fssecure/file.go:294-346 | an operation that keeps the files of the call, and the destination's binding or an accounted one, keeps every crash outcome accounted for |
| `FileReplace.Directory.ValidateDestination` | cli/fssecure/file.go:411-442 | the error is the policy's refusal of the present binding, unless the look-up failed |
| `FileReplace.Directory.RenameTemporary` | cli/fssecure/file.go:396-409 | binds the destination to the new file or leaves it; never replaces an entry under the absent policy |
| `FileReplace.Directory.Others` | cli/fssecure/file.go:294-346 | any rebinding of the destination by others keeps every stopping point safe, names what they made, and leaves the temporary and all existing files alone |
| `FileReplace.Directory.FillTemporary` | cli/fssecure/file.go:316-332 | success means the temporary holds exactly the written bytes on stable storage; the destination is untouched |
| `FileReplace.Directory.Install` | cli/fssecure/file.go:305-340 | up to the rename: success binds the complete new file to a destination the policy accepts, failure leaves the destination as it was or as others left it; without failures and others the error is the policy's refusal; the absent policy never replaces |
| `FileReplace.Directory.ReplaceRegular` | cli/fssecure/file.go:294-346 | others may act between any two operations; at every crash point of the call a reader finds all new bytes, a sight possible at the call, or what others put there; every file of the call keeps its bytes; nil means the new bytes, or an entry others made after the rename, are all a crash can show; a failure before the rename leaves the destination; nothing is renamed unless the policy accepts the destination as it was or as others made it, and without failures and others the error is exactly the policy's refusal; under the absent policy nothing existing is ever replaced; unless its removal fails no temporary is left |
| `FileReplace.CrashExplained` | cli/fssecure/file.go:294-346 | every sight at a safe point is the new bytes, a sight possible on the disk of the call, or the doing of others |
| `FileReplace.OldOrNew` | cli/fssecure/file.go:294-346 | with nobody else at work and a settled destination, a crash at any point of the call shows the bytes of the call or all of the new ones |
| `FileReplace.NewOrLate` | cli/fssecure/file.go:338-346 | after the directory sync a crash can show nothing but the new bytes or a later entry of others |
| `SeedPublication.StepInv` | cli/delivery/seed.go:101-147 | every step of every publisher keeps what its position says about the destination, and never changes a destination that is there |
| `SeedPublication.DestinationIsImmutable` | cli/delivery/seed.go:101-147 | in every interleaving without removals the destination's bytes never change once present, matching or not |
| `SeedPublication.SuccessSeesIdentity` | cli/delivery/seed.go:101-147 | a publisher that returns nil sees the identity it announced |
| `SeedPublication.SuccessIsSynced` | cli/delivery/seed.go:110-147 | success for a file of one's own comes after two syncs of the destination's directory and one of the source's, if that is another |
| `SeedPublication.FaultlessVerdict` | cli/delivery/seed.go:101-147 | when no operation fails a publisher that is done succeeded if and only if the archive at the destination is the one it announced |
| `SeedPublication.AllSucceedTogether` | cli/delivery/seed.go:101-147 | publishers of one archive all succeed when no operation fails and one of them placed it |
| `SeedPublication.ConfirmationSucceeds` | cli/fssecure/file.go:447-513 | the file a publisher renamed is still the one it finds when it checks |
| `SeedPublication.AtMostTwoIterations` | cli/delivery/seed.go:101-147 | no publisher goes round its loop more than twice |
| `SeedPublication.RunsAreFinite` | cli/delivery/seed.go:101-147 | every interleaving of any number of publishers is finite, with an explicit bound |
| `SeedPublication.RemovalDefeatsTheBound` | cli/delivery/seed.go:101-147 | if others may remove the file, the loop can be made to run any number of times |
| `SeedPublication.SuccessSurvivesExactly` | cli/fssecure/file.go:504-512 | a success is guaranteed to survive a crash if and only if the file was durable from the start or the publisher that placed it got past its first directory sync, whether or not it failed later |
| `SeedPublication.OwnerSuccessSuffices` | cli/delivery/seed.go:135-145 | once the publisher that placed the file has reported success the archive survives |
| `SeedPublication.FailedOwnerSuffices` | cli/fssecure/file.go:504-512 | a run in which the publisher that placed the file fails at its second sync and another's success survives all the same |
| `SeedPublication.MatchedBeforeSync` | cli/delivery/seed.go:110-131 | a run in which a publisher finds the file, returns nil, and nothing guarantees the archive yet |
| `DeliveryBudget.EffectiveWorkLimit` | cli/config/parallelism.go:7-18 | the capacity is at least one; it is the request, else the configured value, else the fallback, else the default, capped by the processors and the maximum |
| `DeliveryBudget.StepInv` | cli/delivery/types.go:67-115 | every step, cancellation included, keeps the tokens in the channel equal to the tokens held |
| `DeliveryBudget.TokensConserved` | cli/delivery/types.go:67-115 | conservation in every reachable state, and all tokens returned when everybody is done |
| `DeliveryBudget.ExclusiveRunsAlone` | cli/delivery/types.go:90-115 | while exclusive work runs nobody else works, holds a token or can take one |
| `DeliveryBudget.RunsAreFinite` | cli/delivery/types.go:67-115 | every schedule of finitely many tasks is finite, with an explicit bound |
| `DeliveryBudget.StuckMeansTwoCollectors` | cli/delivery/types.go:90-115 | in a stuck pool two exclusive jobs each hold a part of a full channel |
| `DeliveryBudget.DeadlockExactly` | cli/delivery/types.go:67-115 | a pool can get stuck if and only if it has two tokens or more and two exclusive jobs or more |
| `ReleaseLadder.ValidateClusterReleases` | cli/config/config.go:3391-3445 | a problem is reported if and only if it is a fault of the ladder, so none if and only if the ladder is valid |
| `ReleaseLadder.FaultlessMeansValid` | cli/config/config.go:3391-3445 | a ladder is valid, rung by rung and step by step, if and only if it has no fault of any kind, although the check skips rungs it cannot read |
| `ReleaseLadder.KubesprayKeepsPace` | cli/config/config.go:3425-3440 | over any stretch of a valid ladder Kubespray never goes back and climbs as many minors as Kubernetes |
| `ReleaseLadder.StrictlyIncreasing` | cli/config/config.go:3391-3445 | pairwise checks of neighbours make the whole ladder strictly increasing |
| `ReleaseLadder.TextIsUnique` | cli/config/config.go:3391-3445 | two rungs never share a version text |
| `ReleaseLadder.ReleaseIndex` | cli/orchestration/upgrade.go:447-454 | the first rung with that text, or -1 if and only if there is none |
| `ReleaseLadder.LookupFinds` | cli/orchestration/upgrade.go:439-454 | looking up a rung's own version finds that rung |
| `Convergence.PlanFromRung` | cli/orchestration/upgrade.go:330-433 | the plan made on each rung, in full: current at the top, otherwise the next rung, platform first exactly when the root is incomplete and both versions satisfy the constraints |
| `Convergence.PlanningIsTotalOnTheLadder` | cli/orchestration/upgrade.go:15-43 | planning a live cluster succeeds if and only if its version is a rung and what it reads is readable |
| `Convergence.PlanningRefuses` | cli/orchestration/upgrade.go:15-43 | the reason planning gives: newer than the target, off the ladder, root unreadable, cluster unavailable; an absent cluster gets the target installed |
| `Convergence.ValidatesExactly` | cli/orchestration/upgrade.go:242-314 | a plan is accepted if and only if it is the install, the current state or the next rung, and its mode may carry it out; a right plan in the wrong mode is refused for the missing cluster, for disabled upgrades or for the platform |
| `Convergence.PlansValidate` | cli/orchestration/upgrade.go:242-314 | every plan made on a valid ladder passes validation in full mode with automatic upgrades; the other modes are in `ValidatesExactly` |
| `Convergence.ExecutionReachesGoal` | cli/orchestration/upgrade.go:45-190 | success of one plan means it was valid and not platform first, the last version read is the one it was for, and an upgrade started from the version it was planned for |
| `Convergence.ExecutesExactly` | cli/orchestration/upgrade.go:45-190 | one plan succeeds if and only if it may be carried out, its effect succeeds and the versions read before and after are the ones it is for |
| `Convergence.ExecutionFails` | cli/orchestration/upgrade.go:45-190 | why a plan that may be carried out fails: its effect did, a version could not be read, or was not the expected one |
| `Convergence.ConvergePlanned` | cli/orchestration/upgrade.go:45-190 | the step loop computes `Execute`: error and last reading, which on success is the plan's goal; `ExecutesExactly` says when that is |
| `Convergence.ConvergeOrchestration` | cli/command/engines.go:542-590 | the bounded loop, executing each plan, computes the outcome of `Converge`: error, whether the platform was applied, iterations |
| `Convergence.DisabledUpgradesStop` | cli/command/engines.go:542-590 | without automatic upgrades and not asked to upgrade, a run below the top stops as disabled, without an effect |
| `Convergence.UpgradeNeedsCluster` | cli/command/engines.go:542-590 | a run that was asked to upgrade stops at an absent cluster |
| `Convergence.PlatformGoesFirst` | cli/command/engines.go:542-590 | outside a full convergence a step the platform must precede stops the run |
| `Convergence.FailedHandoffStops` | cli/command/engines.go:573-577 | a handoff that fails ends the run, with what was applied before |
| `Convergence.ConvergesWithinBound` | cli/command/engines.go:542-590 | from rung i of n it succeeds within 2(n-1-i)+1 iterations, from an absent cluster within 2 |
| `Convergence.ObedientSucceeds` | cli/command/engines.go:542-590 | if effects and handoffs succeed and the cluster shows what was done to it, every plan that is made is carried out |
| `Convergence.Climb` | cli/command/engines.go:542-590 | a successful iteration below the top either hands off and stays on its rung or climbs exactly one, by what the executed plan has read |
| `Convergence.NeverSkips` | cli/command/engines.go:542-590 | each observation of a run is on the rung of the one before or on the next, whatever steps fail later |
| `Convergence.SuccessMeansTarget` | cli/command/engines.go:542-590 | success in any mode and any world means the last observation is the top rung |
| `Convergence.ExhaustedExactly` | cli/command/engines.go:542-590 | with nothing assumed about the root: exhaustion if and only if fewer than n-1-i of the first 2n+2 observations plan a Kubernetes step, success otherwise |
| `Convergence.FlappingRootExhausts` | cli/command/engines.go:542-590 | a root that never completes exhausts the loop |
| `Convergence.AppliedMeansHandoff` | cli/command/engines.go:542-590 | the platform-applied flag is set if and only if a handoff succeeded |
| `Convergence.FullConvergenceDelivers` | cli/command/root.go:837-864 | a full convergence that succeeds applied the platform at least once and left the cluster on the top rung |
| `FluxHandoff.ObserveFluxHelmRoot` | cli/kube/flux_root.go:33-119 | readable if and only if both objects are absent, or both are there with the right URL, some tag, and the release taking its chart from the source; complete if and only if also the tag is right and both are ready |
| `FluxHandoff.ObserveResourceStatuses` | cli/platform/status.go:428-455 | one status per object, sorted, with its own readiness; all ready if and only if the listing is there, not empty and all ready; the root is reported as the cluster has it |
| `FluxHandoff.EnsureResourceStatus` | cli/platform/status.go:568-579 | the index of an entry of that name; a missing one is added as not ready and nothing else changes |
| `FluxHandoff.RequireCurrentBigBangRoot` | cli/platform/status.go:212-303 | afterwards both root entries are ready if and only if the root is healthy, each for its own reasons; every other entry is kept |
| `FluxHandoff.ObserveFluxReconciliation` | cli/platform/status.go:110-210 | complete if and only if the root is healthy and everything listed in all six dimensions is ready; then the planner reads the root of that snapshot as complete and no plan made with that reading is platform first |
| `FluxHandoff.HandoffsConverge` | cli/platform/prepare.go:425-435 | with handoffs that wait for a complete report the root is settled after each, and convergence from rung i of n succeeds within 2(n-1-i)+1 iterations |
| `BakeGraph.Reachable` | cli/config/bakegraph.go:327-349 | the least set that holds the roots and is closed under target contexts |
| `BakeInheritance.ResolveBakeTarget` | cli/config/bakegraph.go:146-232 | the loop over parents with its stack of labels computes `Resolve`, errors included, on every graph |
| `BakeInheritance.ResolvesExactly` | cli/config/bakegraph.go:146-165 | resolution succeeds if and only if everything inherited is there and readable and no inherited chain closes; diamonds are fine |
| `BakeInheritance.ErrorIsReal` | cli/config/bakegraph.go:146-165 | the error names a template that is inherited and is missing, unreadable, or on a loop, as it says |
| `BakeInheritance.LastWriterWins` | cli/config/bakegraph.go:166-232 | field by field and key by key: the template's own attribute, else the last parent that sets it |
| `BakeReferences.StageByName` | cli/config/bakegraph.go:405-436 | the stage a lower-cased name stands for is one with that name |
| `BakeReferences.Resolve` | cli/config/bakegraph.go:476-505 | a reference to a stage always goes to a strictly earlier one |
| `BakeReferences.ItemsExactly` | cli/config/bakegraph.go:438-474 | what is examined of a stage is exactly its base, the sources of its COPY commands and mounts, and the inputs of its ADD commands |
| `BakeReferences.ResolveMeans` | cli/config/bakegraph.go:476-505 | what a source resolves to is what it means: scratch, the base, the last earlier stage of that name or number, a named context, a target; and it is refused exactly when it means none of them |
| `BakeReferences.AddMeans` | cli/config/bakegraph.go:457-471 | an ADD input is refused if and only if it is dynamic, or remote and not pinned by its checksum |
| `BakeReferences.ExpandsBraces` | cli/config/bakegraph.go:507-519 | a whole reference in braces stands for that argument |
| `BakeReferences.ExpandsName` | cli/config/bakegraph.go:507-519 | without braces too, unless the name is itself in braces that stand for another argument |
| `BakeReferences.ExpandsNothingElse` | cli/config/bakegraph.go:507-519 | every other text stands for itself |
| `BakeValidator.Validator.ValidateTarget` | cli/config/bakegraph.go:373-403 | terminates on every graph, keeps the search invariant, restores the trail, and leaves the target handled |
| `BakeValidator.Validator.ValidateStage` | cli/config/bakegraph.go:438-474 | every stage newly seen has been followed to its end |
| `BakeValidator.Validator.ValidateReference` | cli/config/bakegraph.go:476-505 | the reference has been followed, or a problem was reported for it |
| `BakeValidator.WalksDescend` | cli/config/bakegraph.go:373-403 | with no cycle reported, finishing order is a reverse topological order along every walk |
| `BakeValidator.ValidateDeliveryTargets` | cli/config/bakegraph.go:351-362 | a cycle is reported if and only if the graph of actually referenced targets below the roots has one, and only at targets on one; any other problem is reported if and only if it is a fault of a reachable target |
| `BakeValidator.SoundTargetsAreContained` | cli/config/bakegraph.go:476-505 | if nothing is reported, whatever a built stage takes its files from (FROM, COPY, mounts) is scratch, the policy base, a strictly earlier stage or a named context |
| `BakeValidator.SoundAddsArePinned` | cli/config/bakegraph.go:457-471 | if nothing is reported, no ADD of a built stage is dynamic, and every remote one is pinned by its checksum |
| `ValuesMerge.FirstValueCollision` | cli/config/platform_values.go:95-121 | the dotted path of the first collision in sorted depth-first order, or the empty text if there is none |
| `ValuesMerge.MergedLeaves` | cli/config/platform_values.go:123-133 | a merge holds exactly the leaves of the upper layer and those of the lower one that it does not override |
| `ValuesMerge.MergePlatformValues` | cli/config/platform_values.go:85-93 | rejects if and only if there is a collision and none under the empty top-level key; the error is the first collision; what is accepted is the three layers merged and, bar a collision under that key, keeps every generated leaf and does not depend on the order of the upper layers |
| `ValuesMerge.LeavesProtected` | cli/config/platform_values.go:85-93 | without a collision every generated leaf is found unchanged at its path |
| `ValuesMerge.LayersCommute` | cli/config/platform_values.go:85-93 | without a collision generated and profile may be layered in either order |
| `ValuesMerge.ClashIsOverwritten` | cli/config/platform_values.go:123-133 | at a collision of unlike values the profile's value survives, so the guard is needed |
| `ValuesMerge.EmptyKeyBypassesGuard` | cli/config/platform_values.go:85-121 | an input whose generated image is overwritten although a collision exists |
| `ValuesInPlace.CloneValue` | cli/config/platform_values.go:143-156 | a copy that reads the same and is made of new objects only |
| `ValuesInPlace.CloneMap` | cli/config/platform_values.go:135-141 | the same for a map, whatever order its keys are visited in |
| `ValuesInPlace.MergeInto` | cli/config/platform_values.go:123-133 | in-place merging makes the destination read as `Merge` of the two; the source is untouched and nothing of it is shared |
| `ValuesInPlace.MergeLayers` | cli/config/platform_values.go:85-93 | the result reads as the merge, consists of new objects only, and no input is modified |
| `SnapshotStream.EntryMeans` | cli/gitsnapshot/snapshot.go:410-470 | exactly which record a file contributes: its own name, a proper path; its normalized mode; the replacement of a regular file, else the bytes read, as many as captured unless it is a link |
| `SnapshotStream.EntryErrors` | cli/gitsnapshot/snapshot.go:410-470 | why a file stops the identity: unsupported mode, replacement of a non-regular file, unreadable, size changed, bad path, in this order |
| `SnapshotStream.RecordDecodes` | cli/gitsnapshot/snapshot.go:412-466 | one record is read back off the front of any stream, although its bytes may hold NULs |
| `SnapshotStream.RoundTrip` | cli/gitsnapshot/snapshot.go:398-478 | decoding an encoded snapshot with NUL-free names gives its entries back |
| `SnapshotStream.EqualIdentityMeansEqualSource` | cli/gitsnapshot/snapshot.go:398-478 | unless the two streams collide, identities are equal if and only if names, normalized modes and bytes are |
| `SnapshotStream.OverridesAreSubstitution` | cli/gitsnapshot/snapshot.go:398-478 | an identity with replacements is the identity of the snapshot with those contents substituted |
| `SnapshotTree.AddAddsOne` | cli/gitsnapshot/snapshot.go:501-527 | adding a file adds that one occurrence and changes no other |
| `SnapshotTree.BuildFlattens` | cli/gitsnapshot/snapshot.go:467-469 | the tree holds exactly the inserted (path, mode, hash) entries, with multiplicity |
| `SnapshotTree.SameFilesSameHash` | cli/gitsnapshot/snapshot.go:529-545 | trees with the same files have the same hash, however they were built |
| `SnapshotTree.HashIgnoresOrder` | cli/gitsnapshot/snapshot.go:501-545 | every order of insertion gives the same root hash |
| `SnapshotTreeNodes.TreeNode.constructor` | cli/gitsnapshot/snapshot.go:249-252 | a new node is empty |
| `SnapshotTreeNodes.AddFile` | cli/gitsnapshot/snapshot.go:501-527 | the linked nodes afterwards represent the tree with the file added, without sharing; a bad path component is refused |
| `SnapshotTreeNodes.HashNodes` | cli/gitsnapshot/snapshot.go:529-545 | the hash of the sorted lines and the directories' hashes, in whatever order the map yields them |
| `SnapshotIdentity.ComputeIdentity` | cli/gitsnapshot/snapshot.go:398-499 | one pass yields the hash of the stream and the commit of the tree of exactly the records, or the error of the first file that cannot contribute, a bad path included |
| `SnapshotIdentity.ItemIdentifies` | cli/gitsnapshot/snapshot.go:467-469 | what a record adds to the tree determines the record, unless two contents collide |
| `SnapshotIdentity.RecordsFromIndex` | cli/gitsnapshot/snapshot.go:398-470 | the records of an index with distinct names have proper paths, all different |
| `SnapshotIdentity.CommitIgnoresOrder` | cli/gitsnapshot/snapshot.go:467-499 | the commit depends on which files there are, not on their order |
| `SnapshotIdentity.StreamDeterminesCommit` | cli/gitsnapshot/snapshot.go:398-499 | unless the two streams collide, equal stream hashes mean equal records and equal commits |
| `ImageReference.RetagSettles` | cli/update/contract.go:1449-1496 | unless the repository begins with a quotation mark: a reference with a replaced tag has that tag and the old repository, qualified with its registry; it is accepted again, and replacing the tag again changes nothing |
| `ImageReference.QualifiedExactly` | cli/update/contract.go:1459-1473 | how a repository is qualified, by its first component: a registry is kept, Docker Hub is spelled one way, a bare name is a library image |
| `ImageReference.RepositoryReads` | cli/update/contract.go:1449-1458 | a digest is cut off, and a colon before the last slash is a port, not a tag |
| `ImageReference.NoReference` | cli/update/contract.go:1498-1505 | a URL, a template, and text with a blank or a variable are no references |
| `ImageReference.QuotedRepositoryDrifts` | cli/update/contract.go:1449-1496 | the condition is needed: behind a leading quotation mark a second replacement yields another reference |
| `ImageReference.QuotedReference` | cli/update/contract.go:1449-1496 | a reference for which that happens, with any registry library that parses it trimmed |
| `BuildTags.NormalizeBuildGraphTargetTags` | cli/config/buildgraph.go:289-320 | the line loop computes `Normalize` and counts the tag lines; it fails if and only if a tag line is not canonical |
| `BuildTags.NormalizeIdempotent` | cli/config/buildgraph.go:289-320 | normalizing twice is normalizing once |
| `BuildTags.NormalizeForgetsExactlyTags` | cli/config/buildgraph.go:289-320 | two texts normalize alike if and only if they differ at most inside tag lines |
| `BuildGraphText.QuoteInjective` | cli/update/build_mapping.go:176-183 | quoted text determines its value, control characters included |
| `BuildGraphText.RenderRetargeted` | cli/update/build_mapping.go:45-285 | graphs of documents that differ in build targets agree outside tag lines, except in the line that names the SBOM generator's target |
| `BuildGraphText.RenderedTags` | cli/update/build_mapping.go:222-283 | reading the graph back, a Bake target publishes exactly the targets of the builds of that name |
| `BuildGraphText.RenderedSection` | cli/update/build_mapping.go:222-298 | what the text says under a Bake target's name is what the blocks of the builds of that name say |
| `GraphContents.GraphSays` | cli/update/build_mapping.go:222-285 | read back from the text, each build has its Dockerfile, its recipe's stage, exactly its recipe's named contexts and its own arguments |
| `GraphContents.ContextsAreDeclared` | cli/update/build_mapping.go:58-160 | every image a compatibility build starts from is among its declared materials; the operator's is its pinned builder |
| `GraphContents.ContextsAreGiven` | cli/update/build_mapping.go:58-160 | no build lacks its upstream image, nor the operator its builder and its sources |
| `GraphContents.ContextsAreSorted` | cli/update/build_mapping.go:234-256 | the named contexts stand in sorted order |
| `GraphContents.OperatorBuilderIs` | cli/update/build_mapping.go:47-57 | the operator's builder is the first mirror of that id with a source and a digest that is not all zeros; there is none if and only if no such mirror is |
| `GraphContents.VariablesSay` | cli/update/build_mapping.go:175-196 | read back from the text, each variable has the document's value |
| `GraphContents.GroupSays` | cli/update/build_mapping.go:198-205 | the default group lists every build, in Bake-target order, and nothing else |
| `GraphAttested.BuildsAreAttested` | cli/update/build_mapping.go:206-298 | every build inherits full provenance and the document's SBOM generator, and through them platform, timestamp and output, and caches under its own name |
| `GraphHash.GraphShaIdentifies` | cli/config/buildgraph.go:171-287 | unless strings collide, two documents with their files have the same graph hash if and only if ignore file, graph without tags, hashed files with paths and modes, and environment agree |
| `GraphHash.StreamOfInputs` | cli/config/buildgraph.go:171-287 | there is a hash if and only if all of these can be read, and what is hashed is made of them alone |
| `GraphHash.FilesExactly` | cli/config/buildgraph.go:194-221 | the hashed files are exactly those the builds' materials stand for, and the two Dockerfiles |
| `GraphHash.CanonicalSorted` | cli/config/buildgraph.go:222-243 | each file is hashed once, in path order |
| `GraphHash.ReferenceExactly` | cli/config/buildgraph.go:244-266 | the reference of a required mirror is that of the last one with its id that has a source and a digest |
| `GraphHash.MirrorsAreNeeded` | cli/config/buildgraph.go:244-275 | there is an environment if and only if buildkit and the SBOM scanner are mirrored, and the operator's builder if the operator is built |
| `ContentAddressing.NormalTextStableExactly` | cli/config/buildgraph.go:171-192 | changing build targets leaves the hashed text alone if and only if it leaves the target of sbom-scanner alone |
| `ContentAddressing.HashedSbomIsMirror` | cli/config/buildgraph.go:236-269 | with unique ids, a graph that can be hashed never builds its sbom-scanner |
| `ContentAddressing.TextDeterminesTargets` | cli/update/build_mapping.go:222-283 | with distinct Bake target names the graph's text is the same if and only if every target is |
| `ContentAddressing.GraphShaStableExactly` | cli/config/buildgraph.go:171-287 | unless strings collide, changing build targets leaves the graph hash alone if and only if nothing changed, or the target of sbom-scanner did not change and no build names the graph file among its materials |
| `ContentAddressing.GraphShaStable` | cli/config/buildgraph.go:171-287 | the pass leaves the graph hash alone, collisions or not, provided sbom-scanner is not a build and no build names the graph file |
| `ContentAddressing.NamedGraphUnstable` | cli/config/buildgraph.go:198-239 | if a build names the graph file, the pass changes the hash it started from as soon as it changes any target |
| `ContentAddressing.SelfNamingUnstable` | cli/config/buildgraph.go:198-239 | a document for which that happens |
| `ContentAddressing.SbomBuildUnstable` | cli/update/build_mapping.go:164-196 | if sbom-scanner is a build without its tag, the pass changes the hashed text |
| `ContentAddressing.BuiltSbomUnstable` | cli/update/build_mapping.go:164-196 | a document for which that happens |
| `ContentAddressing.ProjectContentAddressedBuildTargets` | cli/update/image_mapping.go:357-388 | one pass retags every build from its own input and leaves mirrors alone; it fails if and only if, for some build, the graph hash is malformed or the old or the new target is refused: a digest part, a blank or template, or the registry library |
| `ContentAddressing.BuildInputIdentifies` | cli/config/config.go:1057-1096 | unless strings collide, two builds have the same input hash if and only if the graph hashes and all fields but the target agree |
| `ContentAddressing.MirrorInputIdentifies` | cli/config/config.go:1057-1096 | two mirrors have it if and only if they agree, target included; the graph hash does not enter |
| `ContentAddressing.TagIdentifies` | cli/config/config.go:1057-1105 | two retagged builds carry the same tag if and only if graph hash and build are the same |
| `ContentAddressing.TagsFollowInputs` | cli/config/config.go:1057-1105 | from one document and its files to another, a build keeps its tag if and only if nothing the graph hash covers and nothing in its entry but the target changed |
| `ContentAddressing.RetargetSettles` | cli/config/config.go:1057-1105 | a retagged build keeps its input hash, carries the tag derived from it, can be retagged again, and a second retagging changes nothing |
| `ContentAddressing.RenderedGraphPasses` | cli/config/buildgraph.go:44-60 | in the graph rendered from the images every build's Bake target publishes exactly its target |
| `ContentAddressing.StaleGraphFails` | cli/config/buildgraph.go:44-60 | the graph rendered before the pass passes a build's check if and only if the pass left that target alone |
| `ContentAddressing.ContentAddressingFixpoint` | cli/config/config.go:2653-2667 | unless a build names the graph file: one pass changes neither the graph hash nor any input hash, satisfies the lock's tag check and, per Bake target, the graph's tag check, and a second pass is a no-op |
| `MirrorTags.GroupImages` | cli/config/config.go:1156-1197 | succeeds if and only if ids are distinct and every mirror is valid; the table then holds each group's members |
| `MirrorTags.SortedMembersGivePairs` | cli/config/config.go:1199-1205 | however equal members are ordered, the hashed pairs come out in one canonical order |
| `MirrorTags.MirrorTargetTags` | cli/config/config.go:1148-1246 | succeeds if and only if ids are distinct, every mirror is valid and every group's tag is legal; then every mirror, and nothing else, has its tag |
| `MirrorTags.NativeTagExactly` | cli/config/config.go:1248-1302 | an engine's own image has its upstream tag if it keeps the contract of its engine, and is refused otherwise; every other image has none |
| `MirrorTags.NativeKeepsTag` | cli/config/config.go:1237-1246 | Kubespray's and Flux's own images keep their upstream tag; every other image gets its group's |
| `MirrorTags.DerivedTag` | cli/config/config.go:1107-1136 | a derived tag is the upstream tag, then -mirror- or -mirror-set-, then 48 digits of the digest or of the set's hash |
| `MirrorTags.HubIs` | cli/config/config.go:1176-1190 | the hub is the target's repository without its last component |
| `MirrorTags.OrderIsIrrelevant` | cli/config/config.go:1148-1246 | success, failure and the id-to-tag map are the same for every order of the images |
| `MirrorTags.TagsAreUnique` | cli/config/config.go:1198-1246 | at most one map fits, so map iteration order does not show |
| `MirrorTags.GroupsByHubAndVersion` | cli/config/config.go:1191-1197 | with NUL-free references two images share a group if and only if they share hub and version |
| `MirrorTags.GroupTagIdentifies` | cli/config/config.go:1107-1236 | when two groups get the same tag, both ways: several images, exactly when hub, version and all pairs agree; one image, exactly when version and digest prefix agree; never across the two |
| `MirrorTags.TagChangesWithContents` | cli/config/config.go:1148-1246 | between two lock files a non-native tag stays the same exactly when the group's pairs do, or a lone image keeps its digest prefix |
| `MirrorTags.RepositoryNotInSingleTag` | cli/config/config.go:1107-1136 | two repositories, one tag: a lone image's repository is not part of it |
| `FileManifest.GroupFiles` | cli/delivery/kubespray_files.go:281-320 | groups the selection by digest, or fails if and only if a path has two digests or a digest two sizes, and says which; the cache file of a digest is that of its first selected file |
| `FileManifest.GatherBlobs` | cli/delivery/kubespray_files.go:321-345 | succeeds if and only if every digest's cache file holds its bytes, and otherwise says of one digest whether its file is missing or differs; then each digest once, its paths sorted, and the total of the sizes |
| `FileManifest.WriteManifest` | cli/delivery/kubespray_files.go:346-376 | the text is the rendering of the rows; it fails if and only if a path cannot be carried |
| `FileManifest.MaterializeFileManifest` | cli/delivery/kubespray_files.go:281-376 | succeeds if and only if the selection is not empty and consistent, the first file of each digest is in the cache and every path can be written; the error names something that is indeed wrong; on success the blobs are the canonical grouping of the selection, count and total match, the text renders them and, as digests are plain text, parses back to them |
| `FileManifest.SucceedsInEveryOrder` | cli/delivery/kubespray_files.go:281-376 | every order of the inventories succeeds if and only if the selection is not empty and consistent, can be written, and every selected file is in the cache |
| `FileManifest.OrderDecides` | cli/delivery/kubespray_files.go:299-306 | two files of one digest under the cache directory, one of them not there: success in one order, failure in the other |
| `FileManifest.GroupingUnique` | cli/delivery/kubespray_files.go:281-376 | selections with the same files have one canonical grouping |
| `FileManifest.PathsPartitioned` | cli/delivery/kubespray_files.go:281-376 | each selected path is in exactly one blob, once, and nothing else is |
| `FileManifest.TotalPermutation` | cli/delivery/kubespray_files.go:321-345 | the byte total does not depend on the order of the blobs |
| `FileManifest.ParseRender` | cli/delivery/kubespray_files.go:346-376 | the text of rows with plain digests and paths parses back to the same (digest, size, paths) rows |
| `FileManifest.TextIdentifies` | cli/delivery/kubespray_files.go:346-376 | equal texts mean equal rows |
| `FileManifest.ManifestIsCanonical` | cli/delivery/kubespray_files.go:281-376 | inventory order and map order do not show in the manifest |
| `FileManifest.NewProjection` | cli/delivery/kubespray_files.go:106-146 | builds the path table, or fails if and only if it is empty, an entry is invalid or a path repeats, and says which |
| `FileManifest.EntriesDistinct` | cli/delivery/kubespray_files.go:85-104 | the entries of a canonical grouping have distinct paths |
| `FileManifest.EntriesExactly` | cli/delivery/kubespray_files.go:85-104 | a projection has an entry for each selected file, with its digest and size, and no other |
| `FileManifest.ProjectManifest` | cli/delivery/kubespray_files.go:85-104 | projecting a materialized manifest never fails as duplicated |
| `FilePublication.ParseMissingDigests` | cli/delivery/kubespray_files.go:597-619 | accepted if and only if every field is a digest of the manifest and none repeats; the error says which |
| `FilePublication.UploadAll` | cli/delivery/kubespray_files.go:471-502 | overlapping uploads up to the limit, starting, arriving and ending in any order: exactly the successful ones are reported, once each; no failure if and only if all were uploaded |
| `FilePublication.PublishFileManifest` | cli/delivery/kubespray_files.go:413-520 | a report that failed, was cut off or is not acceptable ends it with that error and changes nothing, and without failures nothing else does; no activation after a failed upload; when activation is issued all blobs are present if and only if the helper's report left out none of the missing ones; on success each blob is reported exactly once, uploaded or reused |

## Left out

- Process execution (Terraform, Ansible, SSH, Docker), network clients, timeouts and credentials: they
  appear only as effects that succeed or fail and as observations.
- Parsing of HCL, YAML, JSON, Dockerfiles and versions: parsed values are taken as given; a version is a
  triple, without pre-release and build metadata.
- SHA-256 is an arbitrary function. Where identity of content matters, the absence of a collision
  between the two streams in question is an explicit assumption; nothing assumes a globally injective hash.
- Context cancellation of the graph verifier and of the convergence loop, and the platform selection around
  the graph verifier (`runtimeDigests`, `LinuxAMD64Manifest`).
- `graph.validate`, `matrixContexts` and the other field checks of the configuration: single-branch checks.
- FileReplace.Directory.ReplaceRegular: the destination's name must not start with the temporary prefix, and other
  processes touch the destination but not the temporary. Whether operations, or only the removal of the temporary, may
  fail is a constant of the directory, so that what holds without failures can be said.
- Convergence.ConvergesWithinBound: assumes what the loop's bound is built on: plans that are carried out, nobody
  else changing the Kubernetes version between two looks, and a root that is complete right after a handoff; the
  last is derived from the handoff's report in `FluxHandoff.HandoffsConverge`.
- FluxHandoff.HandoffsConverge: assumes that the next observation sees the state the handoff's report was on.
- BakeReferences.StageByName: lower-casing is ASCII only.
- ImageReference.RetagSettles: white space around a reference is blanks, tabs and line ends; strings.TrimSpace drops the
  vertical tab, the form feed and Unicode's other spaces as well.
- GraphHash.GraphShaIdentifies: assumes that paths, modes and the settings that enter the environment are single lines
  without NULs, as otherwise different inputs can be written down alike, and that hashes are 64 hexadecimal digits.
- ContentAddressing.TagsFollowInputs: assumes of the canonical JSON encoding that different entries are encoded differently.
- GraphContents.GraphSays: Bake target names are single lines, and no other build has the name in question.
- SnapshotIdentity.ComputeIdentity: open, read and close failures are one case; encoding a tree or commit object does
  not fail.
- MirrorTags.MirrorTargetTags: one failure value; which of several errors is reported depends on the order of
  the images and of the map, and is not modelled. The registry library's tag syntax is a parameter.
- ContentAddressing.ContentAddressingFixpoint: assumes that Bake target names are single lines, that no build's
  repository begins with a quotation mark, and of the registry library that a tagged reference it accepts also parses.
- BuildGraphText.QuoteInjective: every ASCII character is quoted as strconv.Quote does, but characters beyond ASCII stand
  for themselves, because which of them Go escapes depends on its table of printable characters.
- ContentAddressing.ProjectContentAddressedBuildTargets: which references the registry library accepts is a parameter,
  and the reason of a refusal is not reported.
- ContentAddressing.GraphShaStableExactly: which files a material stands for, and their bytes and modes, are parameters
  that do not change with the build targets; the graph file alone does.
- SeedPublication.SuccessSurvivesExactly: nothing but a completed directory sync makes a file durable, and its bytes are
  on disk before it is renamed.
- FileManifest.MaterializeFileManifest: byte totals are unbounded integers.
- FilePublication.PublishFileManifest: the 64 KiB limit of the report is a flag.
- DeliveryBudget.DeadlockExactly: the pool alone; that the program runs one exclusive job per pool is read off
  its callers, not derived.
