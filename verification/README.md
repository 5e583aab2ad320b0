# Union CSI: a verified model of its protocols

Union CSI provisions a volume as a set of lower claims, attaches it by running a pod that
merges them on a node, and binds the merged directory into consumers. This project models
the parts of it that run against a world that moves by itself, and proves what their answers
mean.

Every protocol is a total function from a state and a step to the next state; a run is any
sequence of steps. What the outside does is data: steps of the cluster, replies of the API
server, faults, the moves of other calls. Beside each machine stands the code in its own
imperative form, over a world that moves between any two of its accesses, proved to take
exactly the steps of one call of the machine; so the theorems about runs hold of the code.

- **Attach and detach** (`PodHistory`, `AttachMachine`, `AttachSteps`, `AttachInvariant`,
  `AttachTheorems`, `AttachWitnesses`, `Attacher`). The API server is its whole history of pod stores, the
  informer cache an index into it that only grows. Pods are incarnations: one is identified by
  the history index at which it was born, so ids never repeat. Any number of Attach and Detach
  calls are in flight. Attach and Detach read the cache and write to the server.
- **Provisioning** (`Names`, `SplitSpecs`, `Volumes`, `Provisioning`, `ProvisioningSteps`,
  `ProvisioningInvariant`, `ProvisioningTheorems`, `ProvisioningClaims`, `ProvisioningVariant`,
  `ProvisioningContract`, `Provisioner`). A VolumeSplit is the write-ahead record of the claims of a
  volume. Every API access may be refused, may take effect and lose its response, or may be the last
  before a crash of the driver. The claim cache is an index into the history of the claim store that only grows.
  Calls of different volumes interleave freely, at
  most one is in flight for a volume, as section "Concurrency" of the Container Storage
  Interface specification v1.8.0 asks of the orchestrator.
- **The blocking merger** (`Merger`, `MergerTheorems`, `MergerWitnesses`, `BlockingMerger`).
  One mutex, one flag, two channels of capacity one; any number of goroutines.
- **Mounts, pods, parameters, handlers** (`Mounter`, `PodBuilder`, `AttachPods`, `Parameters`,
  `Controller`).

## What the cluster is assumed to do

- The scheduler binds a pod once, to the node its selector names, and the hostname label of a
  node is its name. Deletion marks are never taken back. Everything else about a pod (phase,
  removal, marking by others) may happen at any time.
- Attach pods and the claims named by a split are created by the driver only.
- `makeAttachPodName` hashes the volume id; the model uses the id itself, that is, a hash
  without collisions.
- A request takes effect, if it does, before its caller gets the answer; it is never delayed
  past the caller's next action.
- Reads of splits go to the API server and are not stale. The pod cache and the claim cache show an
  earlier state of their store and never go back, not even when the driver restarts; the answers of
  the node cache are arbitrary.

## Where code and documentation disagree

The model follows the code.

- `CreateSplit` documents an idempotent retry (pkg/union/splitter.go:42-46). It hands an already
  suffixed name to `GetSplit`, which suffixes it again. As written, the retry never works
  (`ProvisioningContract.IdempotentRetryNeverWorks`); what a failed create has left can only be
  deleted; and two volumes called v and v-split can orphan a claim
  (`ProvisioningTheorems.NoOrphansIff`). The configuration `ByVolumeId` is a variant of the code,
  not the code, in which a create that meets no fault keeps the documented contract in every run
  (`ProvisioningVariant.CreateIsAsDocumented`).
- `ErrIdempotencyIncompatible` is documented for a split with other parameters
  (pkg/union/splitter.go:45-46). As written it never means that: it is returned exactly when the first
  read of the split fails for a reason other than not-found, because the empty object the client hands
  back is compared with the request (pkg/union/splitter.go:52-56, 75-82), also when there is no split at
  all (`ProvisioningContract.MismatchInRunsIff`, `MismatchWithNothing`). An unsuitable split that is
  stored ends not found. `ProvisioningContract.ContractIff` says exactly when the comment is kept.
- `Stop` is documented as safe to call several times (gogomergerfs/pkg/merger/merger.go:25-26).
  `MergerWitnesses.StopsReturnIff` says for which sets of calls it is, whatever the interleaving:
  those without a Run, those without a Stop, and those with one Stop only and no Run whose context
  can be done. Two Stops that overlap can leave one waiting for ever, and so can one Stop that races
  with a cancelled context. In a run in which no Stops overlap and no context is in fact done, all
  return (`MergerTheorems.CalmRestHasNoStop`).
- A CreateVolume answered OK may lack claims, because the code takes the claim cache's word that a
  claim exists (pkg/union/union.go:122-153): `ProvisioningClaims.CreateOkCanLackClaims` is such a run.
  `ProvisioningClaims.CreateOkIsCompleteIff` says when an OK is sure to mean all claims.
- A ControllerUnpublishVolume answered OK does not mean that no pod of the volume is or will be on the
  node (pkg/union/attacher.go:144-162). `AttachWitnesses.DetachIsRealIff` says for which pods it does.
- A volume is attached to at most one node only as long as its split does not move to another namespace:
  `AttachWitnesses.OnePodPerVolumeIff`.
- Delete is by name (pkg/union/attacher.go:164-165), so a ControllerUnpublishVolume for one node can take a
  pod on another one, behind a cache that still shows its predecessor:
  `AttachWitnesses.DetachTakesOtherNodesPod`, and exactly when in `AttachWitnesses.DetachSparesIff`.

## Model

| member | source | states |
|---|---|---|
| AttachInvariant.InvStep | pkg/union/attacher.go:46-211 | every step of any call or of the cluster keeps the history one of real incarnations, every pod traced to the Attach that created it, and every conclusion of a call backed by a state of the history |
| AttachInvariant.InvRun | pkg/union/attacher.go:46-211 | the same over whole runs; calls keep their identity, ended calls never move, calls begun later see nothing older |
| AttachTheorems.ReportIsBacked | pkg/union/attacher.go:113-136 | a reported attachment names the node of a pod, in phase Running and with a node, that the server held; success is on the call's own node and carries the volume's host path, in-use is on another |
| AttachTheorems.DetachIsReal | pkg/union/attacher.go:138-211 | when a Detach for a node has ended nil or not-found, every incarnation that the cache had shown bound there by the time the call began, reported or not and in whatever phase, has left the server for good, for all interleavings and cache lags |
| AttachTheorems.ReportHasBeenShown | pkg/union/attacher.go:84-136 | an incarnation that an Attach has reported is one the cache has shown bound to that node |
| AttachTheorems.ReportedIsDetached | pkg/union/attacher.go:84-211 | so a later Detach for the node of a report that ends nil or not-found means that the very incarnation reported is gone |
| AttachWitnesses.DetachIsRealIff | pkg/union/attacher.go:138-178 | for a reachable state, an incarnation on the server and a node: every Detach begun from now on that ends OK, in any run, means it is gone, exactly if the cache shows it bound to that node now; the same over the runs that leave the volume's split alone, if the split names the pod's namespace |
| AttachTheorems.DetachIsRealInOneNamespace | pkg/union/union.go:235-256 | DetachIsReal from a condition on the volume's split alone: whenever it is stored it names the pod's namespace; it may be deleted and created again |
| AttachTheorems.ExclusiveAttachment | pkg/union/attacher.go:84-136 | two reports of one volume on different nodes: the history between the observations has the step that removed the first pod |
| AttachTheorems.OnePodPerVolume | pkg/union/attacher.go:46-73 | while every split ever stored for a volume names the same namespace, no server state has two attach pods of it |
| AttachWitnesses.OnePodPerVolumeIff | pkg/union/union.go:212-229 | over all runs whose splits of the volume name namespaces of a given set: never two attach pods, and never two nodes, exactly if the set has at most one member |
| AttachTheorems.DetachSparesOtherNodes | pkg/union/attacher.go:164-174 | no step of a Detach touches an incarnation that the cache had shown bound to another node before it began, and so none reported there, although Delete is by name and the cache stale |
| AttachWitnesses.DetachSparesIff | pkg/union/attacher.go:153-174 | for a reachable state and an incarnation on the server that does not select the node: no step of any Detach for the node begun from now on, in any run, touches it, exactly if no state from the one the cache shows to the present has an unmarked pod under its key on the node |
| AttachWitnesses.DetachTakesOtherNodesPod | pkg/union/attacher.go:164-165 | a run from the empty state in which a Detach for one node deletes the pod on another, taken for its evicted predecessor |
| AttachTheorems.BindingTracesToCreator | pkg/union/attacher.go:57-73 | every pod was created by an Attach for its volume and is bound, if at all, to that Attach's node |
| AttachTheorems.VolumeInUseNamesAnotherAttach | pkg/union/attacher.go:119-124 | an in-use error naming node m stems from another call, an Attach of the volume for m; a call never meets it through its own pod |
| AttachWitnesses.TwoNodesWhenTheSplitIsReplaced | pkg/union/union.go:212-229 | for any two namespaces and any two nodes, a run in which a volume is on both nodes because its split was deleted and created in the other namespace |
| AttachWitnesses.DetachOkThenAttached | pkg/union/attacher.go:153-156 | a run in which a Detach meets an unscheduled pod, is answered OK, and the volume is attached to that node afterwards |
| AttachWitnesses.DetachGetsThrough | pkg/union/attacher.go:138-211 | from every state whose cache shows an unmarked pod of the volume bound to the node, whose server has a pod under that name and whose split names its namespace: a run in which a Detach for the node deletes it and ends detached |
| AttachWitnesses.AttachGetsThrough | pkg/union/attacher.go:46-136 | from every state in which neither cache nor server has a pod of the volume in the namespace its split names: a run in which an Attach creates one and ends attached to the node, with the volume's host path |
| AttachSteps.AttachEndsIff | pkg/union/attacher.go:96-136 | an Attach ends attached, in use, terminating or timed out at an access exactly for what the cache then shows it: a pod in phase Running on its node, on another node, a Failed or Succeeded one, none of these at the last of its looks |
| AttachSteps.DetachEndsIff | pkg/union/attacher.go:142-211 | a Detach ends detached at an access exactly if it polls and the cache shows no pod, not found exactly if its first look shows no pod on the node, its delete meets none, or a poll shows one on another node, timed out exactly at the last of its polls with the pod still on the node |
| AttachSteps.WritesIff | pkg/union/attacher.go:57-174 | a call writes to the server exactly by creating its pod, which selects the call's node, where there is none, or by deleting the one that is there, and touches nothing else |
| Attacher.AttachCondition | pkg/union/attacher.go:96-127 | the poll condition ends the wait exactly on a pod that is Failed or Succeeded, or Running on a node, and says which |
| Attacher.WaitForAttach | pkg/union/attacher.go:84-136 | barring failed accesses the result is that of the first decisive look among at most 12 at ever later cache states, success exactly for a pod in phase Running on the node, a time-out exactly after 12 looks that decide nothing; in-use and success always carry an attachment |
| Attacher.Attach | pkg/union/attacher.go:46-82 | takes exactly the steps of one Attach of the machine and returns its outcome and host path; barring failed accesses what its last look has shown decides the result, a time-out takes 12 looks |
| Attacher.AttachLower | pkg/union/union.go:212-229 | reads the split, checks the node, attaches: one call of the machine from begin to end; in-use is never returned without an attachment on another node |
| Attacher.WaitForDetach | pkg/union/attacher.go:180-211 | barring failed accesses it ends nil exactly if its last look has shown no pod, not-found exactly if a pod on another node, and a time-out exactly after 12 looks that have all shown the pod on the node; takes the poll steps of the machine |
| Attacher.Detach | pkg/union/attacher.go:138-178 | takes exactly the steps of one Detach of the machine; barring failed accesses its looks decide: not-found at once unless the first shows the pod on the node, then as the wait ends |
| Attacher.DetachLower | pkg/union/union.go:235-256 | one call of the machine from begin to end; when it ends nil or not-found, every incarnation of the volume that the cache had shown on the node when it began is gone from the server; nil only after a look that showed no pod |
| Names.SplitNameIsInjective | pkg/union/splitter.go:202-204 | different volumes have different split names |
| Names.ClaimNameIsInjective | pkg/union/splitter.go:206-211 | claim names are injective in volume name and decimal index, for all names and any fixed prefix |
| SplitSpecs.GetAccessModes | pkg/union/utils.go:15-26 | fails exactly if some mode is unsupported, otherwise translates all in order, each mode as the table says |
| SplitSpecs.RequestsSumToTotal | pkg/union/splitter.go:165-169 | the claims' sizes add up to the total or one byte less for every non-negative int64 total, without overflow on the way |
| SplitSpecs.TwoEqualClaims | pkg/union/splitter.go:165-211 | a split lists two claims, named after the volume with -lower0 and -lower1 and the prefix before, each of half the capacity, truncated towards zero |
| SplitSpecs.BuildSplit | pkg/union/splitter.go:98-112 | the loop fills the split with exactly the claims of its volume name and capacity |
| SplitSpecs.IsSplitSpecCompatible | pkg/union/splitter.go:119-163 | accepts exactly present specs with same namespace and class, no larger size, and a subset of the access modes |
| SplitSpecs.IsAccessModesCompatible | pkg/union/splitter.go:149-160 | the map-building loops decide inclusion of the mode lists, duplicates or not |
| SplitSpecs.CompatibleIsPreorder | pkg/union/splitter.go:119-163 | compatibility is reflexive and transitive |
| SplitSpecs.CompatibleBothWays | pkg/union/splitter.go:119-163 | specs accept each other exactly if they agree on namespace, class, size and the set of modes |
| Volumes.NewVolumeFromVolumeSplit | pkg/union/types.go:61-74 | the volume mirrors the split, its claim names in the split's order |
| ProvisioningInvariant.InvStep | pkg/union/union.go:91-206 | every step with any fault keeps: stored splits are their volume's own, every live claim is listed, deletions in progress have dropped what they passed |
| ProvisioningTheorems.NoOrphanClaims | pkg/union/union.go:91-117 | in every reachable state, with faults anywhere and volumes interleaved, every live claim is listed by an existing split, in that split's namespace, of the size it lists and with its access modes and class |
| ProvisioningTheorems.NoOrphansIff | pkg/union/splitter.go:47-85 | as written, claims are never orphaned in any run over a set of volume names exactly if the set has no v and v-split together |
| ProvisioningTheorems.OrphanWithAPair | pkg/union/splitter.go:50-57 | for every such pair, a run that leaves a claim without a split |
| ProvisioningTheorems.DeleteOkInEveryRun | pkg/csi/driver/controller_server.go:137-151 | every OK answer of a deletion, the not-found one included, leaves neither the split nor a claim of the volume in any namespace |
| ProvisioningTheorems.TurnLowersMeasure | pkg/union/union.go:163-206 | every turn of a deletion lowers the claims and the split left plus the price of the faults left, unless it is answered OK; nothing else raises it |
| ProvisioningTheorems.DeletionConverges | pkg/union/union.go:163-206 | from any reachable state, enough retried turns for the number of faults leave nothing of the volume, whatever else runs |
| ProvisioningTheorems.SplitIsStable | pkg/union/splitter.go:87-116 | from creation until a deletion is begun a split stays under its volume's name with the same specification |
| ProvisioningTheorems.RepeatedCreateFails | pkg/union/splitter.go:47-85 | as written, creates of a volume that has a split never succeed, leave the split as it is, and neither add nor remove a claim of the volume |
| ProvisioningVariant.CreateIsAsDocumented | pkg/union/splitter.go:42-46 | variant with the lookup by volume id, in every run with faults and other calls: a create that ends OK works with the suitable split there was, or with one filled from the request if there was none; one that meets no fault and is answered reports a mismatch exactly if there was an unsuitable one |
| ProvisioningContract.MismatchStepIff | pkg/union/splitter.go:52-56 | in every reachable state an access makes a create report a mismatch exactly if it is its first read, the read fails, and the request does not suit an empty split |
| ProvisioningContract.MismatchInRunsIff | pkg/union/splitter.go:75-82 | so in every run: a create that has been answered reports a mismatch exactly if its first read has failed and the request does not suit an empty split, whatever is stored |
| ProvisioningContract.MismatchWithNothing | pkg/union/splitter.go:45-46 | a run from the empty state that reports a mismatch while no split exists |
| ProvisioningContract.ContractIff | pkg/union/splitter.go:42-46 | for a reachable state, a volume and a request: a create begun now keeps the documented contract in every run, with faults and other calls, exactly if the volume has no split and the request would suit an empty one |
| ProvisioningContract.IdempotentRetryNeverWorks | pkg/union/splitter.go:42-46 | in every run a create of a volume that has a split does not end OK, and ends not found if it meets no fault, suitable split or not |
| Provisioner.GetSplit | pkg/union/splitter.go:189-200 | one read under the suffixed argument; as written CreateSplit's reads never find a split |
| Provisioner.DoCreateSplit | pkg/union/splitter.go:87-116 | success stores the filled split; an existing one is told apart from an error |
| Provisioner.CreateSplit | pkg/union/splitter.go:47-85 | takes the machine's steps; as written a split with claims is only ever returned if this call has filled it |
| Provisioner.DeleteSplit | pkg/union/splitter.go:171-187 | nil and not-found both mean that nothing of the volume is left |
| Provisioner.CreateLowerClaimFromSplit | pkg/union/union.go:119-155 | looks at the cache, then creates the claim the split lists, in the split's namespace and as it says, unless it was shown; as written a shown claim is one that is missing |
| Provisioner.SubmitClaim | pkg/union/union.go:128-147 | nil means that the claim is live in the split's namespace with the split's modes, class and the listed size |
| ProvisioningClaims.CreateOkClaims | pkg/union/union.go:91-155 | as written, after a create that has ended OK, whatever went on meanwhile, the split is stored as filled and exactly those of its claims are live, in its namespace and as it says, that no look of the call met in the cached state |
| ProvisioningClaims.CreateOkIsCompleteIff | pkg/union/union.go:119-155 | every create of a volume begun now that ends OK, in any run, leaves all its claims live, exactly if the volume has a split already or none of the claims it will list is in a state of the claim store from the one the cache shows to the present |
| ProvisioningClaims.UnseenClaimsAllCome | pkg/union/union.go:119-155 | so a volume name none of whose claims is in that stretch of history always gets them all |
| ProvisioningClaims.CreateOkCanLackClaims | pkg/union/union.go:148-153 | for every volume, a run from the empty state in which a create ends OK with a claim missing: created, deleted, and created again behind a lagging cache |
| ProvisioningSteps.CreateEndsIff | pkg/union/splitter.go:47-116 | a create ends with each of its results at an access exactly for what that access meets: a mismatch for a found split that does not suit, found meaning also the empty one of a failed first read; not found when the second read finds nothing; nil when the last claim is done |
| ProvisioningSteps.DeleteEndsIff | pkg/union/union.go:163-206 | a deletion ends nil exactly by dropping its split, not found exactly when there is no split at the read or the drop, with an error exactly when an access fails |
| ProvisioningSteps.WritesIff | pkg/union/union.go:91-206 | an access writes only the split it puts or drops and the claim it puts or drops, whether or not its answer is lost, and never over something already there |
| Provisioner.CreateLowerFromSplit | pkg/union/union.go:91-117 | takes the machine's steps for the claims in order up to the answer; on success the split is still stored |
| Provisioner.CreateLower | pkg/union/union.go:51-89 | success returns the volume of its stored split, as written filled from this very request, with exactly those claims live that the call has not met in the cache, and all of them if none was to be met; a mismatch is reported, as written, exactly if the first read of the split has failed and the request is not blank |
| Provisioner.DeleteLowerClaimFromSplit | pkg/union/union.go:198-206 | the claim is gone afterwards, whether it was there or not, or an error is returned |
| Provisioner.DeleteLowerFromSplit | pkg/union/union.go:180-196 | all listed claims are dropped in order, or the first error is returned |
| Provisioner.DeleteLower | pkg/union/union.go:163-178 | nil or not-found only when nothing of the volume is left |
| Merger.InvStep | gogomergerfs/pkg/merger/internal.go:53-102 | every atomic action of any goroutine keeps mutual exclusion, one running Run at most, the token count and the mount count |
| MergerTheorems.RunningMeansOneMountedRun | gogomergerfs/pkg/merger/internal.go:53-82 | the flag is set exactly while one Run is between setting and clearing it, with the union mounted |
| MergerTheorems.NoUnmountWhileRunning | gogomergerfs/pkg/merger/internal.go:95-102 | no action unmounts while a Run is running |
| MergerTheorems.DepthIsConserved | gogomergerfs/pkg/merger/internal.go:53-102 | mount depth is the initial one plus merges minus unmerges in every interleaving |
| MergerTheorems.CleanUpAfterRun | gogomergerfs/pkg/cmd/gogomergerfs/mergerfs/mergerfs.go:65-71 | after Run has returned, CleanUp restores the initial depth |
| MergerTheorems.HandshakeIsConserved | gogomergerfs/pkg/merger/internal.go:73-93 | Stops that have sent and are unconfirmed equal the tokens in manualStop, with Runs, and in stopped |
| MergerTheorems.FullStoppedHasATaker | gogomergerfs/pkg/merger/internal.go:76-78 | a Run that finds stopped full has a waiting Stop |
| MergerTheorems.AtMostOneStranded | gogomergerfs/pkg/merger/internal.go:84-93 | with no live Run and stopped empty, at most one Stop is stranded, one exactly if a token is left |
| MergerWitnesses.StopsReturnIff | gogomergerfs/pkg/merger/merger.go:25-27 | for any set of calls: in every interleaving that comes to rest all Stops have returned, exactly if there is no Run among the calls, or no Stop, or one Stop only and no Run whose context can be done |
| MergerTheorems.HarmlessCallsReturn | gogomergerfs/pkg/merger/internal.go:53-93 | no interleaving of such calls leaves a Stop waiting |
| MergerTheorems.CalmRestHasNoStop | gogomergerfs/pkg/merger/internal.go:84-93 | a run at rest in which no Stops have overlapped and no Run has left through its context has let every Stop return |
| MergerTheorems.UnfinishedStopCanProgress | gogomergerfs/pkg/merger/internal.go:84-93 | in such a run, whether contexts could be done or not, some goroutine that has been called can move while a Stop is unfinished, without a cancellation |
| MergerTheorems.StepLowersRank | gogomergerfs/pkg/merger/internal.go:53-102 | every action lowers a natural number, so no run goes on for ever |
| MergerTheorems.StopReturnsAfterItsRun | gogomergerfs/pkg/merger/internal.go:84-93 | in such a run a confirmed Stop returns only after the Run it signalled has cleared the flag and returned |
| MergerWitnesses.OverlappingStopsStrandOne | gogomergerfs/pkg/merger/internal.go:73-93 | for any calls with a Run and two Stops, a run that comes to rest with everything returned but the second of the overlapping Stops |
| MergerWitnesses.CancelledRunStrandsStop | gogomergerfs/pkg/merger/internal.go:73-79 | for any calls with a Stop and a Run whose context can be done, a run that comes to rest with everything returned but that Stop |
| MergerWitnesses.CancellationCanHangEverything | gogomergerfs/pkg/merger/internal.go:73-79 | a run in which a cancelled Run leaves a token and then a Stop, a Run and a CleanUp hang |
| BlockingMerger.Run | gogomergerfs/pkg/merger/internal.go:53-82 | takes the steps of its goroutine in a run of the machine from the initial state, and its own actions of that run say how it ends: with an error exactly if its merge failed, with nil and nothing mounted exactly if it found the flag set, with nil after its merge only by a cancelled context or by confirming the token it took; it never returns only if nobody else moves again and what it waits for is not there |
| BlockingMerger.Stop | gogomergerfs/pkg/merger/internal.go:84-93 | the same; it returns unconfirmed exactly if it found the flag unset, confirmed exactly if it sent and then received; one that never returns in a run at rest was called among calls for which StopsReturnIff says so |
| BlockingMerger.CleanUp | gogomergerfs/pkg/merger/internal.go:95-102 | the same; an error exactly if its unmount failed; it has unmounted exactly if the unmount did not fail and met the path mounted; nil without effect exactly if it found a Run running or the path not mounted |
| Mounter.Node.Publish | pkg/mount/mounter.go:36-132 | for every fault: nil exactly if the source can be read and its references listed, and its device is mounted only at the target besides, or nowhere else while the target is free, healthy, made and mounted without failure; then the device of the source is mounted at the target, by at most one bind mount added; an error leaves the table as it was |
| Mounter.Node.Unpublish | pkg/mount/mounter.go:134-145 | for every fault: nil exactly if there is no target directory, or the target can be looked at and is mounted at most once, the unmount and the removal not failing; then the target is not mounted; the mounts at other paths stay, in order |
| Mounter.BindingsAreExclusive | pkg/mount/mounter.go:56-113 | in every run with mounts of others coming and going, a device has at most one target bound by the driver and no path is mounted twice by it |
| Mounter.RepeatedPublishIsNoOp | pkg/mount/mounter.go:72-90 | repeating a Publish that succeeded succeeds and changes nothing |
| Mounter.UnpublishUndoesPublish | pkg/mount/mounter.go:134-145 | Unpublish after a successful Publish restores the table exactly if the target was not mounted before |
| Mounter.GetDeviceNameAndMountsFromMount | pkg/mount/mounter.go:166-197 | fails exactly if the path cannot be resolved or the table not be listed; otherwise returns the device of the first mount at the resolved path and the paths of that device's other mounts in order |
| Mounter.BothSearchesAgree | pkg/mount/mounter.go:163-197 | agrees with the reference search Publish uses where the path is mounted once and is not itself a device |
| PodBuilder.Builder.Build | pkg/union/pod/pod.go:48-90 | the pod mounts each claim, in order and under its own name, at a path that is an entry of the directory whose entries its command merges, and the host path, visible to the host, at the command's target, which is outside that directory |
| PodBuilder.Builder.AddPVCVolumesAndVolumeMounts | pkg/union/pod/pod.go:94-116 | appends one volume and one mount per claim, in order, each mounted as an entry of the branches directory |
| PodBuilder.PodVolumesAreDistinct | pkg/union/pod/pod.go:94-143 | volumes and mounts agree index by index and all volume names differ, target included |
| PodBuilder.MountPathsAreDistinct | pkg/union/pod/pod.go:94-143 | for claim names that are single path segments all mount paths differ |
| AttachPods.BuildAttachPod | pkg/union/attacher.go:57-61 | the pod submitted for a split's volume and a node is in the split's namespace, selects the node, merges what the split's claims hold, and shows it at the host path that Attach reports |
| AttachPods.PodMountsTheSplit | pkg/union/types.go:61-74 | in every reachable state the attach pod of a volume has its split's claims as volumes and mounts, once each, in order and at paths of their own among those it merges, then the host path at the merge target, with sizes adding up to the capacity or one byte less |
| AttachPods.PodsShareNoClaim | pkg/union/splitter.go:206-211 | attach pods of different volumes have no volume in common, neither a claim nor the host path |
| AttachPods.PodFindsItsClaims | pkg/union/union.go:119-155 | as written, after a create that has ended OK, whatever went on meanwhile: every claim the volume's attach pod names is live in the pod's namespace, with the modes, the class and half the size asked for, exactly if no look of the create has met one of them in the cache |
| Parameters.LowerOptions.ParseParameters | pkg/csi/driver/controller_server.go:95-116 | the loop fills the options with the last value of each key in the order met, or fails |
| Parameters.LowersLetters | pkg/csi/driver/controller_server.go:95-97 | a key is taken in whatever case it is written: the letters A to Z become a to z, every other character stays, twice is as good as once |
| Parameters.RejectionIgnoresOrder | pkg/csi/driver/controller_server.go:95-116 | the map is rejected in one iteration order exactly if in all |
| Parameters.OrderIsIrrelevantIff | pkg/csi/driver/controller_server.go:95-116 | an accepted map gives the same options in every order exactly if no two spellings of a key carry different values |
| Parameters.DistinctKeysDoNotConflict | pkg/csi/driver/controller_server.go:95-116 | keys distinct when lowered are such a case |
| Controller.CreateVolume | pkg/csi/driver/controller_server.go:54-93 | InvalidArgument exactly for a rejected parameter, changing nothing; AlreadyExists exactly if the call ends with a mismatch, which as written takes a failed first read of the split; OK exactly for nil, and then the volume's split is stored with the modes asked for one by one, the capacity asked for or 1024 bytes, and the settings the parameters agree on, with exactly the claims live, in its namespace, that the call has not met in the cache |
| Controller.DeleteVolume | pkg/csi/driver/controller_server.go:129-152 | OK exactly for nil and not-found, and then nothing of the volume is left |
| Controller.ControllerPublishVolume | pkg/csi/driver/controller_server.go:154-183 | the code is that of the end of the Attach, NotFound exactly for an unknown volume or node; OK carries the host path and rests on a pod running on the node; FailedPrecondition names another node with a running pod that some other Attach asked for, and never dereferences nil |
| Controller.ControllerUnpublishVolume | pkg/csi/driver/controller_server.go:185-216 | InvalidArgument exactly for an empty node id, NotFound exactly for an unknown volume or node; OK means every incarnation of the volume that the cache had shown on the node is gone |

## Left out

- gRPC serving, endpoints, flags, logging, command lines and signal registration: plumbing without state of its own.
- Kubernetes clients, informers and their serialisation: replaced by stores, a history and a cache index.
- SHA-256 in the attach pod's name: taken to have no collisions on the volumes considered.
- Times and back-off durations: only the bound of 12 evaluations is kept.
- Delayed requests: a write that lands after its caller has moved on or crashed is not modelled; with one, a claim could appear after its volume's deletion.
- Request validators and capability lists: their checks are taken as done.
- `filepath.Join` cleaning: volume ids and claim names are taken to be single path segments.
- PodBuilder.MountPathsAreDistinct: for names with slashes, where cleaning can make two paths equal, nothing is said.
- Unicode case folding: `strings.ToLower` is modelled on ASCII letters.
- The mergerfs process and system mounts: a mount works, or fails and adds no entry; k8s.io/mount-utils is not part of this model.
- Links, nested mounts and mount propagation: `GetMountRefs` finds a path that is itself mounted and fails for any other, as the source's comment says (pkg/mount/mounter.go:43); what the library does for a directory inside another mount is not modelled.
- Calls of Merge and Unmerge that bypass the merger's mutex.
- Deep copies, API registration, deployment manifests and unimplemented calls.
- Errors of the claim lister other than not-found: the code then dereferences a nil claim, which is a crash of the driver at that point.
