# The daemon's image graph and container lifecycle, verified

This project models the parts of the container daemon that keep shared state consistent, and proves what
they keep. It has three parts.

**Images.** The daemon stores images (a history list, a layer list, a parent edge), references to them and
containers made from them. `ImageModel` has the image values and the rewriting done by import, commit,
cache restore and squash; `ImageStore` the stores and their invariant; `ImageDeletePlan` and
`ImageDeletion` the delete operation; `ImagePrune` and `PruneExact` `docker image prune`; `ImageBuild` the creating
operations; `BuildCache` and `CacheReplay` the build cache; `ImageHistory` and `AncestorFilter` the two
walks over the graph; `ImageRuns` whole runs of all of these. Image IDs are digests of the configuration;
SHA-256 is modelled as collision free (`ImageID` wraps the configuration). The store's child index and the
parent metadata on disk are modelled separately, because the code updates them separately. Each daemon
operation is one atomic step.

**Containers.** `ContainerState` has the run flags, wait channels and health checks of one container,
`ContainerRemoval` any number of concurrent removals of one, `ExecStore` exec commands and their garbage
collector, `LinkIndex` container links. Channels are numbers with a set of closed ones; closing a closed or
missing one sets a `panicked` flag. Two calls on the monitor channel do not hold the container's lock,
containerStop's and the out-of-memory event's; they proceed by single steps, which may also fall into what a
holder of the lock does. Ticks, timeouts, process exits and scheduling are events that may come in any order.

**Loops.** `DisplayPorts` is the port column of `docker ps`, `EscapeCopy` the stream copier with detach
keys, `ContainerList` the container list loop.

State that the source changes in place is a class here (`Daemon`, `ImageCache`, `ListContext`, `Container`,
`Collector`, `Index`, `Source`, `Sink`); its methods are proved against functions on values, and the
statements over all runs are lemmas about those functions. `dafny verify dfyconfig.toml` checks everything.

## Main results

- A delete that interleaves checks, untagging, deleting and upward pruning carries out a plan that is fixed
  by the state before its first change; if it refuses, nothing was changed, and the stores say which refusal it
  is (`ImageDeletion.ImageDelete`, `ImageDeletePlan.RefusalIsExplained`).
- The upward prune takes the longest run of ancestors that nothing else keeps
  (`ImageDeletePlan.PruneTailIsLongest`). In whatever order a prune visits the images, dangling only or all,
  an image survives exactly when it or a descendant of it is kept, it is exact which references each image is left
  with, and the report lists exactly what has gone (`ImagePrune.ImagesPrune`).
- In all runs, edges and references point at stored images and the parent graph is acyclic
  (`ImageRuns.RunKeepsInv`, `ImageRuns.RunIsAcyclic`); without forced deletes every container's image stays
  stored (`ImageRuns.UnforcedRunsKeepContainersBacked`).
- Replaying a cache source, from scratch or from any stored prefix of it, yields its prefixes with their layers
  whatever the local lookups find; while nothing is deleted it reaches the source exactly when that has one
  entry or its last entry carries a layer (`CacheReplay.Replay`).
- In every run whose cache uses find their source still stored the child index is exact
  (`ImageRuns.RunKeepsIndexExact`), the hypothesis under which descendants are the inverse of ancestors.
- Concurrent removals destroy a container at most once (`ContainerRemoval.RemovalIsExclusive`); one that runs
  alone does so exactly when what it attempts succeeds or is forced (`ContainerRemoval.LoneRemoval`).
- In every run a container's flags tell the last event that decided them
  (`ContainerState.FlagsTellTheLastEvent`).
- A container's monitor channels stay in order in a run exactly when no event disturbs an unlocked call
  (`ContainerState.StepKeepsChannelsIff`, `ContainerState.RunKeepsChannelsIff`); in such runs at most one monitor
  is open and nothing is closed twice (`ContainerState.OneMonitorInSafeRuns`).
- A container's health status is a function of the accepted probe results
  (`ContainerState.HealthReflectsResults`).
- The port display prints different ports exactly as the maximal stretches of their numbers
  (`DisplayPorts.DisplayablePorts`). It, the escape copier and the list loop conserve ports, bytes and containers
  (`EscapeCopy.CopyEscapable`, `ContainerList.ReduceContainers`).

## Where the code differs from what it says

- daemon/image_delete.go:306-309 means to report conflicts on dangling images even when quiet. That branch is
  never taken (`ImageDeletePlan.QuietDeleteNeverReports`).
- daemon/image_delete.go:46 lists a pull or build using the image as a hard conflict. The code has no such check.
- image/store.go:234-246 indexes a child before it finds that the child is gone. The index stays exact exactly
  when the child is stored (`ImageStore.SetParentIndexExactIff`). Of all steps only the last one of a cache
  use whose source has been deleted gets there (`ImageRuns.StepKeepsIndexExactIff`); `ImageRuns.DriftingRun`
  is a run that does. Afterwards a local cache lookup on that parent fails
  (`BuildCache.ImageCache.LocalCachedImage`).
- SquashImage can store an image with a layer that no history entry names
  (`ImageBuild.SquashCanLoseAnEntry`); exactly when is `ImageBuild.SquashedImageConsistentIff`.
- container/state.go:178 says WaitStop returns the code passed to SetStopped. It does if and only if the last
  event that has set the exit code since then left that code (`ContainerState.WaiterReadsIff`); a start or a
  failed start in between changes it (`ContainerState.WaiterMissesTheCode`).
- daemon/health.go:230 says updateHealthMonitor is called with the container locked. The out-of-memory event
  does not lock it (daemon/monitor.go:30-36), and containerStop closes the monitor's channel without the lock
  (daemon/stop.go:48). A process that exits on its own meanwhile makes the daemon close a missing or closed
  channel, and an out-of-memory event meanwhile leaves a running container unmonitored
  (`ContainerState.DisturbedStops`).
- A cache source built on an image that was pulled as a whole can make a replay lose its place
  (`CacheReplay.LosesItsPlace`).
- SetRestarting and SetRunning leave Paused alone, so a restarted container can be marked paused
  (`ContainerState.RestartKeepsPaused`). A restart that fails leaves a health monitor open on a stopped
  container (`ContainerState.FailedRestartLeavesMonitor`, `ContainerState.MonitorWantedIff`).
- An exec registered between the collector's snapshot and its scan is collected while live
  (`ExecStore.LateRegistrationIsCollected`), and an exec can be started twice between the two unlocked
  writes of a failed start (`ExecStore.GapLetsASecondStartIn`).
- Renaming a container drops it from its children's parent lists (`LinkIndex.RenameForgetsTheParent`).
- Typing the first detach key twice before the second is not recognised
  (`EscapeCopy.RepeatedFirstKeyIsMissed`): two different keys are recognised exactly when the first was typed
  an odd number of times in a row (`EscapeCopy.DetachesIffOddRun`). `EscapeCopy.DetachesIffRecognised` is
  exact for any keys.
- A grouped port whose type or address holds a slash is printed as another port
  (`DisplayPorts.KeyRoundTripIff`).

## Model

| member | source | states |
|---|---|---|
| ImageModel.LayerForHistoryIndex | daemon/cache.go:235-249 | the lookup is in bounds on every stored image; an entry's layer is the one that extends the layers of all earlier entries |
| ImageModel.SquashHistory | daemon/images.go:288-293 | the loop empties exactly the entries the parent does not cover |
| ImageModel.SquashConsistentIff | daemon/images.go:279-307 | a squash has one layer per non-empty entry exactly when the covered entries carry as many layers as the parent has |
| ImageModel.SquashOntoPrefixIsConsistent | daemon/images.go:279-307 | squashing onto a consistent parent whose history is a prefix meets that condition |
| ImageModel.Imported | daemon/import.go:97-115 | an imported image has as many layers as non-empty entries |
| ImageModel.Committed | daemon/commit.go:195-251 | a commit adds one entry to the base, keeps history and layers in agreement, and has the given configurations and the entry's time |
| ImageModel.CommitAddsNoLayerIff | layer/empty.go:12-16 | a commit adds no layer if and only if its diff is the empty tar |
| ImageModel.Restored | daemon/cache.go:96-123 | a restored image adds one entry to its parent, and its layer if it has one; it has the command's configuration, no container configuration, the source's platform and its last entry's time |
| ImageModel.ParentOfConsistent | daemon/cache.go:96-123 | a stored parent of an image with one layer per non-empty entry is such an image too |
| ImageStore.Daemon.Create | image/store.go:106-165 | content addressed creation; refused exactly when the history names more layers than there are |
| ImageStore.Daemon.SetParent | image/store.go:234-246 | the new stores and the error, including the index entry left behind for a missing child |
| ImageStore.Daemon.Delete | image/store.go:207-232 | the new stores; fails exactly on an unknown image |
| ImageStore.Daemon.AddReference | reference/store.go:92-146 | a digest is never overwritten and a tag only by force |
| ImageStore.Daemon.RemoveReference | reference/store.go:150-179 | exactly that reference goes; fails when it was not there |
| ImageStore.Daemon.References | reference/store.go:203-219 | every reference to the image exactly once, in lexical order |
| ImageStore.TextsSplit | reference/store.go:58 | the text by which references sort can be taken apart into repository and tag or digest |
| ImageStore.SetParentKeepsInv | image/store.go:234-246 | edges stay well formed whether or not the child is still stored |
| ImageStore.SetParentIndexExactIff | image/store.go:234-246 | the child index stays exact if and only if the child is stored |
| ImageStore.DeleteIs | image/store.go:207-232 | exactly the image goes; its children lose their parent, its parent loses it as a child |
| ImageStore.DeleteKeepsInv | image/store.go:207-232 | deleting an unreferenced image, with children or without, keeps edges and references pointing at stored images |
| ImageStore.DeleteKeepsIndexExact | image/store.go:207-232 | and keeps the child index exact |
| ImageDeletePlan.QuietDeleteNeverReports | daemon/image_delete.go:305-315 | every conflict is marked used or rules out a dangling image, so a quiet delete never returns one |
| ImageDeletePlan.UntagLeavesNothingIff | daemon/image_delete.go:107-138 | untagging a tag leaves no reference if and only if the references are a single one; a digest, if and only if it was the only one |
| ImageDeletePlan.PruneTailIsLongest | daemon/image_delete.go:339-348 | the pruned ancestors are the longest consecutive run without other child, reference or container |
| ImageDeletePlan.PruneStep | daemon/image_delete.go:305-348 | what the recursion decides after deleting the child is what was decided before deleting it |
| ImageDeletePlan.RefusedIff | daemon/image_delete.go:76-90 | exactly when a delete is refused, by ID and by reference, forced or not |
| ImageDeletePlan.RefusalIsExplained | daemon/image_delete.go:357-405 | which refusal it is: by ID, in this order, an indexed child, a running container, without force references that are not a single one, without force a stopped container; so a forced delete never reports a soft conflict |
| ImageDeletePlan.ResolvesIff | daemon/image.go:23-60 | which image a name means |
| ImageDeletePlan.UntagRemovesImageIff | daemon/image_delete.go:140-175 | exactly when untagging goes on to remove the image |
| ImageDeletePlan.PlanSparesUsedImages | daemon/image_delete.go:357-405 | no removed image is used by a running container; unforced, by any container; a pruned ancestor, by none at all |
| ImageDeletePlan.UnforcedUntagKeepsAReference | daemon/image_delete.go:76-143 | an unforced delete by reference never takes the last reference from a used image |
| ImageDeletePlan.UnforcedDeleteByIDRefusesUsed | daemon/image_delete.go:146-157 | an unforced delete by ID of a used image is refused |
| ImageDeletePlan.PlanKeepsInv | daemon/image_delete.go:64-180 | every delete keeps edges and references pointing at stored images |
| ImageDeletePlan.PlanKeepsIndexExact | image/store.go:207-232 | every delete keeps the child index exact |
| ImageDeletion.IsSingleReference | daemon/image_delete.go:184-205 | true if and only if there are references, all of one repository, at most one of them a tag |
| ImageDeletion.RemoveAllReferences | daemon/image_delete.go:249-265 | all references to the image go, each recorded once |
| ImageDeletion.ImageDeleteHelper | daemon/image_delete.go:298-349 | on a conflict nothing changes and a quiet call stays silent; otherwise the planned run and all references of the target go, and the records list exactly these |
| ImageDeletion.CleanupDigests | daemon/image_delete.go:109-138 | the repository's digests go exactly when it has no tag left |
| ImageDeletion.ImageDelete | daemon/image_delete.go:64-180 | refuses, says why and changes nothing, or carries out exactly the plan; records are the removed references, each once, then the removed images upwards |
| ImagePrune.DeletesSpareUsedImages | daemon/prune.go:110-149 | no series of unforced deletes removes an image any container uses |
| ImagePrune.PruneLoosensNothing | daemon/prune.go:139-146 | one delete of a prune makes no image loose, and removes a loose target |
| ImagePrune.SweptOneMore | daemon/prune.go:124-138 | after each reference exactly the later tags, their repositories' digests and the lonely digests are left, save that a used image without lonely digests keeps its last tag |
| ImagePrune.WithTagsSingleIff | daemon/image_delete.go:76-90 | deleting by a tag is refused for a used image if and only if it is the only tag left and no digest is lonely |
| ImagePrune.UsedKeepsAReference | daemon/prune.go:124-138 | a used image that had a reference keeps one |
| ImagePrune.ImagesPrune | daemon/prune.go:87-149 | only unforced deletes; no used image goes; the report lists exactly the removed references and images, each once; exactly which references each image is left with; an image survives if and only if it or a descendant is used, has a reference that is never removed, is a head shadowed by a container ID, or has a stale index entry |
| PruneExact.RunIsNotKept | daemon/prune.go:110-149 | no image of a pruned run has anything kept below it |
| PruneExact.PlanLeavesIndex | image/store.go:207-232 | exactly the true children that go leave the index; stale entries stay |
| PruneExact.SurvivorIsKept | daemon/prune.go:110-149 | every survivor has something kept below it |
| ImageBuild.ImportImage | daemon/import.go:91-135 | the image field by field; it is stored, and tagged, or the tag is refused exactly for the reserved name |
| ImageBuild.Commit | daemon/commit.go:195-286 | the new image extends its base by one entry, has the base as parent, gains the diff as a layer exactly when it is not empty, and has the given configurations; exactly when each error is returned |
| ImageBuild.SquashImage | daemon/images.go:242-319 | exactly when it succeeds (the parent has fewer layers, the source's first ones) and with which error it fails; the result field by field, its consistency condition, and that every error leaves the stores alone |
| ImageBuild.SquashedImageConsistentIff | daemon/images.go:283-307 | when a squash is consistent and when the store accepts it, from the inputs alone |
| ImageBuild.SquashCanLoseAnEntry | daemon/images.go:267-319 | two consistent images whose squash is accepted and inconsistent |
| BuildCache.IsParentIff | daemon/cache.go:141-150 | isParent terminates and finds exactly the proper ancestors |
| BuildCache.AncestorHistory | daemon/cache.go:133-150 | the ancestor k edges up has the history without its last k entries, so no image is its own ancestor |
| BuildCache.AncestorOfConsistent | daemon/cache.go:133-150 | every ancestor of an image with one layer per non-empty entry is such an image |
| BuildCache.IsValidParent | daemon/cache.go:208-233 | accepts exactly no parent, an empty one, or one with properly shorter prefixes of history and layers |
| BuildCache.NextImageLayers | daemon/cache.go:96-123 | on a consistent parent the restored image has exactly the layers of the target's first entries |
| BuildCache.ServesIff | daemon/cache.go:208-233 | a prefix serves the next command if and only if it is empty or a layer is still to come |
| BuildCache.ImageCache.LocalCachedImage | daemon/cache.go:23-58 | the newest child with an equal configuration; fails exactly when an indexed child is not stored |
| BuildCache.ImageCache.GetCache | daemon/cache.go:152-199 | every hit is a prefix of some source with its layers, one entry further than the parent; it is an accepted local image, a source, or an image with the command's configuration and no container configuration; a stale child fails the lookup; otherwise the outcome is the newest local match if a source descends from it, or what the first serving source gives |
| BuildCache.RestoredMatchesIff | daemon/cache.go:110-123 | a later local lookup matches a restored image if and only if it would match an empty configuration |
| BuildCache.JoinedWords | daemon/cache.go:251-254 | a joined command gives its words back if none holds a blank, so a history entry stands for one such command |
| BuildCache.ImageCache.Use | daemon/cache.go:180-195 | the stores, the locked source and the error after a source is used |
| CacheReplay.ReplayStep | daemon/cache.go:152-199 | a hit is a prefix of the source with its layers, one entry further than the parent; for the source's next command, while nothing is deleted, it hits if the prefix is empty or a layer is to come, and only then unless a local image matches |
| CacheReplay.UseKeepsIndex | daemon/cache.go:180-195 | using a source adds children only to images with the history length it was asked for, and no stale ones while the source is stored |
| CacheReplay.Replay | builder/dockerfile/internals.go:598-618 | the answers are ever longer prefixes with their layers; unless, from scratch, a longer ancestor of the source matches the first command: they are the next prefixes one by one; while nothing is deleted the source itself is reached if and only if it has one entry or its last entry carries a layer; without local matches step k answers if and only if k is 0 or a layer is to come |
| CacheReplay.LosesItsPlace | daemon/cache.go:152-199 | such an ancestor is answered at once, and the next command misses |
| ImageHistory.LayerRows | daemon/image_history.go:21-56 | the "too many non-empty layers" error is unreachable; every row's layer sits on the layers of all earlier entries |
| ImageHistory.FillImages | daemon/image_history.go:58-81 | row i shows the ancestor i edges up and its tags in order, and nothing once the chain ends or reaches an image that is not stored |
| ImageHistory.History | daemon/image_history.go:14-84 | fails only for an unknown image; the image shown for a row is the one whose history ends with that row |
| AncestorFilter.Populate | daemon/list.go:653-660 | terminates and marks exactly the image and its descendants |
| AncestorFilter.AncestorImages | daemon/list.go:294-312 | the filter holds exactly the given images and all their descendants |
| AncestorFilter.DescendsIffAncestor | daemon/list.go:653-660 | while the index is exact, its descendants are the inverse of the parent chain |
| ImageRuns.Perform | daemon/cache.go:180-195 | each image event of a run is what the daemon's operation for it does to the stores |
| ImageRuns.RunKeepsInv | daemon/cache.go:133-150 | in every run edges and references point at stored images and every edge ever set adds one entry |
| ImageRuns.RunIsAcyclic | daemon/cache.go:141-150 | in every run no image is its own proper ancestor |
| ImageRuns.StepKeepsIndexExactIff | image/store.go:234-246 | a step keeps the child index exact if and only if it is not the last step of a cache use whose source is gone |
| ImageRuns.RunKeepsIndexExact | daemon/cache.go:180-186 | in every run without such a step the child index is exact |
| ImageRuns.DriftingRun | image/store.go:234-246 | a run of commits, a delete and a cache use that leaves an indexed child which is not stored |
| ImageRuns.StepSparesUsedImages | daemon/image_delete.go:298-405 | no step removes an image a running container uses, and only a forced delete one that any container uses |
| ImageRuns.UnforcedRunsKeepContainersBacked | daemon/image_delete.go:64-180 | in every run without forced deletes every container's image stays stored |
| ImageRuns.StepKeepsConsistentIff | daemon/images.go:279-307 | a step keeps one layer per non-empty entry in all images if and only if it is not a misfitting squash |
| ImageRuns.FittingRunsStayConsistent | daemon/cache.go:96-123 | in every run whose squashes fit, every stored image has one layer per non-empty entry |
| DisplayPorts.LessIsTotal | api/common.go:36-50 | the port order is total, ties are equal ports |
| Strings.LexIff | api/common.go:36-50 | the order on strings decides at the first position where they differ |
| DisplayPorts.SortPorts | api/common.go:64 | a sorted permutation |
| DisplayPorts.KeyRoundTripIff | api/common.go:67-74 | splitting a group key gives address and type back if and only if neither holds a slash |
| DisplayPorts.NoWrap | api/common.go:83 | on sorted ports the 16-bit successor matches only as the true successor |
| DisplayPorts.TakeIn | api/common.go:66-90 | each grouped port adds exactly itself to what is printed or open, and extends its group exactly if it is the next number |
| DisplayPorts.GroupPorts | api/common.go:65-96 | the whole list, position by position: closed ranges in the order of closing, the last ranges of the groups in the order they appeared, then the host mappings; ranges of one address and type rise and do not touch |
| DisplayPorts.RangesAreStretches | api/common.go:75-95 | such a list of different ports holds exactly the maximal stretches of consecutive numbers, each once |
| DisplayPorts.DisplayablePorts | api/common.go:55-97 | expanding the printed list gives the ports as their keys read back, and the ports themselves if and only if no grouped port has a slash; ranges run upwards; without slashes they do not touch, and for different ports are exactly the maximal stretches, each once; the order of the list |
| EscapeCopy.Attempt | container/container.go:524-535 | reads on while the keys match and keeps everything read |
| EscapeCopy.CopyEscapable | container/container.go:514-566 | without detach the sink gets all bytes read in order, or a prefix if a write fails; on detach all but the final keys, which arrived alone; when it detaches; which read errors are passed over |
| EscapeCopy.RepeatedFirstKeyIsMissed | container/container.go:525-535 | P P Q does not detach on keys P Q |
| EscapeCopy.DetachesIffOddRun | container/container.go:525-535 | two different keys P, Q detach if and only if some maximal run of single P reads has odd length and is followed by a single Q |
| EscapeCopy.DetachesIffRecognised | container/container.go:514-566 | for any keys, the copier detaches exactly on the streams a read-by-read recogniser accepts that drops the read which breaks a match |
| EscapeCopy.DetachesIffTwice | container/container.go:525-535 | a key to be typed twice is recognised if and only if two reads in a row are that key |
| EscapeCopy.CleanKeysDetach | container/container.go:525-535 | keys that no stray first key precedes do detach |
| ContainerList.ListContext.IncludeContainer | daemon/list.go:330-463 | the decision and the before filter, case by case |
| ContainerList.ReduceContainers | daemon/list.go:168-216 | the rows are the first Limit matching containers strictly after before and up to since, in order; fails exactly when one of their rows does |
| ContainerList.AfterIs | daemon/list.go:331-338 | the window begins after the first occurrence of before, and is empty without one |
| ContainerList.MatchesIff | daemon/list.go:347-463 | who matches: a stopped container only with all or a positive limit; every filter; task, exit code and image as asked |
| ContainerList.SelectedHolds | daemon/list.go:168-196 | what is listed stands in the window and matches; at most the limit; and all that matches if the limit is not reached |
| ContainerList.UpToIs | daemon/list.go:340-345 | it ends at the first later occurrence of since |
| ContainerRemoval.RemovalIsExclusive | daemon/delete.go:22-49 | in every interleaving at most one call is in cleanup, the destroy event is sent at most once and only after all indexes let go, a dead container does not run |
| ContainerRemoval.LoneRemoval | daemon/delete.go:22-145 | a call that nothing interleaves takes the container out of all indexes and sends one destroy event if and only if it is known, not being removed and not a link; stopped, or killed by force; the stop succeeds; and removing the files does or is forced; otherwise both stay, and in either case the call is done and the flag as before |
| ContainerRemoval.CallIsDoneInTwelveSteps | daemon/delete.go:22-49 | in every interleaving a call is done after at most twelve steps of its own |
| ContainerRemoval.RemovalIsFinal | daemon/delete.go:110-122 | once out of the store a container never comes back |
| ContainerState.Container.SetRunning | container/state.go:253-262 | the new state |
| ContainerState.Container.SetStopped | container/state.go:265-274 | the new state; the channel it closes is open |
| ContainerState.Container.SetRestarting | container/state.go:278-288 | the new state; the channel it closes is open |
| ContainerState.Container.CloseChannel | container/health.go:45 | closes the stored channel, or panics if there is none or it is closed |
| ContainerState.Container.OpenMonitorChannel | container/health.go:32-39 | a new channel exactly when there was none |
| ContainerState.Container.CloseMonitorChannel | container/health.go:42-49 | the new state when nothing disturbs it; panics exactly if the stored channel is closed |
| ContainerState.Container.UpdateHealthMonitor | daemon/health.go:231-246 | the new state |
| ContainerState.Container.InitHealthMonitor | daemon/health.go:252-271 | the new state, with or without earlier health |
| ContainerState.Container.HandleProbeResult | daemon/health.go:107-147 | the new state; ignored once the channel is closed |
| ContainerState.Container.AdvanceCall | container/health.go:32-49 | one step of a call without the lock: test, then make, or close and then clear |
| ContainerState.Container.StateChanged | daemon/monitor.go:17-149 | each event's new state, from any state |
| ContainerState.StepKeepsChannelsIff | daemon/health.go:231-280 | an event keeps the channels in order if and only if it does not close what a call has just closed and not yet cleared, nor a missing channel, nor open over a stored one |
| ContainerState.RunKeepsChannelsIff | container/health.go:32-49 | a run keeps them in order at all times if and only if all its events are such |
| ContainerState.OneMonitorInSafeRuns | daemon/health.go:149-208 | in those runs nothing is closed twice, and at most one stop channel is open, the one in Health |
| ContainerState.UndisturbedCalls | daemon/stop.go:48 | the steps of an unlocked call that nothing disturbs add up to the whole operation |
| ContainerState.UndisturbedEvents | daemon/monitor.go:37-60 | what a lock holder does by steps is the whole event if nothing falls into it |
| ContainerState.DisturbedStops | daemon/stop.go:43-48 | runs in which an exit makes containerStop, or containerStop the exit, close a channel that is gone, and one that leaves a running container unmonitored |
| ContainerState.StaleResultsIgnored | daemon/health.go:111-116 | results of a closed monitor never change anything |
| ContainerState.UpdateDecides | daemon/health.go:231-271 | after each locked update the monitor runs if and only if the container runs, unpaused, with a probe, and no unlocked call is about to clear its channel |
| ContainerState.MonitorWantedIff | daemon/monitor.go:67-83 | only a failed restart with an open monitor, a call that opens one too late, or a lock holder that has yet to update it leaves one where it is not wanted |
| ContainerState.RunKeepsMonitorWantedIff | daemon/health.go:231-246 | a run of safe events has a monitor only where it is wanted, at all times, if and only if none of its events does that |
| ContainerState.FailedRestartLeavesMonitor | daemon/monitor.go:67-83 | a run that does |
| ContainerState.RestartKeepsPaused | container/state.go:253-288 | a paused container that restarts is marked paused and not monitored |
| ContainerState.StepKeepsFlagsIff | daemon/monitor.go:29-146 | each event keeps the flags in agreement, except exactly a pause of a container that is not running |
| ContainerState.RunKeepsFlags | daemon/pause.go:25-49 | so in every run with checked pauses a stopped container is not paused or restarting and has no process, and a restarting one counts as running without a process |
| ContainerState.FlagsTellTheLastEvent | container/state.go:253-288 | in every run restarting, running, process and paused are those of the last event that decides them |
| ContainerState.WaiterReleasedIff | container/state.go:198-222 | a waiter is released by the next stop or restart and by nothing else |
| ContainerState.Container.SetStartFailed | daemon/start.go:120-201 | the error's own exit code, or 128 in place of a zero |
| ContainerState.StartFailureCodes | daemon/start.go:120-201 | 127, 126, or the present code with 128 in place of a zero |
| ContainerState.WaiterReadsIff | container/state.go:178-222 | a waiter is released by the first stop or restart and reads that event's code if and only if the last event since to set an exit code left the same |
| ContainerState.UndisturbedWaiterReads | container/state.go:178-222 | in particular when nothing has touched the code since |
| ContainerState.WaiterMissesTheCode | daemon/start.go:187-201 | with a start or a failed start in between it reads 0 or 127 |
| ContainerState.HealthReflectsResults | daemon/health.go:107-147 | in every run the streak, the status and the log are functions of the accepted results |
| ContainerState.HealthMeans | daemon/health.go:117-143 | in every run: unhealthy if and only if the last results, as many as the configured retries or three, failed; healthy if and only if not and one succeeded; the log is the last five results |
| ExecStore.Collector.Scan | daemon/exec.go:260-280 | marked execs go, dead ones are marked, nothing else changes |
| ExecStore.StepKeepsContainedIff | daemon/exec.go:27-32 | a step keeps live execs in the daemon's store, unmarked and covered by the snapshot if and only if it brings no live exec into the store behind the snapshot and unregisters none from a foreign container |
| ExecStore.TimelyRunsStayContained | daemon/exec.go:260-280 | so in every run of such steps registered containers' execs stay in the daemon's store, or on their way into it, and unmarked |
| ExecStore.SweepMarksLiveIff | daemon/exec.go:264-274 | a live exec is marked if and only if the snapshot missed it |
| ExecStore.LateRegistrationIsCollected | daemon/exec.go:260-280 | a run in which a live exec is collected |
| ExecStore.TwoPassesIff | daemon/exec.go:162-181 | in every run an exec passes the guard twice if and only if some start of it falls into the gap of a failed one |
| ExecStore.FailedStartEnds | daemon/exec.go:174-180 | a failed start ends with exit code 126 and never passes again |
| ExecStore.GuardPassesOnce | daemon/exec.go:148-181 | in every run whose starts avoid the gap, each exec passes once |
| ExecStore.GapLetsASecondStartIn | daemon/exec.go:174-180 | a run in which an exec passes twice |
| LinkIndex.Index.Link | daemon/links.go:27-43 | the new maps |
| LinkIndex.Index.Unlink | daemon/links.go:46-51 | the new maps, all aliases of the parent gone from the child |
| LinkIndex.ChildrenReportTheLastLink | daemon/links.go:55-60 | in every run children reports an alias for a container if and only if the alias was linked to it and since then neither linked anew nor unlinked, and the parent not deleted |
| LinkIndex.Index.Parents | daemon/links.go:64-76 | exactly the listed aliases, each with a parent that uses it |
| LinkIndex.Index.Delete | daemon/links.go:79-87 | the new maps |
| LinkIndex.LinkKeepsAgreementIff | daemon/links.go:27-43 | linking keeps parents and children in agreement if and only if the alias is not listed for another child |
| LinkIndex.UnlinkKeepsAgreementIff | daemon/links.go:46-51 | unlinking does, if and only if it names the listed child |
| LinkIndex.DeleteForgets | daemon/links.go:79-87 | after delete(c) children(c) and parents(c) are empty; no parents(x) mentions c if and only if every child that listed c was among its children, as it is where the maps agree |
| LinkIndex.CarefulRunsAgree | daemon/links.go:27-87 | in every run of such links and unlinks what parents reports children reports |
| LinkIndex.RenameForgetsTheParent | daemon/rename.go:56-82 | renaming drops the container from its child's parents |

## Left out

- The client, the command line, the builder beyond its cache calls, networking, archives, OCI and platform
  set-up: request plumbing, or calls into other packages, without an invariant of their own.
- Layer contents, sizes, reference counts and mounts: a layer is its diff ID; deleted-layer records are not
  listed.
- The text of references and IDs: names come parsed, with the default tag filled in; `Target` says how a
  name resolves.
- Image load, pull and legacy migration as creators of images.
- Errors of the disk and of store I/O other than those named, logging, metrics and events except destroy.
- The daemon restart: restored state, and health or exec data read back from disk.
- Decimal rendering and joining of the port text; `Item` holds its fields.
- The matching rules of the name, id, label, isolation, status, health, volume and network filters: one
  function parameter; the name and ID fast path of the list.
- runconfig.Compare: a parameter of the cache.
- Real time: intervals and timeouts are events.
- cleanupContainer as called from a failed create: it runs before the container is registered.
- The parsing of prune's filter values, and the space it reports as reclaimed.
- ImagePrune.ImagesPrune: `shadowed` stands for the comparison of an image digest with container IDs.
- ContainerState.Container.StateChanged: SetStopped after a failed restart, which is not locked either, is one
  event. The lock itself is not modelled: runs in which two holders' steps overlap are runs here as well.
- ContainerList.ReduceContainers: the list is given; its sort by creation time is not modelled.
- ExecStore.Collector.Scan: the copy of the store and the scan are one step; what can come between snapshot
  and scan is in the run lemmas.
- DisplayPorts.SortPorts: the library sort, as an insertion sort on a sequence.
