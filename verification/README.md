# GPU fractioning, modelled and proved

This project models the parts of a GPU-fractioning system for Kubernetes in which a property spans
several functions or a whole run, and proves those properties in Dafny. Five parts are covered.

* **The mapping handoff.** A bounded queue feeds one worker that writes container records as files
  (stage, fill, rename); another process lists and reads the directory. The directory is shown to
  refine the in-memory container store, a scan interleaved with the worker's operations is safe for
  every schedule of file-system steps, failures and crashes, neither side can get stuck, and what is
  read in the end is, per container, what the last accepted event about it said. Atomicity of
  `rename()` as in POSIX.1-2017 is the only atomicity taken for granted.
* **The create hook and the audit.** The hook decides what to inject, the adapter what to record and
  the audit, on its own, what should be present; the three agree on every configuration, annotation
  map and container, and what each does is stated over the text of the annotations.
* **The metrics engine, its collector and its exporter.** The rows of a collect are characterised by
  the processes, the device records and what NVML has told; grouping conserves memory and ignores
  order, idle rows never shadow observed ones, the sliding window holds the current streak over every
  run exactly when no cycle without containers falls inside it, and the gauge vectors stay in step
  with the labels that are known.
* **Retry supervision, the node-condition sweep and the finalizer protocol.** Both retry loops follow
  one machine with exact budget and waits; the paginated sweep equals a batch definition; a node is
  marked only under the finalizer in every run, and a deletion can always be finished.
* **The image-lock planner.** A release plan is the cross product minus exclusions, the locks
  partition it and pin the digests that were answered; publication leaves all outputs or none, and
  when it is atomic and complete is stated exactly.

Runs are sequences of actions folded by a `Step` function, so a statement about a run covers every
interleaving and every failure. Code that changes state is a class or a method with loops, proved
against a specification function; the lemmas are about those functions. Calls into libraries, the
registry, NVML, the container runtime and the API server are parameters.

## Layout

| file | content |
|---|---|
| `Text.dfy`, `Sorting.dfy` | strings as Go's `strings` and `strconv` treat them; sorting by string keys |
| `CgroupPaths.dfy`, `ContainerStore.dfy`, `ContainerIDs.dfy` | path normalisation, the in-memory store, the spellings of container IDs |
| `FsStore.dfy`, `FsRefinement.dfy` | the directory store and its refinement |
| `Handoff.dfy`, `HandoffProgress.dfy` | the interleavings of writer and reader: safety and progress |
| `Events.dfy`, `EventLaws.dfy`, `Pipeline.dfy` | the bounded event queue, what its events mean, and queue, directory and reader together |
| `Annotations.dfy`, `Hook.dfy`, `Audit.dfy`, `HookText.dfy` | annotation parsing, the create hook, the audit, and all three over the annotation text |
| `Engine.dfy`, `EngineProperties.dfy`, `DeviceRows.dfy` | one collect, what it guarantees, and which rows it has |
| `EngineRun.dfy`, `WindowGaps.dfy` | runs of collects, and runs with cycles that had no containers |
| `Collector.dfy`, `CollectorRows.dfy`, `Exporter.dfy` | where process rows come from, what they say, and where metric rows go |
| `Retry.dfy`, `NodeSweep.dfy` | retry loops, node conditions |
| `Finalizer.dfy`, `FinalizerProgress.dfy` | the finalizer protocol: safety and progress |
| `CatalogValidation.dfy`, `Catalog.dfy`, `ReleasePlan.dfy` | validating and planning a release |
| `LockNames.dfy`, `Locks.dfy`, `LockPartition.dfy` | lock file names; resolving and building locks |
| `Publish.dfy`, `Release.dfy` | publishing locks; the whole tool |

`dafny verify dfyconfig.toml` verifies everything.

## Where code and documentation disagree

The model follows the code. Each of these has a lemma at an input where the promise fails and one
that says exactly when it holds.

* The adapter's comment says a container is recorded exactly when the hook mutates it. On a resync
  the adapter does not parse the compute mode, so it records a container that a fail-closed hook
  refuses (`Hook.RefusedContainerIsRecorded`, `Hook.ResyncRecordsIffAdjustedUnlessModeRefused`).
* Window buffers of vanished keys are described as pruned at once. A cycle without active containers
  returns early and prunes nothing, so samples from before it can be published after it
  (`WindowGaps.StaleSampleIsPublished`, `WindowGaps.BufferIsCurrentIff`).
* A single patch keeps a node condition's transition time while its status stays. Within one pass an
  early ready pod followed by an unready one resets the time of a node that was and stays False
  (`NodeSweep.EarlyReadyPodResetsTransition`, `NodeSweep.PassKeepsTransitionIff`).
* The tool's own documentation speaks of atomic publication. A failed publication leaves none of its
  outputs, but a lock file of an earlier release that it had already replaced is gone as well
  (`Publish.EarlierLockCanBeLost`, `Publish.PublicationAtomicIff`), and two targets can share one
  path, so that a lock of the release itself is lost (`Release.AcceptedReleaseCanLoseLock`,
  `Release.AllPublishedIffNamesTellApart`).
* Container IDs that sanitising changes share files or read back under other names
  (`FsRefinement.SeparatorsCollide`, `FsRefinement.ReadBackExactIffBare`).

The planner's check for exclusions that match nothing is dead on a catalog that passed validation
(`CatalogValidation.AcceptedExclusionsHit`).

## Model

| member | source | states |
|---|---|---|
| `CgroupPaths.NormalizeCgroupPath` | fractioning-manager/common/mapping/store/container_store.go:194-209 | the repeated replacement of double slashes terminates and equals a single pass that collapses slash runs; the result is the canonical spelling of the path's component list |
| `CgroupPaths.CanonicalShape` | fractioning-manager/common/mapping/store/container_store.go:194-209 | a non-blank result is rooted, has no double slash and no trailing slash except the root, and keeps the components of the trimmed path |
| `CgroupPaths.ContainsIffComponentPrefix` | fractioning-manager/common/mapping/store/container_store.go:165-172 | containment holds if and only if the container path has components and they are a prefix of the process path's components |
| `ContainerStores.MappingOfMeans` | fractioning-manager/common/mapping/store/container_store.go:76-88 | a replaced store holds exactly the non-blank IDs of the list, each with the last entry listed under it |
| `ContainerStores.ContainerStore.Replace` | fractioning-manager/common/mapping/store/container_store.go:76-88 | the new contents are the mapping of the list, whatever was there |
| `ContainerStores.ContainerStore.Upsert` | fractioning-manager/common/mapping/store/container_store.go:90-98 | one entry is added or replaced; a blank ID changes nothing |
| `ContainerStores.ContainerStore.Delete` | fractioning-manager/common/mapping/store/container_store.go:100-118 | exactly the entries whose ID is equal, or equal after normalisation, go; a blank ID changes nothing |
| `ContainerStores.ContainerStore.MatchCgroupPaths` | fractioning-manager/common/mapping/store/container_store.go:120-132 | no answer exactly when no path matches any container; otherwise a container matching the first path that any container matches |
| `ContainerStores.ContainerStore.ActivePodUIDs` | fractioning-manager/common/mapping/store/container_store.go:134-145 | the non-blank pod UIDs of the entries and no others |
| `ContainerStores.ContainerStore.ActiveContainers` | fractioning-manager/common/mapping/store/container_store.go:147-156 | every entry once |
| `ContainerIDs.ContainsIDIffOccurs` | fractioning-manager/common/mapping/store/container_store.go:174-192 | a process path names a container by its normalised ID, free of slashes and of space at its ends, if and only if the ID occurs in the path as it is spelled |
| `ContainerIDs.LookupMeans` | fractioning-manager/common/mapping/store/container_store.go:120-192 | with such IDs a lookup answers if and only if some path lies on a container, by the components of its cgroup path or by an occurrence of its ID, and with a container on which the first such path lies |
| `ContainerIDs.SpellingsDeleteAlike` | fractioning-manager/common/mapping/store/container_store.go:100-118 | a container goes by either spelling of its ID, with a scheme or without, whichever it is stored under, and no other goes with it |
| `ContainerIDs.SchemeIsDropped` | fractioning-manager/common/mapping/store/container_store.go:183-192 | a scheme in front of a plain ID is dropped, by the store and by the file name alike |
| `FsStores.SanitizeFixed` | fractioning-manager/common/mapping/fsstore/record.go:96-104 | sanitising leaves an ID alone if and only if it has no surrounding space and no slash or backslash |
| `FsStores.FileNameRoundTrip` | fractioning-manager/common/mapping/fsstore/record.go:81-90 | the file name gives the ID back if and only if sanitising leaves the ID alone |
| `FsStores.ScanMeans` | fractioning-manager/common/mapping/fsstore/reader.go:61-113 | a record is read under an ID if and only if the directory has a visible file of that name with the JSON extension that decodes to a record of schema version 1 with the same pod, devices and memory |
| `FsStores.ScanListIsScan` | fractioning-manager/common/mapping/fsstore/reader.go:61-83 | a scan yields the same mapping in whatever order the directory lists its entries |
| `FsStores.Writer.WriteRecord` | fractioning-manager/common/mapping/fsstore/writer.go:124-166 | success if and only if no step failed, and then the record is in place; on failure nothing but staging files changed |
| `FsStores.Writer.Upsert` | fractioning-manager/common/mapping/fsstore/writer.go:57-64 | one record is put, or nothing but staging files changed; a blank ID is a success without effect |
| `FsStores.Writer.Delete` | fractioning-manager/common/mapping/fsstore/writer.go:68-76 | the ID's file goes; succeeds if and only if the removal does not fail or there is nothing to remove; on failure nothing changes |
| `FsStores.Writer.Replace` | fractioning-manager/common/mapping/fsstore/writer.go:83-118 | reports success if and only if no step failed, and then the directory is exactly the replacement; whatever failed, every entry outside staging files is untouched, a complete new record, or gone because stale |
| `FsStores.Writer.Sweep` | fractioning-manager/common/mapping/fsstore/writer.go:102-117 | exactly the stale mapping files whose removal does not fail are removed; success if and only if that is all of them |
| `FsStores.Reader.Scan` | fractioning-manager/common/mapping/fsstore/reader.go:61-83 | the store read back is the pointwise reading of the mapping files, skipping directories, foreign, hidden, undecodable and wrong-version files |
| `FsRefinement.DirectoryRefinesStore` | fractioning-manager/common/mapping/fsstore/writer.go:57-118 | for every sequence of Upsert, Delete and Replace on bare IDs, what a reader gets from the directory equals the in-memory store after the same sequence with container name and cgroup path erased |
| `FsRefinement.StepRefines` | fractioning-manager/common/mapping/fsstore/writer.go:57-118 | each single operation keeps directory and store in that relation |
| `FsRefinement.ReplaceAt` | fractioning-manager/common/mapping/fsstore/writer.go:83-118 | after Replace each ID reads as the last listed entry for it, and unlisted IDs as absent |
| `FsRefinement.ReadBackExactIffBare` | fractioning-manager/common/mapping/fsstore/record.go:53-104 | a stored container reads back under its own ID if and only if the ID is bare: unchanged by sanitising and not hidden |
| `FsRefinement.SeparatorsCollide` | fractioning-manager/common/mapping/fsstore/record.go:92-104 | two IDs differing only in a separator share one file, so the directory loses one that the store keeps |
| `Handoff.ScanDuringWorkIsSafe` | fractioning-manager/common/mapping/fsstore/writer.go:57-166 | for every sequence of Upsert, Delete and Replace and every interleaving of their file-system steps with a list-then-read scan, any step failing and the writer crashing anywhere: no mapping file is ever half-written; every record collected was current at a moment of the scan and is the old one or one an operation was to write; a finished scan has every container present throughout it, so every old one that all operations keep |
| `Handoff.ScanDuringReplaceIsSafe` | fractioning-manager/common/mapping/fsstore/writer.go:83-166 | the case of one Replace: every record collected is the old or a new one of its container, and a finished scan has every container in both sets |
| `Handoff.FaultFreeWorkRefinesStore` | fractioning-manager/common/mapping/fsstore/writer.go:57-166 | whenever the writer rests and no step has failed, the directory is the one the operations leave when run alone, however they were interleaved with the reader, and on bare IDs it reads as the in-memory store |
| `Handoff.ScanFollowsDirectory` | fractioning-manager/common/mapping/fsstore/reader.go:61-113 | in every schedule what a scan has was in the directory when it looked, and what was there all the time it has or has yet to read |
| `Handoff.KeptIsPresent` | fractioning-manager/common/mapping/fsstore/writer.go:68-118 | a readable container that no operation of the run takes away is readable at every moment of every schedule |
| `Handoff.UndisturbedScanIsExact` | fractioning-manager/common/mapping/fsstore/reader.go:61-113 | a scan no writer step interrupts returns exactly the directory's mapping |
| `Handoff.RunKeepsInvariant` | fractioning-manager/common/mapping/fsstore/writer.go:83-166 | at every moment of every schedule each entry outside staging files is untouched or a complete record of some operation |
| `HandoffProgress.FaultsComeFromDirectories` | fractioning-manager/common/mapping/fsstore/writer.go:57-166 | while no file operation fails and the worker does not crash, a fault comes from a directory under the name of a record and from nothing else: finished work was without fault if and only if no record found one |
| `HandoffProgress.WorkerIsNeverStuck` | fractioning-manager/common/mapping/fsstore/writer.go:57-166 | from every state of every schedule, whatever has failed, succeeding writer steps alone finish all remaining operations |
| `HandoffProgress.ReaderIsNeverStuck` | fractioning-manager/common/mapping/fsstore/reader.go:61-113 | from every state of every schedule reader steps alone finish the scan and leave the directory alone |
| `HandoffProgress.WorkGetsDone` | fractioning-manager/common/mapping/fsstore/writer.go:57-166 | every sequence of operations with no directory in its way can be carried out without fault, and the directory is then the one the operations make of it |
| `HandoffProgress.WorkReachesReader` | fractioning-manager/common/mapping/fsstore/reader.go:61-113 | on bare IDs a scan then collects exactly the in-memory store after the same operations |
| `Events.QueueIsFifo` | fractioning-manager/fractiond/internal/events/events.go:135-200 | in every schedule the writer calls are those of a prefix of the accepted events in order, the rest is queued in order, the queue stays within its depth, and the accepted events are a subsequence of the offered ones |
| `Events.FlushDrainsEarlierEvents` | fractioning-manager/fractiond/internal/events/events.go:145-159 | when a flush has returned, every event accepted before it was sent has been applied |
| `Events.SyncOverridesThePast` | fractioning-manager/fractiond/internal/events/events.go:120-129 | once a non-empty synchronise is applied, store and directory depend only on its container set and later events, whatever was dropped, skipped or panicked before |
| `Events.SyncMakesDirectoryExact` | fractioning-manager/fractiond/internal/events/events.go:113-129 | after it the directory reads as exactly the synchronised set |
| `Events.SilentEventsChangeNothing` | fractioning-manager/fractiond/internal/events/events.go:161-200 | an empty synchronise, a skipped upsert and a panicking adapter make no writer call and leave store and directory alone |
| `Events.DrainedQueueReadsBack` | fractioning-manager/fractiond/internal/events/events.go:103-200 | with bare IDs and an empty queue, the directory reads as the in-memory store after all accepted events; what that is per container, `EventLaws.LastEventDecides` says |
| `EventLaws.LastEventDecides` | fractioning-manager/fractiond/internal/events/events.go:103-200 | with bare IDs and an empty queue, the directory reads a record under an ID if and only if the last accepted event that concerns the ID (a record of it, its removal, a resync that is not empty) left that record, container name and cgroup path erased |
| `EventLaws.EventsReachDirectory` | fractioning-manager/fractiond/internal/events/events.go:103-200 | the same for the directory after every interleaving of file operations in which none fails, once all calls are over |
| `EventLaws.EventsReachReader` | fractioning-manager/fractiond/internal/events/events.go:103-200 | whatever has arrived, the worker can empty the queue and make its calls, and a scan then collects what the last accepted events say |
| `EventLaws.FlushReturns` | fractioning-manager/fractiond/internal/events/events.go:143-159 | a flush that could be sent returns once the worker has emptied the queue |
| `EventLaws.NothingDroppedWithinDepth` | fractioning-manager/fractiond/internal/events/events.go:131-141 | while no more than the depth of the queue has been sent, every event offered is accepted |
| `Pipeline.QueueReachesReader` | fractioning-manager/fractiond/internal/events/events.go:103-200 | for every queue run and every interleaving of the resulting file-system steps with a scan: the scan holds only records that accepted events told of and that were current during the scan, and once all accepted events are written without a failure the directory holds of every container exactly what the last accepted event about it left |
| `Pipeline.ResyncHeals` | fractioning-manager/fractiond/internal/events/events.go:113-129 | from any directory failures and crashes may have left, a resync and what follows it, once written without a failure, read back as the store that started from the resync's containers |
| `Events.InvStep` | fractioning-manager/fractiond/internal/events/events.go:135-200 | every offer, flush and worker step keeps the queue invariant |
| `Events.Processor.Enqueue` | fractioning-manager/fractiond/internal/events/events.go:135-141 | an offer is accepted exactly when the queue has room and never blocks |
| `Events.Processor.SendFlush` | fractioning-manager/fractiond/internal/events/events.go:145-149 | a barrier is queued behind everything accepted so far |
| `Events.Processor.WorkOne` | fractioning-manager/fractiond/internal/events/events.go:151-168 | one worker iteration is one step of the machine |
| `Events.Processor.SafeApply` | fractioning-manager/fractiond/internal/events/events.go:161-200 | an event makes at most its own writer call, whose effect `EventLaws.LastEventDecides` gives; a panic makes none |
| `Events.Processor.Drain` | fractioning-manager/fractiond/internal/events/events.go:143-159 | left alone, the worker applies every accepted event and closes every queued flush |
| `Annotations.KeysNeverCollide` | fractioning-manager/fractiond/internal/annotations/annotations.go:269-314 | annotation keys of different kinds or containers never coincide under one prefix |
| `Annotations.CeilDivIsLeast` | fractioning-manager/fractiond/internal/annotations/annotations.go:231-262 | the MiB value is the least m with m MiB at least the bytes, and is no larger than the bytes |
| `Annotations.MemoryRoundTrip` | fractioning-manager/fractiond/internal/annotations/annotations.go:231-258 | a quantity is accepted if and only if it is at least 1 MiB; its decimal text parses back to the same value within int64 |
| `Annotations.EffectiveMemoryIsInjectedLimit` | fractioning-manager/fractiond/internal/annotations/annotations.go:93-162 | with any memory annotation present, both injected values exist and the injected limit parses to the effective memory, which is the least MiB value of the annotation that sets it |
| `Hook.KeyTestAgrees` | fractioning-manager/fractiond/internal/plugin.go:349-357 | the prefix test for an environment key agrees with splitting at the first equals sign |
| `Hook.ContainerHasEnv` | fractioning-manager/fractiond/internal/plugin.go:349-357 | finds a key if and only if some token carries it |
| `Hook.CDIDeviceNames` | fractioning-manager/fractiond/internal/injection/injection.go:71-82 | the names of the listed devices, as `CDINamesMean` describes them |
| `Hook.CDINamesMean` | fractioning-manager/fractiond/internal/injection/injection.go:71-82 | one fully qualified name for each entry that names a device, in the order listed; blank entries and all, void and none get no name |
| `Hook.Plugin.BuildAdjustment` | fractioning-manager/fractiond/internal/plugin.go:247-344 | failure, no adjustment, or exactly the decided adjustment |
| `Hook.Plugin.CreateContainer` | fractioning-manager/fractiond/internal/plugin.go:221-237 | a mapping event is offered to the queue exactly when creation goes ahead, carrying what the adapter records |
| `Hook.RecordedIffAdjusted` | fractioning-manager/fractiond/internal/plugin.go:221-297 | for a non-blank ID, a container is recorded if and only if it was adjusted, and the recorded MiB is the injected limit parsed back |
| `Hook.ResyncRecordsIffAdjustedUnlessModeRefused` | fractioning-manager/fractiond/internal/adapter.go:55-126 | on a resync the recorded set agrees with the hook exactly unless a fail-closed hook refuses the container for its compute mode alone |
| `Hook.RefusedContainerIsRecorded` | fractioning-manager/fractiond/internal/adapter.go:55-126 | a container with a valid limit and an unknown mode is refused by a fail-closed hook and yet recorded on a resync |
| `Hook.DecisionIgnoresOtherContainers` | fractioning-manager/fractiond/internal/plugin.go:247-344 | annotations for another container of the pod change neither the decision nor the record |
| `HookText.DecisionMeans` | fractioning-manager/fractiond/internal/plugin.go:247-344 | over the annotation text: a container is refused only by a fail-closed hook, exactly for a malformed memory value or, with memory said, an unknown compute mode; it is left alone exactly without memory annotations, or fail-open with malformed ones; otherwise request and limit are injected in least MiB, each standing in for the other, the pipe is the shared one exactly for sm-sharing on a node that offers it, and the assigned devices replace what the container carries |
| `HookText.RecordMeans` | fractioning-manager/fractiond/internal/adapter.go:55-126 | a container is recorded if and only if it has an ID and well-formed memory annotations, with its own and its pod's identity, its devices, and the least MiB of the limit, for which the request stands in |
| `HookText.ViolatorMeans` | fractioning-manager/fractiond/internal/audit/detector.go:81-195 | over the annotation text: a container of a known pod is a violator if and only if it has an ID, is created or running, the hook would adjust it, and it lacks a variable or the mount its annotations call for |
| `Audit.CreatedThroughHookIsNoViolator` | fractioning-manager/fractiond/internal/audit/detector.go:81-195 | a container created through the hook under the same configuration is never a violator |
| `Audit.CreatedThroughHookHasInjectedValues` | fractioning-manager/fractiond/internal/plugin.go:247-344 | after the adjustment is applied, every token of an injected key carries the injected value |
| `Audit.NextAuditFindsNothing` | fractioning-manager/fractiond/internal/audit/detector.go:65-163 | once every violator has been recreated through the hook, the next audit is empty: no stop loop |
| `Audit.ReportedIfViolator` | fractioning-manager/fractiond/internal/audit/detector.go:65-75 | no violator is overlooked in the list |
| `Audit.Check` | fractioning-manager/fractiond/internal/audit/detector.go:81-163 | a violator is reported if and only if the container is created or running, has an ID and a known pod, would be adjusted, and lacks an injected key or the exact mount |
| `Audit.MissingInjection` | fractioning-manager/fractiond/internal/audit/detector.go:173-195 | nothing missing if and only if every injected key and the mount are present; exactly the absent keys are named, and the mount exactly if absent |
| `Audit.PresentEnv` | fractioning-manager/fractiond/internal/audit/detector.go:207-224 | exactly the injected keys that some token carries |
| `Audit.FindMount` | fractioning-manager/fractiond/internal/audit/detector.go:229-236 | found if and only if source and destination both match one mount |
| `Audit.PodSandboxLookup` | fractioning-manager/fractiond/internal/audit/detector.go:240-249 | the lookup table of the sandboxes, as `LookupMeans` describes it |
| `Audit.LookupMeans` | fractioning-manager/fractiond/internal/audit/detector.go:240-249 | a non-blank ID that is listed is looked up to the last sandbox listed under it, and no other ID is found |
| `Audit.Violators` | fractioning-manager/fractiond/internal/audit/detector.go:65-75 | the IDs of the violators in container order |
| `Audit.Remediate` | fractioning-manager/fractiond/internal/audit/remediate.go:38-59 | every violator gets a stop attempt in order, whatever failed before; every stop that succeeds is kept |
| `Engine.RecordRequestedMemory` | fractioning-manager/metricsd/internal/metrics/engine.go:323-333 | a container is counted once per key, however many processes or devices bring it there |
| `Engine.SumRequestedMemory` | fractioning-manager/metricsd/internal/metrics/engine.go:337-343 | the order of summation does not matter |
| `Engine.ObservePodDevice` | fractioning-manager/metricsd/internal/metrics/engine.go:459-482 | the observed names are those of exactly the observed keys |
| `Engine.GroupProcesses` | fractioning-manager/metricsd/internal/metrics/engine.go:190-225 | grouping the process list yields per key the sums over exactly its attributed processes |
| `Engine.AddIdleRows` | fractioning-manager/metricsd/internal/metrics/engine.go:227-242 | a zero row for exactly the resolvable device keys not observed for the pod, in whatever order containers are visited |
| `Engine.Enrich` | fractioning-manager/metricsd/internal/metrics/engine.go:180-256 | the rows list the declarative table once each, whose keys `DeviceRows.RowsAreDevices` and whose values `DeviceRows.ProcessAddsToItsRow` describe; the unmatched count is that of the list |
| `EngineProperties.ProcessesArePartitioned` | fractioning-manager/metricsd/internal/metrics/engine.go:190-201 | each process is exactly one of zero-PID, unmatched or attributed |
| `EngineProperties.MemoryIsConserved` | fractioning-manager/metricsd/internal/metrics/engine.go:180-256 | the memory of all rows is the memory of all attributed processes |
| `EngineProperties.ProcessOrderIrrelevant` | fractioning-manager/metricsd/internal/metrics/engine.go:180-256 | permuting the processes does not change the table |
| `EngineProperties.SearchOrderIrrelevant` | fractioning-manager/metricsd/internal/metrics/engine.go:436-443 | with unique UUIDs the map search order does not change the table |
| `EngineProperties.SharedUUIDMakesSearchOrderMatter` | fractioning-manager/metricsd/internal/metrics/engine.go:436-443 | with one UUID under two indices the search order does change the rows |
| `EngineProperties.IdleRowsNeverShadowObserved` | fractioning-manager/metricsd/internal/metrics/engine.go:227-242 | no idle row shares a GPU index or a non-blank UUID with an observed row of its pod |
| `EngineProperties.RowsAreObservedPlusIdle` | fractioning-manager/metricsd/internal/metrics/engine.go:190-242 | the rows are exactly the observed keys plus the resolvable device keys not observed for the pod |
| `EngineProperties.LinksMean` | fractioning-manager/metricsd/internal/metrics/engine.go:387-434 | a container is linked to a key exactly when one of its devices resolves to it |
| `EngineProperties.OneRowPerPodAndIndex` | fractioning-manager/metricsd/internal/metrics/engine.go:387-434 | with minor-sourced devices and listed UUIDs there is one row per pod and index |
| `EngineProperties.RowCarriesListedUUID` | fractioning-manager/metricsd/internal/metrics/engine.go:387-434 | every such row carries the UUID listed for its index |
| `EngineProperties.FractionIsShareOfDevice` | fractioning-manager/metricsd/internal/metrics/engine.go:335-359 | fraction times device total is the sum over the distinct requesting containers; it is zero exactly when that sum or the total is |
| `EngineProperties.RequestersMean` | fractioning-manager/metricsd/internal/metrics/engine.go:323-333 | the requesters of a row are the containers with a process under it or a device resolving to it |
| `DeviceRows.RowsAreDevices` | fractioning-manager/metricsd/internal/metrics/engine.go:190-256 | a key has a row if and only if a process of the pod is on that device, or a container has a record standing for it (by its UUID under the index the search finds, by its Linux minor through NVML's table, or by its index without that table) and no process of the pod is on that index or UUID |
| `DeviceRows.PodHasRowIffUsed` | fractioning-manager/metricsd/internal/metrics/engine.go:387-434 | with listed and unique UUIDs a pod has a row at an NVML index if and only if it has a process there or a record of that device |
| `DeviceRows.KnownMinorHasRow` | fractioning-manager/metricsd/internal/metrics/engine.go:406-420 | a record without UUID whose minor NVML knows, in either of the two record formats, gives its pod a row at the NVML index of that minor |
| `DeviceRows.UnknownMinorAddsNothing` | fractioning-manager/metricsd/internal/metrics/engine.go:406-420 | a record whose minor NVML does not know changes neither a row nor a value of the table |
| `DeviceRows.OneDeviceOneRow` | fractioning-manager/metricsd/internal/metrics/engine.go:227-242 | a pod whose processes and minor-sourced records are all on one NVML device has exactly one row, at that device's index |
| `DeviceRows.ProcessAddsToItsRow` | fractioning-manager/metricsd/internal/metrics/engine.go:203-256 | a row starts at zero, a process on it adds its memory and, up to 100 percent, its utilisation, and any other process leaves it alone |
| `EngineRun.MetricsEngine.constructor` | fractioning-manager/metricsd/internal/metrics/engine.go:67-93 | the window is the whole number of intervals it holds, at least one |
| `EngineRun.MetricsEngine.Collect` | fractioning-manager/metricsd/internal/metrics/engine.go:131-171 | a cycle without containers publishes nothing and keeps tables and buffers; any other publishes per row the normalised mean of the key's last samples since it reappeared among the cycles that had containers; both kinds are part of the recorded run |
| `EngineRun.MetricsEngine.WindowedSMUtil` | fractioning-manager/metricsd/internal/metrics/engine.go:261-276 | each row gets the mean of its window; the buffers are then exactly those of this cycle's keys |
| `EngineRun.MetricsEngine.PushSample` | fractioning-manager/metricsd/internal/metrics/engine.go:280-291 | the buffer is the last samples up to the window, and the answer their mean |
| `EngineRun.MetricsEngine.NormalizeSMUtil` | fractioning-manager/metricsd/internal/metrics/engine.go:295-302 | every row is normalised in place, other fields unchanged |
| `EngineRun.MetricsEngine.RememberDeviceUUIDs` | fractioning-manager/metricsd/internal/metrics/engine.go:372-379 | non-blank UUIDs overwrite, blank ones do not |
| `EngineRun.MetricsEngine.RememberDeviceTotalMemory` | fractioning-manager/metricsd/internal/metrics/engine.go:363-370 | non-zero totals overwrite, zero ones do not |
| `EngineRun.BuffersHoldStreaks` | fractioning-manager/metricsd/internal/metrics/engine.go:258-291 | over every run of cycles that had containers, each buffer is the last window of samples since its key reappeared, and the buffer keys are the last cycle's keys |
| `WindowGaps.BuffersSkipGaps` | fractioning-manager/metricsd/internal/metrics/engine.go:131-141 | a cycle without containers is invisible in the buffers |
| `WindowGaps.BufferIsCurrentIff` | fractioning-manager/metricsd/internal/metrics/engine.go:258-291 | over every run of cycles of either kind, a key's buffer is the window of its samples since it last reappeared if and only if no cycle without containers falls inside that window |
| `WindowGaps.StaleSampleIsPublished` | fractioning-manager/metricsd/internal/metrics/engine.go:131-171 | busy, no containers, idle: a window of two reports half busy although the only sample since the key reappeared is zero |
| `EngineRun.PublishedValuesAreBounded` | fractioning-manager/metricsd/internal/metrics/engine.go:249-318 | raw, windowed and normalised values stay between 0 and 100, and normalising never lowers a value when the fraction is at most 1 |
| `EngineRun.NormalizedBounds` | fractioning-manager/metricsd/internal/metrics/engine.go:309-318 | the normalised value is bounded, equals the input for an unknown fraction, and is no lower for a fraction of at most 1 |
| `EngineRun.NormalizedIsShare` | fractioning-manager/metricsd/internal/metrics/engine.go:309-318 | normalised times fraction is the utilisation as long as that is at most the requested share; above it the value is 100, and without a known fraction it is the utilisation itself |
| `EngineRun.PublishedShares` | fractioning-manager/metricsd/internal/metrics/engine.go:249-318 | every published row is normalised so |
| `EngineRun.LearnedIsNeverForgotten` | fractioning-manager/metricsd/internal/metrics/engine.go:361-385 | in every run of reports a device total or UUID once learned stays known |
| `EngineRun.LastReportWins` | fractioning-manager/metricsd/internal/metrics/engine.go:361-385 | in every run of reports the UUID, total and minor known of a device are those of the last report that told a non-blank one, and those known at first if none did |
| `Collector.CollectProcessUtilization` | fractioning-manager/metricsd/internal/metrics/nvml_collector.go:175-197 | the samples are joined one after the other, skipped ones left out |
| `Collector.MergeRunningProcesses` | fractioning-manager/metricsd/internal/metrics/nvml_collector.go:225-244 | the running processes are joined one after the other |
| `Collector.SamplesMean` | fractioning-manager/metricsd/internal/metrics/nvml_collector.go:175-223 | samples add exactly the processes with a sample that counts, set the last such value, and touch neither memory nor other devices |
| `Collector.ProcessesMean` | fractioning-manager/metricsd/internal/metrics/nvml_collector.go:225-244 | running processes add exactly the listed ones, raise memory to the largest amount reported, and touch neither utilisation nor other devices |
| `Collector.MaxUsedMeans` | fractioning-manager/metricsd/internal/metrics/nvml_collector.go:225-244 | that amount is the greatest available report, or what was known before |
| `Collector.JoinedRowsAreListed` | fractioning-manager/metricsd/internal/metrics/nvml_collector.go:93-143 | whatever the devices report or fail to, every joined row is keyed by its own UUID and PID and carries the UUID listed for its index |
| `CollectorRows.CollectMeans` | fractioning-manager/metricsd/internal/metrics/nvml_collector.go:78-244 | with distinct UUIDs a collect has one row for every process some device reports, by a sample that counts or in a process list, and no other; the row has the device's UUID and index, the utilisation of the last sample that counts, and the largest amount of memory reported |
| `CollectorRows.TablesMean` | fractioning-manager/metricsd/internal/metrics/nvml_collector.go:93-143 | the tables hold the UUID and total of every device that answered, and each minor under the last device that reported it |
| `Collector.ProcessCollector.DeviceUUID` | fractioning-manager/metricsd/internal/metrics/nvml_collector.go:163-173 | a cached non-blank UUID is reused, otherwise the one read is cached |
| `Collector.ProcessCollector.Collect` | fractioning-manager/metricsd/internal/metrics/nvml_collector.go:78-143 | each row of the join is published exactly once, with the tables of the devices that answered, and the UUIDs read are cached; a failed device count changes nothing, the cache included |
| `Collector.CollectedSnapshotGivesOneRowPerPodAndIndex` | fractioning-manager/metricsd/internal/metrics/nvml_collector.go:93-143 | snapshots of this collector meet the condition under which the engine has one row per pod and index |
| `Exporter.SeriesAfterObserve` | fractioning-manager/metricsd/internal/metrics/exporter.go:261-283 | after an observe each series is the snapshot's, a previous one or gone, and exactly when |
| `Exporter.ObserveShowsSnapshot` | fractioning-manager/metricsd/internal/metrics/exporter.go:261-315 | with one row per pod and index: snapshot keys show their values, any other series is shown exactly if it was before, its pod is active or activity is unknown, and it does not stand without UUID beside a row that names its GPU, and then it shows zero |
| `Exporter.PlaceholderSurvivalDependsOnOrder` | fractioning-manager/metricsd/internal/metrics/exporter.go:261-315 | without that condition a placeholder survives or not by its position in the snapshot |
| `Exporter.LabelsIdentifyKeys` | fractioning-manager/metricsd/internal/metrics/exporter.go:323-338 | the label set determines the key |
| `Exporter.Registry.Observe` | fractioning-manager/metricsd/internal/metrics/exporter.go:261-283 | the three gauge vectors stay in step with the known labels and show exactly the specified series; with one row per pod and index each vector has, under the spelled-out labels of every row, the value it is named after |
| `Exporter.Registry.PruneDeletedPods` | fractioning-manager/metricsd/internal/metrics/exporter.go:285-294 | exactly the series of inactive pods go; nothing goes when activity is unknown |
| `Exporter.Registry.DeleteSeries` | fractioning-manager/metricsd/internal/metrics/exporter.go:296-304 | one key leaves all three vectors and the known labels |
| `Exporter.Registry.DeleteIdleLabelsForObservedGPU` | fractioning-manager/metricsd/internal/metrics/exporter.go:306-315 | exactly the placeholder series of that pod and index go |
| `Exporter.Registry.SetZero` | fractioning-manager/metricsd/internal/metrics/exporter.go:317-321 | one known series becomes zero in all three vectors |
| `Retry.SuperviseMPS` | fractioning-manager/mpsd/internal/supervisor.go:95-156 | launches, waits and outcome follow the retry machine |
| `Retry.Connection.RunWithRetry` | fractioning-manager/fractiond/cmd/main.go:99-170 | the second copy follows the same machine, is ready at the end of a connection exactly if that connection synchronised and never between connections, and fails setup only when the stub fails |
| `Retry.GivesUpIffBudgetRunsOut` | fractioning-manager/mpsd/internal/supervisor.go:95-156 | it gives up if and only if some maxRetries runs in a row are shorter than the stable threshold, and after the first such row |
| `Retry.TailGrowsByOne` | fractioning-manager/mpsd/internal/supervisor.go:104-144 | the giving-up run is exactly the N-th consecutive unstable one since the start or the last stable run |
| `Retry.LaunchesAreBounded` | fractioning-manager/mpsd/internal/supervisor.go:95-156 | S stable runs allow at most (S+1)*N launches, the one a shutdown interrupts included |
| `Retry.WaitsAreBounded` | fractioning-manager/mpsd/internal/supervisor.go:100-156 | the first wait after a reset is the base, each next one doubles up to 60 s, so no wait exceeds the larger of base and 60 s |
| `Retry.WaitsDouble` | fractioning-manager/mpsd/internal/supervisor.go:100-156 | the first wait and every wait after a run that reached the stable threshold is the base, any other twice the one before and at most 60 s |
| `NodeSweep.PatchKeepsTransitionIffStatusSame` | operator/internal/common/daemonmgr/conditions.go:48-100 | a patch keeps the transition time if and only if the status was already the wanted one |
| `NodeSweep.StreamingEqualsBatch` | operator/internal/controller/gpufractioningconfig_controller.go:454-530 | patching node by node equals the batch definition over the whole pod list; False is sticky within a pass and unseen nodes are untouched |
| `NodeSweep.PagesAreOneStream` | operator/internal/controller/gpufractioningconfig_controller.go:479-527 | the page split does not matter |
| `NodeSweep.PassKeepsTransitionIff` | operator/internal/controller/gpufractioningconfig_controller.go:454-530 | over a whole pass the transition time is kept if and only if the first pod agrees with the old status and, for an old True, no pod is unready |
| `NodeSweep.EarlyReadyPodResetsTransition` | operator/internal/controller/gpufractioningconfig_controller.go:454-530 | a node that was and stays False has its transition time reset by a ready pod seen before an unready one |
| `NodeSweep.SweepExplains` | operator/internal/controller/gpufractioningconfig_controller.go:454-562 | after a pass a node without unready pods says that all daemons are ready, and any other what the driver check found or else why the last unready pod on it is not ready |
| `NodeSweep.Cluster.PatchNodeCondition` | operator/internal/common/daemonmgr/conditions.go:48-100 | succeeds if and only if the patch is accepted or the condition read is already up to date; the condition is then the patched one and otherwise unchanged; a failed read resets the transition time |
| `NodeSweep.Cluster.PatchNodeConditions` | operator/internal/controller/gpufractioningconfig_controller.go:454-530 | for every page split: each seen node ends True if and only if all its managed pods are ready, with the reason and message `SweepExplains` describes, the result says whether some pod is unready, and ready plus degraded is the number of nodes seen |
| `NodeSweep.Cluster.RemoveNodeConditions` | operator/internal/common/daemonmgr/conditions.go:140-181 | succeeds if and only if every page was listed and every present condition removed; whatever failed, the conditions left are exactly those of nodes not listed before a listing failed or whose deletion failed |
| `Finalizer.ConditionsOnlyUnderFinalizer` | operator/internal/controller/gpufractioningconfig_controller.go:157-179 | in every run with any call failing, a node carries the condition only while the resource holds the finalizer |
| `Finalizer.FinalizerReleasedOnlyWhenClean` | operator/internal/controller/gpufractioningconfig_controller.go:354-375 | the only step that drops the finalizer is the release at the end of a deletion, and no node is marked then |
| `Finalizer.ReleaseNeedsCompleteSweep` | operator/internal/common/daemonmgr/conditions.go:109-181 | in every run a reconcile past the sweep began with a deleting resource that holds the finalizer and has stayed in its deletion since: every node targeted at its start was listed, every node marked then was cleared or went away, and no listing and no removal has failed |
| `Finalizer.FinalizerGoesOnlyAfterSweep` | operator/internal/controller/gpufractioningconfig_controller.go:354-375 | whatever the next step is, the finalizer goes only by a release after such a sweep, with no node marked |
| `Finalizer.StepKeepsInv` | operator/internal/controller/gpufractioningconfig_controller.go:157-179 | each reconcile step keeps the finalizer invariant |
| `FinalizerProgress.DeletionCanFinish` | operator/internal/controller/gpufractioningconfig_controller.go:354-375 | from every state of every run with a resource being deleted, controller steps whose calls succeed end with the resource gone and no node marked |
| `FinalizerProgress.DeletionGoesOn` | operator/internal/controller/gpufractioningconfig_controller.go:354-375 | a deletion without failure so far goes on until the resource is gone, whatever users and nodes do, unless a call fails |
| `FinalizerProgress.ConditionCanBeSet` | operator/internal/controller/gpufractioningconfig_controller.go:157-262 | from every state of every run with a live resource, controller steps whose calls succeed mark any targeted node, under the finalizer, and one more unmarks it |
| `FinalizerProgress.LifeOfResource` | operator/internal/controller/gpufractioningconfig_controller.go:157-375 | a resource can be created, mark any targeted node, be deleted and go without a trace |
| `CatalogValidation.ValidateCatalog` | hack/imagelock/catalog.go:91-148 | accepts exactly the well-formed catalogs |
| `CatalogValidation.UniqueCatalogNames` | hack/imagelock/catalog.go:295-310 | accepts exactly non-empty lists of well-formed distinct names and returns their set |
| `CatalogValidation.UniquePlatforms` | hack/imagelock/catalog.go:312-327 | accepts exactly non-empty lists of well-formed distinct platforms; comparing their strings is as good as comparing them |
| `CatalogValidation.ValidateExclusions` | hack/imagelock/catalog.go:127-146 | accepts exactly lists of exclusions with a reason, known selectors and no repetition |
| `CatalogValidation.AcceptedIsValid` | hack/imagelock/catalog.go:91-148 | an accepted catalog meets what the planner needs |
| `CatalogValidation.AcceptedExclusionsHit` | hack/imagelock/catalog.go:196-200 | every exclusion of an accepted catalog matches some combination, so the planner's own check for that never fires on one |
| `CatalogValidation.AcceptedPlannable` | hack/imagelock/catalog.go:150-233 | planning an accepted catalog fails exactly for a bad tag, overlapping exclusions, or an image or target left empty |
| `Catalog.MatchingExclusions` | hack/imagelock/catalog.go:342-356 | the positions of the matching exclusions; more than one exactly when two overlap |
| `Catalog.TallyMeans` | hack/imagelock/catalog.go:150-194 | the planner's counters and entries are exactly those of the combinations visited and kept |
| `ReleasePlans.BuildReleasePlan` | hack/imagelock/catalog.go:150-233 | a plan exists if and only if all tags are valid, no combination has two exclusions, every exclusion matches and every image and target keeps something; it is then the described plan, and every image is tagged by its profile's template with the version in the place of the first placeholder |
| `ReleasePlans.PlanIsProductMinusExclusions` | hack/imagelock/catalog.go:150-233 | the plan holds a combination once if it is in the product and no exclusion names all three of its fields, outright or by a star, and otherwise not at all; planned plus excluded is the whole product |
| `ReleasePlans.PlanIsUnique` | hack/imagelock/catalog.go:207-233 | a catalog has one plan: map iteration order and sort ties cannot show |
| `ReleasePlans.PlanIsTagged` | hack/imagelock/catalog.go:157-160 | every tag of a plan is text before, version, text after, where the template of its profile is text before, placeholder, text after and the text before has no placeholder |
| `CatalogValidation.OnceIffAround` | hack/imagelock/catalog.go:118-125 | a template passes if and only if it is some text, the placeholder and some text, neither of them with a placeholder |
| `Release.AcceptedTags` | hack/imagelock/catalog.go:118-160 | in the plan of an accepted catalog a tag is its profile's template with the version in the place of its one placeholder |
| `Locks.ManifestDigestsPerPlatform` | hack/imagelock/main.go:265-293 | succeeds if and only if every requested platform has exactly one manifest; the result has the requested platforms and no others, with their digests |
| `Locks.ValidateDigests` | hack/imagelock/main.go:190-204 | accepts exactly a well-formed index digest with a well-formed digest for every expected platform |
| `Locks.ResolveImages` | hack/imagelock/main.go:170-188 | all images are resolved or the whole resolution fails, the latter exactly when an answer is missing or bad |
| `Locks.BuildLock` | hack/imagelock/main.go:396-425 | fails exactly when no image is included; otherwise the sorted entries of the target |
| `Locks.MarshalLocks` | hack/imagelock/main.go:377-394 | fails exactly when some target's lock would be empty; otherwise a lock per target in order, each with the path its file name gives |
| `LockPartition.LocksPartitionPlan` | hack/imagelock/main.go:377-425 | every planned combination is in exactly one lock, once, nothing else is in any, and the entries number the combination count |
| `LockPartition.NoLockIsEmpty` | hack/imagelock/main.go:396-425 | on a plan with a resolver answering for exactly the requested platforms, building a lock never fails |
| `LockPartition.LockAscends` | hack/imagelock/main.go:421-424 | each lock is strictly sorted by image name |
| `Publish.OutputDirectory.WriteLocks` | hack/imagelock/main.go:321-375 | succeeds if and only if no step fails, and then all outputs and no staging files are there; otherwise exactly the outputs before the failed rename, none if making the directory or staging failed, and all staging files are gone, outside files that could not be removed, and the rest is untouched |
| `Publish.OutputDirectory.StageAll` | hack/imagelock/main.go:330-359 | all outputs are staged under fresh names, or nothing changed |
| `Publish.OutputDirectory.PublishStaged` | hack/imagelock/main.go:361-374 | all staged files are renamed into place, or those before the first failing rename are removed again |
| `Publish.FailedRunRestoresIff` | hack/imagelock/main.go:361-374 | a failed run restores the directory if and only if none of the paths it had renamed to existed before |
| `Publish.PublicationAtomicIff` | hack/imagelock/main.go:321-375 | every failed run restores the directory if and only if no output but the last replaces a file |
| `Publish.EarlierLockCanBeLost` | hack/imagelock/main.go:361-374 | a failing second rename loses the earlier lock under the first path |
| `Publish.AllSurviveIffDistinctPaths` | hack/imagelock/main.go:361-374 | every lock survives publication if and only if the paths are distinct |
| `LockNames.FileNamesDiffer` | hack/imagelock/main.go:427-434 | without hyphens in the platforms different targets have different file names |
| `LockNames.FileNamesCanCollide` | hack/imagelock/main.go:427-434 | with a hyphen in an operating system's name two targets can share a file name |
| `LockNames.HyphenFreeNamesTellApart` | hack/imagelock/main.go:427-434 | so hyphen-free platforms give every target of a plan a file of its own |
| `LockNames.FileNameSpelled` | hack/imagelock/main.go:427-434 | a lock file is named by artifact, version, profile unless standard, operating system and architecture |
| `Release.LockRelease` | hack/imagelock/main.go:80-113 | succeeds if and only if the catalog has a plan and every planned image is answered with valid digests; the outputs then hold each combination no exclusion matches once, every entry pins the digest answered for its image and platform, under the tag its profile's template gives, and every lock is non-empty and strictly sorted |
| `Release.AllPublishedIffNamesTellApart` | hack/imagelock/main.go:361-434 | after publication every lock of a release is in the directory if and only if the file names tell its targets apart |
| `Release.Run` | hack/imagelock/main.go:80-113 | the whole tool succeeds if and only if the catalog is accepted and plannable, all images are answered and no file operation fails; every image is tagged by its profile's template with the version for its one placeholder; before that the directory is untouched, after it every lock is there exactly when the file names tell the targets apart |
| `Release.AcceptedReleaseCanLoseLock` | hack/imagelock/main.go:427-434 | an accepted catalog with a plan whose release loses a lock to a shared file name |
| `Release.UnexcludedIsPlannable` | hack/imagelock/catalog.go:150-233 | without exclusions an accepted catalog has a plan exactly when its tags are valid |

## Left out

- Kubernetes clients, watches, RBAC, DaemonSet builders, driver-upgrade affinity, flags and environment: library plumbing, or easy members.
- NVML, the container runtime, process execution, HTTP and Prometheus internals: their results are parameters, a gauge vector is a map from labels to values.
- The grammar of Kubernetes quantities: a quantity is its byte value; that the value fits int64 is a hypothesis where it matters.
- JSON and YAML text: encoding is an inverse pair with a version, and an unreadable file is an undecodable one.
- Floating-point rounding and clocks: percentages and means are reals, times are natural numbers.
- Integer overflow of memory sums and of the doubled backoff: sums and times are unbounded.
- The mapping directory before it exists reads as empty, and listing it is one step.
- Logging, diagnostics, end-to-end suites and scripts.
- The semver comparison and the dependency checker.
- Registry retries and stability reads (hack/imagelock/main.go:210-263), flag parsing, expected-image and chart-value comparison: the resolver is a function of the planned image.
- Keys the code joins with NUL characters or slashes into one string are pairs and tuples in the planner; in the engine they stay strings and the slash-freeness they need is a hypothesis.
- The name pattern of catalogs, the repository and tag parsers and the digest pattern are predicate parameters.
- Audit.CreatedThroughHookIsNoViolator: the runtime's way of applying an adjustment is a definition of this model (drop removed keys, set variables, append mounts), because that code is not part of the repository.
- EngineRun.MetricsEngine.Collect: the outcome of searching the UUID table is one choice per cycle, and the cgroup match of each process is an input.
- NodeSweep.Cluster.PatchNodeConditions: API errors during the sweep are not modelled; the wording of pod failures and the driver check are inputs.
- NodeSweep.PassKeepsTransitionIff: clock readings of one pass are distinct and later than the old transition.
- Retry.SuperviseMPS: cancellation is the end of the list of runs, and stale socket removal has no effect here.
- Retry.Connection.RunWithRetry: connecting and synchronising are inputs, one per run.
- Finalizer.ConditionsOnlyUnderFinalizer: node labels are fixed, managed pods sit on targeted nodes, and reconciles are serial and read the current resource.
- Publish.OutputDirectory.WriteLocks: staging names are serial numbers, which stands for the exclusive creation of a new name; the content of a file is the lock itself.
- HandoffProgress.WorkerIsNeverStuck: progress means that a continuation exists; that steps are in fact taken is the scheduler's part.
- FinalizerProgress.DeletionCanFinish: likewise, a continuation of calls that succeed.
- Handoff.ScanDuringWorkIsSafe: after a crash the worker goes on with the next operation of the sequence; events lost with the process are events the sequence does not contain.
- Release.Run: reading and parsing the catalog file, and the comparison with expected images and chart values, are not part of the model.
- Locks.BuildLock: entries with equal names may come in any order, as an unstable sort allows; under a plan there are none.
