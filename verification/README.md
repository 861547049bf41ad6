# Benchmark fetch coordination, transfers and pod specifications: a Dafny model

Anubis runs machine-learning benchmarks on a cluster.  This project models the parts of it whose
correctness depends on order, concurrency, in-place edits or arithmetic, and proves what they promise
for every run and every input.

* **Fetch coordination.**  A benchmark's data sets are fetched once each, under a distributed
  read/write lock kept in ZooKeeper.  `LockProtocol` is the lock as a step relation over any number of
  processes, with stale listings, watches, releases and crashes; `LockManager` is the acquire loop with
  arbitrary steps of everybody else between its calls; `LockNames` ties both to the text of node names.
  `FetchProtocol` runs the per-fetch protocol (status node, watch, job, unversioned job result,
  versioned cancellation) inside that lock; `FetchReported` traces what a fetch reports back to who wrote
  it.  `StatusPaths` has the paths of the status nodes, `CancelNodes` the cancellation loop against
  concurrent writers.  `EventJoin` puts the handler of one event on top of all that: its tasks are fetches
  of the protocol among those of other events.  `EventOutcome`, `EventReported`, `EventDecided`,
  `EventTwice`, `EventStuck` and `EventHandler` say what becomes of the event.
* **Content cache.**  `Digests` is the one-pass MD5 and ETag computation, `S3Transfer` the cached
  transfer into S3, `SizeEstimate` the size estimate, the selection of objects and the volume size.
* **Pod specifications.**  `LabelTree` is the labelling worklist, `EnvMerge` the environment merge,
  `DataMounts` and `PullerText` the data mounts and the puller's argument, `MountSweep`, `PodEdits` and
  `PodBuilder` the builder's in-place edits.
* **Job trigger.**  `JobTrigger` is the polling loop that decides whether a command runs.

`dafny verify dfyconfig.toml` checks the whole project.

## What the code does not promise in general

Nine promises hold only under a condition.  In each case the exact condition is proved, in both
directions, and a run or an input that breaks the promise is given.

* *A fetch completes once.*  If another fetch uses the same status node, a late notification of the first
  can find the node of the second, and the first completes again.  A fetch completes at most once in every
  run if and only if no other fetch uses its status node (`FetchTwice.OnceIffAlone`).
* *No report raises, and every event has one outcome.*  The write lock of a source makes earlier tasks of
  that source report first, so `pending.remove`, which compares values, always takes the reporting object,
  also among equal contents.  What it does not survive is a second report: a task that shares its status
  node with another task or with a fetch of another event has a run in which `on_done` raises.  The promises
  of the handler hold in every run if and only if no task shares its status node
  (`EventTwice.SoundIffAlone`).  Two contents of one action share it if and only if the action id is empty or
  their texts are equal, sizes included (`NodePaths.SharedPathIff`), so a content listed twice is such a case
  when both size estimates agree.
* *Every event is decided.*  Once the process has nothing left to do, an event whose tasks share no status
  node is decided if and only if no exception broke off the start loop, no task waits for its status node to
  become final, and no task waits for a lock whose holder is a stranger or never released it
  (`EventDecided.NothingLost`).  A broken loop and an unreleased lock are for good
  (`EventDecided.BrokenForGood`, `EventDecided.HeldForGood`); `EventStuck` has a run for each.
* *A fetch can create its status node.*  It finds none there in every run if and only if fetches that share
  a status node share the lock (`FetchTwice.NeverCollidesIffUnderLock`).  Only requests with an empty action
  id can break that (`NodePaths.UnderLockIff`), and two of one client do (`NodePaths.EmptyActionsCollide`).
* *A cancellation reaches the fetches of its action.*  For ids without slashes the nodes it lists include a
  status node if and only if client and action are the same and the action id is not empty; with an empty
  one the status node is the listed node itself (`StatusPaths.ListedIff`, `StatusPaths.OwnChild`).
* *An accepted MD5 is the MD5 of the content.*  The ETag of a multipart object is accepted as an MD5; an
  accepted value is the MD5 if and only if it has no part count (`S3Transfer.AcceptedMd5`).
* *Removing a volume removes its mounts.*  The loop deletes from the list it walks over and skips the
  next element.  No mount is left if and only if no two mounts of the volume are neighbours
  (`MountSweep.CleanIffNotAdjacent`, `PodEdits.RemoveVolumeIntegrity`).
* *Adding variables keeps the others.*  Every value is printed as text: a variable without a value, with or
  without a reference to a secret or a field, ends as "{}", a null as "None".  A variable of another name is
  kept if and only if its value is a text (`EnvMerge.KeptIffLiteral`).
* *The puller does what it is told.*  The argument is split by colons, commas and blanks.  The puller
  reads back what was written if and only if every piece is non-empty and has none of them
  (`PullerText.ReadFormat`).

Only data sets are consulted for the outcome of an event; failed models do not stop it.  A fetch whose
node is final before its job starts still starts the job.  An exception in `on_done` or in the cleanup
after it leaves the lock held.  The puller downloads every object from the bucket of the first source.

## Assumptions

* ZooKeeper: sequence numbers in a directory only grow; `exists` and `get` set their watch atomically
  with the read; a watch fires once; a lost session means a dead process, whose ephemeral nodes vanish
  together.
* The callbacks of one fetch run one at a time; `on_done` of an event is one step, and sending its
  message succeeds.  The start loop calls `fetch` for one task after the other.
* A hash has a fixed width and is collision-free on the byte strings the computation at hand hashes; it
  is a parameter and nothing more is assumed of it.
* Clocks, network failures and the answers of the cluster are parameters.

## Model

| member | source | states |
|---|---|---|
| `LockProtocol.StepKeepsInv` | kafka-utils/src/bai_zk_utils/zk_locker.py:101-161 | every create, scan, check, delivery, grant, release and crash keeps the protocol invariant |
| `LockProtocol.RunKeepsInv` | kafka-utils/src/bai_zk_utils/zk_locker.py:101-161 | the invariant holds after every run |
| `LockSafety.MutualExclusion` | kafka-utils/src/bai_zk_utils/zk_locker.py:93-161 | in every reachable state two holders of one directory are both readers, although each acted on a stale listing |
| `LockSafety.GrantOrder` | kafka-utils/src/bai_zk_utils/zk_locker.py:136-161 | of two incompatible requests the lower-numbered is granted first, and its node is deleted before the other grant |
| `LockSafety.ScanBound` | kafka-utils/src/bai_zk_utils/zk_locker.py:128-161 | with k incompatible predecessors at creation a request lists the children at most k+1 times over all loops and re-entries and is granted at most once |
| `LockSafety.NoLostWakeup` | kafka-utils/src/bai_zk_utils/zk_locker.py:147-154 | a waiting request watches a live incompatible predecessor, or its notification is under way |
| `LockSafety.NoDeadlock` | kafka-utils/src/bai_zk_utils/zk_locker.py:113-161 | when the managers have nothing left to do, a live request holds the lock exactly when no live incompatible request precedes it, that is when it and everything before it in its directory are readers, or nothing is before it |
| `LockSafety.LowestHolds` | kafka-utils/src/bai_zk_utils/zk_locker.py:113-161 | then the lowest-numbered live request holds its lock |
| `LockSafety.ReaderJoins` | kafka-utils/src/bai_zk_utils/zk_locker.py:93-161 | from every reachable state in which a directory has only readers, a new reader gets the lock with one listing, and all holders keep it |
| `LockSafety.ReadersShare` | kafka-utils/src/bai_zk_utils/zk_locker.py:93-161 | a run in which two readers of one directory hold the lock together |
| `LockSafety.NoLivelock` | kafka-utils/src/bai_zk_utils/zk_locker.py:128-161 | without new requests and crashes the length of every run is bounded |
| `LockManager.OthersOnlyHelp` | kafka-utils/src/bai_zk_utils/zk_locker.py:128-133 | no step of others touches a request or puts an incompatible node before it |
| `LockManager.Ensemble.ScanLocksBefore` | kafka-utils/src/bai_zk_utils/zk_locker.py:137-145 | the list found is exactly the live incompatible predecessors at the moment of the listing |
| `LockManager.Ensemble.WatchFirst` | kafka-utils/src/bai_zk_utils/zk_locker.py:147-158 | the watch is set on the first of them, and the request waits or rescans as the node is there or gone |
| `LockManager.Ensemble.AcquireLockLoop` | kafka-utils/src/bai_zk_utils/zk_locker.py:113-161 | whatever others do between the calls the loop ends, with one grant and no blocker left or with a watch on a live blocker, after at most one scan per blocker and one more |
| `LockNames.SequenceIndexOfName` | kafka-utils/src/bai_zk_utils/zk_locker.py:88-91 | the sequence number is read back from any path ending in a node name |
| `LockNames.KindOfName` | kafka-utils/src/bai_zk_utils/zk_locker.py:93-95 | a name contains the write-lock suffix exactly when the node is a write lock |
| `LockNames.NamesBeforeAgrees` | kafka-utils/src/bai_zk_utils/zk_locker.py:138-145 | filtering names by text selects exactly the protocol's incompatible predecessors, in order |
| `FetchSafety.StepKeepsInv` | fetcher/src/fetcher_dispatcher/download_manager.py:96-152 | every step of lock, fetch, callback, job, cancellation, exception and crash keeps the composed invariant |
| `FetchSafety.NodeCreationNeverCollides` | fetcher/src/fetcher_dispatcher/download_manager.py:99-117 | when a fetch creates its status node there is none at that path, if fetches that share a path share the lock; `FetchTwice.NeverCollidesIffUnderLock` has the other half |
| `FetchSafety.NodeMeansLocked` | fetcher/src/fetcher_dispatcher/download_manager.py:99-152 | while a status node exists its creator holds the write lock of its source |
| `FetchOnce.AtMostOnce` | fetcher/src/fetcher_dispatcher/download_manager.py:96-152 | a fetch with a status node of its own calls `on_done` and release at most once in every run, also when the job overwrites CANCELED, and the content reported is final with its destination kept exactly when DONE; `FetchReported.ReportsWhatWasWritten` says which status it is |
| `FetchOnce.CompletesOrWaits` | fetcher/src/fetcher_dispatcher/download_manager.py:99-152 | when the process is quiet such a fetch has a non-final node under a watch, or has reported exactly once with its node gone, and has released its lock unless `on_done` or the cleanup raised |
| `FetchReported.ReadCarriesOver` | kafka-utils/src/bai_zk_utils/states.py:37-43 | a handler that reads a final node gives the content its status and type; after DONE destination and message stay, otherwise the message is that of the node and the destination is gone; a non-final node changes nothing |
| `FetchReported.OnlyReadsChange` | fetcher/src/fetcher_dispatcher/download_manager.py:105-125 | no other step changes a content, except that an estimate fills in the size found, or fails with FAILED and its message |
| `FetchReported.ReportsWhatWasWritten` | fetcher/src/fetcher_dispatcher/download_manager.py:99-152 | in every run, what a fetch with a status node of its own reports is a result that its job or a cancellation wrote to that node in this run, or the failure of its own estimate, with that result's status, type, message and destination |
| `FetchReported.JobIffStarted` | fetcher/src/fetcher_dispatcher/download_manager.py:119-123 | in every run a fetch has a job if and only if its start function came to its regular end |
| `FetchReported.ExceptionEndsStart` | fetcher/src/fetcher_dispatcher/download_manager.py:119-123 | an exception in the first run of the handler, because the node or the lock is gone, ends the start |
| `FetchTwice.SharedPathReportsTwice` | fetcher/src/fetcher_dispatcher/download_manager.py:127-152 | for any two fetches sharing a node there is a run in which the first completes twice |
| `FetchTwice.OnceIffAlone` | fetcher/src/fetcher_dispatcher/download_manager.py:96-152 | every run completes a fetch at most once if and only if no other fetch uses its status node |
| `FetchTwice.Collides` | fetcher/src/fetcher_dispatcher/download_manager.py:115-117 | two fetches with one status node and different locks: the second finds the node there and raises |
| `FetchTwice.NeverCollidesIffUnderLock` | fetcher/src/fetcher_dispatcher/download_manager.py:99-117 | in every run a fetch finds no node where it creates its own if and only if fetches that share a status node share the lock |
| `StatusPaths.SamePathIff` | fetcher/src/fetcher_dispatcher/download_manager.py:60-67 | for ids without slashes, paths agree if and only if client and action agree and the action id is empty or the hashes agree |
| `StatusPaths.SameParentIff` | fetcher/src/fetcher_dispatcher/download_manager.py:60-67 | for ids without slashes, cancellations list the children of the same node if and only if client and action agree |
| `StatusPaths.OwnChild` | fetcher/src/fetcher_dispatcher/download_manager.py:60-67 | with an action id the status node is the child, named by the hash, of the node a cancellation of its client and action lists; with an empty one it is that node itself |
| `StatusPaths.ListedIff` | fetcher/src/fetcher_dispatcher/download_manager.py:165-173 | for ids without slashes, a cancellation lists the status node of a fetch if and only if the action id is not empty and client and action are those of the fetch |
| `NodePaths.PathDeterminesSource` | fetcher/src/fetcher_dispatcher/download_manager.py:54-67 | equal status paths come from equal sources, hence from one lock, unless an action id is empty |
| `NodePaths.SharedPathIff` | fetcher/src/fetcher_dispatcher/download_manager.py:60-67 | two contents of one action, as they are when the path is computed, share a status path if and only if the action id is empty or their texts are equal |
| `NodePaths.UnderLockIff` | fetcher/src/fetcher_dispatcher/download_manager.py:54-67 | fetches that share a status path share the lock if and only if those with an empty action id do |
| `NodePaths.EmptyActionsCollide` | fetcher/src/fetcher_dispatcher/download_manager.py:60-67 | two requests of one client with an empty action id, for sources with different locks, have one status path and two locks |
| `NodePaths.CanceledIff` | fetcher/src/fetcher_dispatcher/download_manager.py:165-173 | the status node of a request with an action id is addressed by its path, and belongs to exactly the cancellations of its client and action |
| `CancelNodes.OtherStep` | fetcher-job/src/bai_fetcher_job/fetcher.py:42-50 | a finished or missing node becomes unfinished only by being created again |
| `CancelNodes.StatusTree.SetVersioned` | fetcher/src/fetcher_dispatcher/download_manager.py:189-199 | the compare-and-set writes exactly when the version read is still current |
| `CancelNodes.StatusTree.CancelChild` | fetcher/src/fetcher_dispatcher/download_manager.py:177-205 | one node is moved from non-final to CANCELED or left alone, it is settled at some moment of the call, and the body runs at most twice plus once per re-creation |
| `CancelNodes.StatusTree.UpdateNodesToCancel` | fetcher/src/fetcher_dispatcher/download_manager.py:165-210 | under arbitrary concurrent writers the result counts exactly the nodes of this client and action moved from non-final to CANCELED, different nodes at different moments, and every child listed was settled during the call |
| `EventOutcome.VerdictMeaning` | fetcher/src/fetcher_dispatcher/fetcher_dispatcher_service.py:50-62 | aborted as canceled iff a data set was canceled, as failed iff one failed and none was canceled, forwarded iff none is canceled, failed, pending or running |
| `EventOutcome.NoEarlierEqual` | fetcher/src/fetcher_dispatcher/fetcher_dispatcher_service.py:81-101 | no open task before the reporting one has an equal value: it would have the same source, hence the same lock and a lower number |
| `EventOutcome.RemovesItself` | fetcher/src/fetcher_dispatcher/fetcher_dispatcher_service.py:96-98 | `pending.remove` finds the reporting object itself |
| `EventOutcome.StepKeepsInv` | fetcher/src/fetcher_dispatcher/fetcher_dispatcher_service.py:64-122 | every step of any fetch keeps: the pending objects are exactly the tasks that have not reported |
| `EventOutcome.OneOutcome` | fetcher/src/fetcher_dispatcher/fetcher_dispatcher_service.py:64-122 | with status nodes of their own, among any other fetches and equal contents: no report raises, the all-done callback runs once, after the last report, and the event has exactly the verdict its data sets decide |
| `EventOutcome.NothingPending` | fetcher/src/fetcher_dispatcher/fetcher_dispatcher_service.py:103-109 | with nothing to fetch the event is forwarded at once, and in no run does the handler do anything else |
| `EventReported.VerdictFromRun` | fetcher/src/fetcher_dispatcher/fetcher_dispatcher_service.py:50-122 | when all tasks have reported: aborted as canceled iff a data set was canceled in this run, as failed iff a job or an estimate of one failed and none was canceled, forwarded iff neither and no data set came as pending or running |
| `EventReported.ForwardedIsFetched` | fetcher/src/fetcher_dispatcher/fetcher_dispatcher_service.py:111-116 | for every data set fetched for a forwarded event a job wrote DONE in this run, and it has the type the job found and the destination it was fetched to |
| `EventReported.OnlyDoneForwards` | fetcher/src/fetcher_dispatcher/fetcher_dispatcher_service.py:111-116 | if jobs write nothing but DONE for the data sets, nobody cancels them and no estimate fails, the event is forwarded |
| `EventReported.EachAnnouncedOnce` | fetcher/src/fetcher_dispatcher/fetcher_dispatcher_service.py:68-101 | in every run there is one pending message for the event, one per started and one per downloaded task, one failed message per failed and one canceled message per canceled task and no other, and the final message comes exactly with the event |
| `EventDecided.LoopFinishes` | fetcher/src/fetcher_dispatcher/fetcher_dispatcher_service.py:100-101 | the start loop of a live process comes to its end, unless an exception ends it |
| `EventDecided.NothingLost` | fetcher/src/fetcher_dispatcher/fetcher_dispatcher_service.py:64-122 | when the process has nothing left to do, the event is decided if and only if the start loop was not broken off, no task waits for its status node, and no task is held back by a lock whose holder is a stranger or never released it |
| `EventDecided.BrokenForGood` | fetcher/src/fetcher_dispatcher/fetcher_dispatcher_service.py:100-101 | after an exception ended the start loop early, no continuation decides the event |
| `EventDecided.HeldForGood` | fetcher/src/fetcher_dispatcher/download_manager.py:100-103 | a task behind one whose handler ended without releasing the lock waits for good, and no continuation decides the event |
| `EventStuck.StuckBehindAbort` | fetcher/src/fetcher_dispatcher/download_manager.py:100-103 | two tasks of one source with status nodes of their own: a run in which the cleanup after the first report raises, nobody has anything left to do, and no continuation decides the event |
| `EventStuck.StuckLoop` | fetcher/src/fetcher_dispatcher/fetcher_dispatcher_service.py:100-101 | two tasks or more: a run in which the second estimate or the dispatch of the first raises and no continuation decides the event |
| `EventTwice.SharedTaskRaises` | fetcher/src/fetcher_dispatcher/fetcher_dispatcher_service.py:81-101 | a task that shares its status node with a later task or a fetch of another event has a run in which its second report raises |
| `EventTwice.SoundIffAlone` | fetcher/src/fetcher_dispatcher/fetcher_dispatcher_service.py:64-122 | every run keeps all promises of the handler (no exception, one all-done callback, the right verdict, decided exactly when nothing is missing) if and only if no task shares its status node, and likewise for the absence of exceptions alone |
| `EventHandler.Handler.constructor` | fetcher/src/fetcher_dispatcher/fetcher_dispatcher_service.py:76-109 | the handler starts in the first state of the join |
| `EventHandler.Handler.RemovePending` | fetcher/src/fetcher_dispatcher/fetcher_dispatcher_service.py:96-96 | the first object of equal value is removed, or none is equal |
| `EventHandler.Handler.OnDone` | fetcher/src/fetcher_dispatcher/fetcher_dispatcher_service.py:81-98 | message, removal, all-done test and verdict are those of the join; an exception leaves it iff nothing equal is pending |
| `EventHandler.Handler.NoticeReturn` | fetcher/src/fetcher_dispatcher/fetcher_dispatcher_service.py:100-101 | the start loop goes on when its call has returned and ends when an exception left it |
| `EventHandler.Handler.Step` | fetcher/src/fetcher_dispatcher/fetcher_dispatcher_service.py:68-101 | whatever step is taken, the handler and its start loop move as in the join |
| `EventHandler.Handler.Run` | fetcher/src/fetcher_dispatcher/fetcher_dispatcher_service.py:64-122 | after any number of steps in any order: no report raised, and the event is decided exactly once when every task has reported |
| `Digests.CalculateMd5AndEtag` | kafka-utils/src/bai_io_utils/md5sum.py:24-45 | one pass yields the hash of all bytes and the two-pass ETag, for every file and every positive chunk size; `Digests.EtagMeaning` says what that ETag is |
| `Digests.ChunkCount` | kafka-utils/src/bai_io_utils/md5sum.py:28-45 | the part count is the length over the part size, rounded up |
| `Digests.EtagMeaning` | kafka-utils/src/bai_io_utils/md5sum.py:42-45 | a file that fits into one chunk has its hash as ETag; a longer one the hash of a string of n digests with n its length over the chunk size rounded up, whose i-th block is the hash of the i-th slice of the file |
| `Digests.PartsEtagMeaning` | kafka-utils/src/bai_io_utils/md5sum.py:38-43 | the same for the ETag of a multipart object, also with a single part |
| `Digests.PartsEtagInjective` | kafka-utils/src/bai_io_utils/md5sum.py:38-45 | equal multipart ETags of any two part sizes come from equal bytes |
| `S3Transfer.SameEtagSameBytes` | kafka-utils/src/bai_io_utils/s3_utils.py:85-93 | an object whose ETag equals the one computed for a file has the file's bytes |
| `S3Transfer.SameObjectEtagSameBytes` | fetcher-job/src/bai_fetcher_job/s3_to_s3.py:32-45 | objects with equal ETags have equal bytes |
| `S3Transfer.AcceptedMd5` | kafka-utils/src/bai_io_utils/s3_utils.py:70-82 | a tagged object is accepted under the MD5 of its content and nothing else, an untagged one under its ETag; what is accepted is the MD5 of the content if and only if it has no part count |
| `S3Transfer.Bucket.CheckForMd5` | kafka-utils/src/bai_io_utils/s3_utils.py:70-82 | true exactly when the object can be read and its tag, or without a tag its ETag, is the given value |
| `S3Transfer.Bucket.Upload` | kafka-utils/src/bai_io_utils/s3_utils.py:47-56 | the object is replaced and its tags are dropped, or nothing changes |
| `S3Transfer.Bucket.UpdateTag` | kafka-utils/src/bai_io_utils/s3_utils.py:59-67 | the tag is set, or nothing changes, and every tag stays the MD5 of its content |
| `S3Transfer.Bucket.Transfer` | fetcher-job/src/bai_fetcher_job/transfer_to_s3.py:27-59 | the exact outcome and the exact store afterwards: an accepted MD5, a failed download and a wrong digest change nothing, an object with the computed ETag is only tagged, any other is replaced and tagged, and what fails leaves what; tags are right in every intermediate state, and the next call with the same MD5 is content with the object |
| `S3Transfer.Bucket.TransferOwnEtag` | fetcher-job/src/bai_fetcher_job/transfer_to_s3.py:27-59 | given the ETag of an untagged multipart object as MD5, the transfer is content with that object, whose MD5 is another one |
| `S3Transfer.Bucket.CopyCheckEtag` | fetcher-job/src/bai_fetcher_job/s3_to_s3.py:32-45 | afterwards source and destination have equal bytes, copied or not; the exact store afterwards; without a source or with a failing copy nothing changes |
| `SizeEstimate.IsS3File` | kafka-utils/src/bai_io_utils/s3_utils.py:131-154 | error iff nothing is under the key; a file iff the key exists and is non-empty or alone under its prefix |
| `SizeEstimate.SelectForTransfer` | fetcher-job/src/bai_fetcher_job/s3_to_s3.py:63-94 | the object itself is selected if it is a file, else everything under the prefix |
| `SizeEstimate.SelectedMeaning` | fetcher-job/src/bai_fetcher_job/s3_to_s3.py:63-94 | object by object: nothing iff no key starts with the given one, the object itself iff it has bytes or is alone, else exactly the objects whose key starts with it |
| `SizeEstimate.TotalsMeaning` | fetcher/src/preflight/s3_estimator.py:38-58 | the count is the number of objects with bytes; the largest bounds all and is one of them |
| `SizeEstimate.EstimateSize` | fetcher/src/preflight/s3_estimator.py:26-58 | for every listing total, count and maximum are those of the objects the transfer selects, and max <= total <= count * max |
| `SizeEstimate.VolumeBounds` | fetcher/src/fetcher_dispatcher/kubernetes_dispatcher.py:189-277 | with largest file and total in MiB, rounded up: the size is the least multiple of 4 that is at least 1.2 times the first and a tenth of the second, and the bytes requested are at least 1.14 times the largest file |
| `SizeEstimate.VolumeMonotone` | fetcher/src/fetcher_dispatcher/kubernetes_dispatcher.py:269-277 | the size is monotone in the largest and in the total size |
| `LabelTree.AddLabelWorklist` | executor/src/transpiler/kubernetes_spec_logic.py:244-259 | the worklist ends and equals the recursive tree map, for every order of the keys |
| `LabelTree.EveryMetadataLabelled` | executor/src/transpiler/kubernetes_spec_logic.py:253-257 | every dict of the result with non-empty metadata carries the label |
| `LabelTree.LabelledIff` | executor/src/transpiler/kubernetes_spec_logic.py:253-257 | away from the labels, the metadata of every dict of the input gets the label unless it is empty; an empty dict, list or text stays as it is |
| `LabelTree.LabelableIff` | executor/src/transpiler/kubernetes_spec_logic.py:253-257 | the labeller can deal with a tree if and only if the metadata of every dict in it is empty, or a dict whose labels are missing, empty or a dict |
| `LabelTree.OnlyLabelsChange` | executor/src/transpiler/kubernetes_spec_logic.py:251-259 | away from the labels entries the result has the same leaves, lists and keys |
| `LabelTree.LaterValueWins` | executor/src/transpiler/kubernetes_spec_logic.py:207-211 | labelling twice with one key is labelling once with the later value, so labelling is idempotent |
| `LabelTree.LabelsCommute` | executor/src/transpiler/kubernetes_spec_logic.py:207-211 | labels with different keys can be added in either order |
| `EnvMerge.MergeMeaning` | executor/src/transpiler/kubernetes_spec_logic.py:297-305 | each name once, in order of first use, with the value assigned last |
| `EnvMerge.LastValueAppend` | executor/src/transpiler/kubernetes_spec_logic.py:303-304 | added values override old ones, other values are kept |
| `EnvMerge.PrintedAs` | executor/src/transpiler/kubernetes_spec_logic.py:301-305 | what a variable of another name ends as: its text, its scalar as printed, null as "None", no value as "{}" |
| `EnvMerge.KeptIffLiteral` | executor/src/transpiler/kubernetes_spec_logic.py:301-305 | adding variables keeps one of another name if and only if its value is a text |
| `EnvMerge.ReferenceIsLost` | executor/src/transpiler/kubernetes_spec_logic.py:301-305 | a variable without a value, with or without a reference, next to an unrelated addition ends as the text "{}" |
| `EnvMerge.AddTwice` | executor/src/transpiler/kubernetes_spec_logic.py:297-305 | adding A and then B is adding A overridden by B, also when one is empty |
| `DataMounts.GetDataMounts` | executor/src/transpiler/bai_knowledge.py:338-355 | each distinct path once, in order of first use, under the number of its first use |
| `DataMounts.GetContainerVolumeMounts` | executor/src/transpiler/bai_knowledge.py:357-363 | one mount of the datasets volume per path, with the path's directory as sub-path |
| `DataMounts.MountedOnce` | executor/src/transpiler/bai_knowledge.py:259-263 | the path of every source is mounted exactly once, from the directory named for that source in the puller argument |
| `DataMounts.MountsDistinct` | executor/src/transpiler/bai_knowledge.py:338-363 | only paths of sources are mounted, and distinct paths get distinct sub-paths |
| `DataMounts.PullerArgs` | executor/src/transpiler/bai_knowledge.py:391-405 | the arguments are the first bucket and the formatted entries; an error iff some source is not in S3 |
| `DataMounts.PullerAgreesWithMounts` | executor/src/transpiler/bai_knowledge.py:395-404 | the puller reads back object, permissions and directory of every source if and only if object keys and permissions survive word splitting |
| `DataMounts.PulledWhereMounted` | executor/src/transpiler/bai_knowledge.py:391-405 | then the puller puts the object of every source, with the permissions, into the directory that is mounted at the path of that source |
| `PullerText.ReadFormat` | puller/download-s3-files:18-43 | splitting the puller's text gives back the entries it was made of if and only if every piece is non-empty without colon, comma or blank |
| `PullerText.ColonSplits` | puller/download-s3-files:18-43 | a key with a colon is read as two files |
| `MountSweep.SweepMounts` | executor/src/transpiler/kubernetes_spec_logic.py:281-283 | the loop that deletes while it walks leaves exactly the sequence `Left` |
| `MountSweep.LeftIsKept` | executor/src/transpiler/kubernetes_spec_logic.py:281-283 | without equal mounts of the volume, exactly the mounts stepped over are left, each in its place |
| `MountSweep.LeftOthers` | executor/src/transpiler/kubernetes_spec_logic.py:281-283 | all other mounts stay in order |
| `MountSweep.LeftCount` | executor/src/transpiler/kubernetes_spec_logic.py:281-283 | as many mounts of the volume are left as were stepped over |
| `MountSweep.CleanIffNotAdjacent` | executor/src/transpiler/kubernetes_spec_logic.py:281-283 | no mount of the volume is left if and only if no two of them are neighbours |
| `PodEdits.Find` | executor/src/transpiler/kubernetes_spec_logic.py:164-181 | the first container of that name, containers before init containers, or none has the name |
| `PodEdits.GetSet` | executor/src/transpiler/kubernetes_spec_logic.py:164-181 | an edit of the container found leaves the volumes and all other containers alone |
| `PodEdits.RemoveVolumeIntegrity` | executor/src/transpiler/kubernetes_spec_logic.py:261-287 | after removing a volume every mount names a declared volume if and only if it is declared again or no container has neighbouring mounts of it |
| `PodEdits.AdjacentMountsDangle` | executor/src/transpiler/kubernetes_spec_logic.py:279-283 | a pod with two neighbouring mounts of a volume is sound, and no outcome of the removal is |
| `PodBuilder.Pod.RemoveContainer` | executor/src/transpiler/kubernetes_spec_logic.py:186-205 | exactly the container found is removed, or none has the name; mount integrity is kept |
| `PodBuilder.Pod.RemoveVolume` | executor/src/transpiler/kubernetes_spec_logic.py:261-287 | the first volume of that name and its mounts go as far as the loop reaches; integrity is kept exactly when the removal is safe |
| `PodBuilder.Pod.AddExtendedShm` | executor/src/transpiler/bai_knowledge.py:273-283 | volume and mount are added, or the volume alone if there is no list of mounts, or nothing without the container; integrity is always kept |
| `PodBuilder.Pod.RemovePuller` | executor/src/transpiler/bai_knowledge.py:386-389 | container and volume go, or the error left what it left; integrity is kept exactly when the removal is safe |
| `PodBuilder.Pod.UpdateDataPuller` | executor/src/transpiler/bai_knowledge.py:379-405 | the puller is told its entries, or removed when there are none; when it succeeds; when integrity is kept |
| `PodBuilder.Pod.AddDataVolumeMounts` | executor/src/transpiler/bai_knowledge.py:259-263 | the container gets the mounts of the table the puller is told; which error leaves what; integrity is kept exactly when the datasets volume is declared, or its removal is safe |
| `PodBuilder.Pod.AddScripts` | executor/src/transpiler/bai_knowledge.py:411-432 | the script puller is told its entries, or removed when there are none; when integrity is kept |
| `PodBuilder.ScriptsReadBack` | executor/src/transpiler/bai_knowledge.py:417-430 | the puller reads back the script entries if and only if every key survives word splitting |
| `PodBuilder.ScriptUnpacked` | executor/src/transpiler/bai_knowledge.py:417-430 | then each script is unpacked with the permissions for scripts, in a directory of its own |
| `PodBuilder.Pod.AddEnvVars` | executor/src/transpiler/kubernetes_spec_logic.py:297-305 | the container's variables become the merge, every value printed as text; with nothing to add nothing is even looked up |
| `JobTrigger.Trigger.Callback` | job-status-trigger/src/bai_job_status_trigger/__main__.py:44-77 | an unseen job is waited for within the grace period; once seen, a trigger status stops, another final status is an error |
| `JobTrigger.LateIff` | job-status-trigger/src/bai_job_status_trigger/__main__.py:53-59 | a job is late exactly when the whole grace period has passed; a grace of zero or less ends up to a second earlier |
| `JobTrigger.JobWatcher.ThreadRunLoop` | watcher/src/bai_watcher/job_watcher.py:54-68 | for every sequence of polls: success iff the first decisive poll after the job was seen has a trigger status and no not-found before was late; failure and still-polling characterised the same way |
| `JobTrigger.AtMostOne` | watcher/src/bai_watcher/job_watcher.py:54-68 | a sequence of polls has at most one verdict, at one poll |
| `JobTrigger.VerdictIsFinal` | job-status-trigger/src/bai_job_status_trigger/__main__.py:95-106 | later polls change no verdict |
| `JobTrigger.NotFoundNeedsSeen` | job-status-trigger/src/bai_job_status_trigger/__main__.py:53-68 | not-found runs the command only after the job was seen |

## Left out

- Clients of Kafka, Kubernetes, boto3, pycurl and SageMaker, command lines, YAML and TOML parsing: foreign calls.
- ZooKeeper session events other than process death, and overflow of the sequence counter.
- The internals of MD5 and of the retry library; a fetcher job is a writer of one final result at a time.
- Destination keys in `s3_to_s3_deep`; only the selection of objects is modelled.
- Thread races inside `on_done` of an event; it is one step.
- Failures of the message service inside `on_done`.
- LabelTree.AddLabelWorklist: trees are values, so sub-trees shared by reference are not modelled, nor the partial edits left when metadata is not a dict or the key is "metadata" and the original raises.
- PullerText.ReadFormat: word splitting only; expansion of file name patterns depends on the puller's file system.
- SizeEstimate.VolumeBounds: exact arithmetic instead of floating point.
- The texts of status messages, SageMaker status decoding, descriptor validation, dashboards, reports and command-line tools: single-branch or finite.
