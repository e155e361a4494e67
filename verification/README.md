# SmartWheel: the algorithms and protocols behind dual-lidar mapping

SmartWheel fuses two lidars on a wheelchair into a map.  This project models the parts of it that
are algorithms or protocols rather than numerics, and proves what they keep.

| file | what it models |
|---|---|
| `RayTraversal.dfy` | the voxel walk along one lidar ray, over exact reals |
| `OccupancyMap.dfy`, `GridMeaning.dfy` | rebuilding occupied, free and unknown columns from all rays, under resource bounds |
| `RecordPairing.dfy`, `PairingAnswers.dfy` | offline pairing of left and right records in bounded sorted queues |
| `PlaneAssignment.dfy` | matching planes between the lidars on a padded cost matrix, and the search for rival matchings |
| `PlaneOwnership.dfy`, `PlaneVerdicts.dfy`, `ProposalSuppression.dfy` | giving image pixels to plane proposals, and dropping duplicate proposals |
| `SourceFusion.dfy`, `SourceAnswers.dfy`, `FusedBundles.dfy`, `DualFusion.dfy` | live pairing with freshness deadlines, bounded duplicate memory and a latch |
| `RawArchive.dfy`, `DurableArchive.dfy` | the archive worker: queue, file transaction, acknowledgement, close |
| `TrackingGate.dfy`, `Gate.dfy` | the gate that accepts the scan matcher's results |
| `AckedDelivery.dfy`, `GraphDelivery.dfy` | delivery of accepted bundles to the graph, one at a time until acknowledged |
| `WheelGuess.dfy`, `WheelTfBridge.dfy` | wheel pose guesses: prepared, registered, relayed |
| `FrontEnd.dfy`, `FrontEndSafety.dfy`, `FrontEndAnswers.dfy`, `FrontEndFlow.dfy`, `FrontEndResume.dfy`, `FrontEndLatch.dfy`, `FrontEndTiming.dfy`, `LatchedRun.dfy`, `FusionNode.dfy`, `Decimals.dfy` | the node that composes fusion, archive, gate and graph delivery |
| `MapRebuild.dfy`, `LiveMap.dfy` | the live map: a coalescing rebuild worker and its coordinator |
| `DeviceClock.dfy`, `DeviceTimeValidator.dfy` | unwrapping the IMU's 32-bit tick counters |
| `Rollback.dfy` | the journalled rollback of a deployment, stopped or without power anywhere |

Protocols come in two files.  One holds the state as a value, its atomic steps as functions of
the state and an event, and the lemmas about every run: any sequence of events, whatever the
clocks, the disk or the other threads answer.  The other holds the class with the source's own
fields; each method's postcondition says that it makes exactly that step.  What a step answers is
stated once more without its definition, from the histories of the run and in both directions: the
lemmas named `...Exactly` and `...Meaning` say when an input is taken, refused, dropped or
passed on, and what then changes.  The algorithms are methods with loops against a declarative
specification.

Integers are unbounded as in Python; where the source works on 32-bit counters the wrap is
written out.  Measurements and geometry are exact reals or opaque tokens.

## Results that differ from what one would expect

- The ray walk misses its endpoint on exact input when one increasing and one decreasing axis
  both end on a voxel boundary (`RayTraversal.RayCells`; `RayTraversal.CornerRay` is one).  The same
  contract says this is the only case.
- The padded matrix puts the number of pairs first for up to 423 of them, and not for 424
  (`PlaneAssignment.BoundIsTight`).  The seed budget holds training captures to 42 pairs; holdout
  captures have no such bound.
- The duplicate memory is exact up to `8 * max_queue + 1` accepted frames of other streams
  between two offers of a frame, and no further: `SourceFusion.EnoughOthersBreakIt` is a run for
  every policy.
- Reference times can go back across a stream change and a resume
  (`SourceFusion.EpochChangeBreaksOrder`), because the high-water marks are kept by stream.  They
  cannot while the accepted stamps of each side rise (`SourceFusion.ReferenceTimesIncrease`).
- `resume` does not clear the ready queue.  After `fail()` that does not matter, but a timer tick
  that misses both deadlines at once latches without `fail()`, and a bundle fused before the latch is
  published after it (`LatchedRun.LatchedBundleIsPublished` has whole runs).  The condition at the tick
  is exact: `FrontEndLatch.TickLeavesReady` says when a bundle stays ready,
  `FrontEndLatch.NothingOldAfterTick` that otherwise nothing old is published, and
  `FrontEndLatch.ReadyBundleOutlivesLatch` that else a resume publishes it.  So is the condition on the
  configuration: with a result timeout of three age limits, which the defaults satisfy, no such state is
  reachable (`FrontEndTiming.LatchedHoldsNothing`), and with a shorter one it is
  (`LatchedRun.BoundIsExact`).  The first needs resumes to find the node latched or nothing
  ready: one called while it runs empties flight and archive queue but not the ready queue.
- A fault whose text is empty closes neither fusion nor gate, and opens them when they were closed
  (`FrontEndLatch.FailClosesByText`); nothing old gets through even so
  (`FrontEndSafety.NothingOldAfterFail`).
- A wrap of the optional IMU counter is refused when the counter was missing from the frame before,
  because the host interval starts at that frame (`DeviceClock.SkippedFrameRefusesWrap`;
  `DeviceClock.SkippedFrameIsRefused` has the frames).
- A failure of the live map coordinator whose text is empty does not block it
  (`MapRebuild.EmptyTextNeverBlocks`).

## Model

| member | source | states |
|---|---|---|
| RayTraversal.RayCells | src/wc_maps/builder.py:64-109 | the walk fails for its length bound exactly when the voxel distance needs more cells, and for a missed endpoint exactly when an increasing and a decreasing axis both end on a voxel boundary; otherwise the list has no repeats, omits start and end voxel, holds only voxels whose closed cube the segment meets, and every other voxel whose interior it crosses |
| RayTraversal.AxisStart | src/wc_maps/builder.py:76-88 | the first crossing time and the period of an axis, as the code divides them out, are where the segment really meets that axis's grid planes |
| RayTraversal.AxisStep | src/wc_maps/builder.py:95-106 | stepping an axis at its own crossing time, or leaving it at another one's, keeps cell and next crossing true to the segment |
| RayTraversal.StepFollows | src/wc_maps/builder.py:95-106 | one turn of the loop, ties included, keeps all three axes on the segment |
| RayTraversal.StepApproaches | src/wc_maps/builder.py:92-109 | every turn before the end comes strictly closer to the final voxel, so the loop bound suffices |
| RayTraversal.EnteredVoxel | src/wc_maps/builder.py:107-108 | the voxel just entered has the segment in its closed cube |
| RayTraversal.ArrivedForGood | src/wc_maps/builder.py:93-94 | once the final voxel is reached the segment does not leave it again |
| RayTraversal.CornerNeverReached | src/wc_maps/builder.py:92-109 | on a mixed corner the walk passes the final voxel and never meets it |
| RayTraversal.CollectStep | src/wc_maps/builder.py:107-108 | each turn adds exactly the voxels the segment crossed in it |
| RayTraversal.CollectedAtEnd | src/wc_maps/builder.py:92-108 | at the final voxel what was collected is the traversal of the whole segment |
| RayTraversal.CornerRay | src/wc_maps/builder.py:64-109 | a ray of one voxel step whose end is such a corner |
| OccupancyMap.BuildMap | src/wc_maps/builder.py:131-258 | on a physical configuration the map is built exactly when every frame, ray, voxel union, grid and column interval is within bounds; then it is the map of the set of returns; with nothing else wrong the voxel limit is raised exactly when the union exceeds it, and whatever error is raised holds of the input |
| OccupancyMap.GatherEvidence | src/wc_maps/builder.py:164-235 | the loop over frames computes the occupied, all and ground sets of the returns, or raises an error that holds of the input: an empty frame, too many points, a return of zero range, one that cannot be traced in the way named, or a union beyond the limit |
| OccupancyMap.ExplainedByVoxels | src/wc_maps/builder.py:164-235 | with no empty frame, few enough points and every return traceable only the voxel limit can be raised |
| OccupancyMap.AddFrame | src/wc_maps/builder.py:198-231 | one frame extends the evidence by exactly its returns |
| OccupancyMap.AddReturn | src/wc_maps/builder.py:210-230 | one return adds its endpoint and its ray, or raises what is wrong with it, or the limit when the union is too large |
| OccupancyMap.MergeRay | src/wc_maps/builder.py:218-228 | the fast path and the member-by-member path give the same union or the same refusal |
| OccupancyMap.Project | src/wc_maps/builder.py:239-258 | the grid covers the columns of all voxels and is refused exactly when its area or the collision interval is too large |
| OccupancyMap.FillColumns | src/wc_maps/builder.py:249-258 | row by row the data hold 100, 0 or -1 as the column's evidence says |
| OccupancyMap.Bounds | src/wc_maps/builder.py:240-242 | the corner columns are the extremes of the voxels seen |
| OccupancyMap.EvidenceBounded | src/wc_maps/builder.py:214-228 | the voxels counted exceed the limit exactly when some union of touched voxels does |
| OccupancyMap.EvidenceUnique | src/wc_maps/builder.py:164-230 | evidence is determined by the set of returns |
| OccupancyMap.MapUnique | src/wc_maps/builder.py:239-258 | so is the finished map |
| OccupancyMap.OrderIrrelevant | src/wc_maps/builder.py:175-258 | permuting the observations changes neither the verdict nor the map |
| OccupancyMap.OccupiedStaysOccupied | src/wc_maps/builder.py:252-258 | with more observations an occupied column stays occupied, so it never turns free |
| OccupancyMap.EndpointNeverFree | src/wc_maps/builder.py:213-239 | the voxel of a return is never free, whatever rays cross it |
| OccupancyMap.FreeColumnHasEvidence | src/wc_maps/builder.py:245-256 | a free column holds a free voxel in the collision interval and a ground return of its own |
| GridMeaning.DatumMeaning | src/wc_maps/builder.py:245-258 | every datum of a finished grid, from the returns: 100 exactly when a return ends in its column at a collision height; else 0 exactly when the ground is valid, a return ends on the ground of that column, and every voxel of its collision heights is touched by the returns; else -1 |
| GridMeaning.ColumnMeaning | src/wc_maps/builder.py:252-257 | the same for any column and the evidence of any set of returns |
| GridMeaning.CollisionInterval | src/wc_maps/builder.py:245-246 | the collision interval is exactly the voxel layers that meet the heights between collision_min_height and collision_max_height above ground |
| RecordPairing.PairRecords | src/wc_calibration/importers.py:336-397 | the generator yields the pairs of the run and counts what is left unmatched; a bad policy is refused first |
| RecordPairing.Consume | src/wc_calibration/importers.py:345-396 | one record does what one step of the run does |
| RecordPairing.AdmitFrame | src/wc_calibration/importers.py:357-378 | sorted insertion, overflow and merge of one record |
| RecordPairing.MergeQueues | src/wc_calibration/importers.py:379-396 | the inner loop is the two-pointer merge of the two queues |
| RecordPairing.EnqueuePlace | src/wc_calibration/importers.py:374-375 | appending and sorting puts a frame behind every frame not after it |
| RecordPairing.MergeShape | src/wc_calibration/importers.py:379-396 | the merge drops heads only, and every pair it yields is in the window, of two devices and one axis convention |
| RecordPairing.RunKeeps | src/wc_calibration/importers.py:343-397 | in every run the frames consumed are those late, invalid, flushed, overflowed, outside the window, paired twice over and still queued; queued frames carry the active stream; queues are sorted and bounded and one is empty |
| RecordPairing.RetiredForever | src/wc_calibration/importers.py:357-365 | an abandoned stream never becomes active again |
| RecordPairing.ExactlyOnce | src/wc_calibration/importers.py:353-356 | no raw key occurs in two pairs, or twice in one |
| RecordPairing.MergeContinues | src/wc_calibration/importers.py:379-396 | merging what arrived so far and then merging on with later arrivals is merging everything at once |
| RecordPairing.OnlineIsOffline | src/wc_calibration/importers.py:343-397 | with sorted arrivals of one stream per side and no overflow, the online pairs are the offline merge of the arrivals |
| RecordPairing.InterleavingIrrelevant | src/wc_calibration/importers.py:343-397 | the pairs, queues and drops do not depend on how the two sides interleave |
| RecordPairing.NoLargerMatching | src/wc_calibration/importers.py:379-396 | no set of disjoint in-window pairs is larger than the merge's |
| RecordPairing.LargestMatching | src/wc_calibration/importers.py:343-397 | what is yielded is itself a matching under the window, of the greatest possible size |
| PairingAnswers.AnswersExactly | src/wc_calibration/importers.py:343-396 | in every run the next record is answered from the records before it: refused for the budget, the session or its key; late exactly when its side has given up its stream; a new stream on a side that has one drops and counts both queues; a timed record is then queued, paired with the first waiting one in the window, refused for its device or convention, or drops exactly what lies long before it |
| PairingAnswers.ChangeEmptiesQueues | src/wc_calibration/importers.py:361-364 | a record that changes its side's stream leaves at most itself waiting and yields no pair |
| PairingAnswers.NoPairAcrossAChange | src/wc_calibration/importers.py:361-396 | in every run no yielded pair has a change of stream, of either side, between the arrivals of its two frames, and what waits arrived after the last change |
| PlaneAssignment.FillCosts | src/wc_calibration/environment_registration.py:266-273 | the padded matrix: dummies 1e5, forbidden and banned entries 1e9, gated costs elsewhere |
| PlaneAssignment.ReadMatches | src/wc_calibration/environment_registration.py:274-277 | the chosen real columns form the matching, with its cost |
| PlaneAssignment.Assign | src/wc_calibration/environment_registration.py:258-277 | with any optimal solver the result is an allowed matching without the banned pair, of least cost counting 1e5 for every plane left over; within 423 pairs it has the most pairs and the least cost among those |
| PlaneAssignment.GatedCost | src/wc_calibration/environment_registration.py:271-273 | a pair inside the widest gate costs at most 2125/9 |
| PlaneAssignment.NeverForbidden | src/wc_calibration/environment_registration.py:264-275 | an optimal assignment never selects a forbidden or banned pair |
| PlaneAssignment.OptimalIsCheapest | src/wc_calibration/environment_registration.py:264-277 | for every input the optimum read back is a matching of least cost, penalties included |
| PlaneAssignment.CheapestIsBest | src/wc_calibration/environment_registration.py:264-268 | below the penalty's reach least cost with penalties is most pairs first, least geometric cost second |
| PlaneAssignment.OptimalIsBest | src/wc_calibration/environment_registration.py:264-277 | so the padding makes least total cost mean most pairs first, least geometric cost second |
| PlaneAssignment.SmallIsSeparable | src/wc_calibration/environment_registration.py:264-268 | this needs at most 423 pairs |
| PlaneAssignment.SeedBudget | src/wc_calibration/environment_registration.py:438-440 | more than 42 candidate pairs already exceed the seed budget |
| PlaneAssignment.BoundIsTight | src/wc_calibration/environment_registration.py:264-268 | with 424 pairs there are gated inputs on which the optimum drops a pair |
| PlaneAssignment.OptimalExists | src/wc_calibration/environment_registration.py:274 | every rectangular matrix has an optimal assignment |
| PlaneAssignment.SolverExists | src/wc_calibration/environment_registration.py:274 | so a solver as the methods assume it exists |
| PlaneAssignment.CheckAmbiguity | src/wc_calibration/environment_registration.py:541-551 | a reported ambiguity always has another matching of the same size within 0.25 per pair behind it; within 423 pairs the ban-one-edge loop reports every one |
| PlaneAssignment.BanExposes | src/wc_calibration/environment_registration.py:544-551 | banning an edge that a competitor does without exposes a competitor |
| PlaneAssignment.DiffersOnAnEdge | src/wc_calibration/environment_registration.py:544-551 | a different matching of the same size misses one of the edges banned in turn |
| DualFusionObject.DualFusion.Push | src/wc_fusion/core.py:265-296 | one call is one step of the specification: check, freshness, sorted bounded insertion, search, fusion |
| DualFusionObject.DualFusion.Check | src/wc_fusion/core.py:193-263 | epoch, sequence, time-jump and duplicate checks of a frame, in their order |
| DualFusionObject.DualFusion.Remember | src/wc_fusion/core.py:230-236 | high-water marks and the bounded window of keys |
| DualFusionObject.DualFusion.CheckFreshness | src/wc_fusion/core.py:164-179 | the three deadlines, latching on the first missed |
| DualFusionObject.DualFusion.FindPair | src/wc_fusion/core.py:298-317 | heads outside the window are dropped until a pair is found or a queue is empty |
| DualFusionObject.DualFusion.Resume | src/wc_fusion/core.py:181-191 | what a granted resume forgets |
| SourceFusion.QueuesAlwaysOk | src/wc_fusion/core.py:287-317 | after every call both queues are sorted and bounded and one is empty, so no matchable pair is left waiting; a latched object holds nothing |
| SourceFusion.MemoryAlwaysOk | src/wc_fusion/core.py:219-236 | in every run the memory is a function of what was accepted: its last 16 * max_queue keys and each stream's maximum |
| SourceFusion.SecondAcceptanceNeedsOthers | src/wc_fusion/core.py:228-236 | a second acceptance of a key needs at least 8 * max_queue + 2 frames of other streams in between |
| SourceFusion.NoFrameTwice | src/wc_fusion/core.py:219-236 | with fewer, no key is accepted twice in any run |
| SourceFusion.EnoughOthersBreakIt | src/wc_fusion/core.py:223-236 | for every policy a run of arriving frames, none refused, in which a frame is accepted again after exactly 8 * max_queue + 2 others |
| SourceFusion.ReferenceTimesIncrease | src/wc_fusion/core.py:283-317 | while the stamps of each side's accepted frames rise, emitted reference times strictly increase |
| SourceFusion.InOrderStampsRise | src/wc_fusion/core.py:223-232 | they rise while each side keeps one stream with rising sequence numbers, by the time-jump guard |
| SourceFusion.EpochChangeBreaksOrder | src/wc_fusion/core.py:215-218 | a stream change on both sides and a resume can emit an earlier reference time |
| SourceAnswers.FindsTheFirst | src/wc_fusion/core.py:298-317 | on sorted queues with no frame too old the search drops only frames that lie long before a frame of the other side and match none of them; it finds a pair exactly when the queues hold one in the window, and then the first of both sides |
| SourceAnswers.FusesWhatMatches | src/wc_fusion/core.py:287-317 | in every run a frame that enters in time, with none waiting too old, is fused exactly when a frame waiting on the other side is within the window, and with the first such |
| SourceAnswers.EntersExactly | src/wc_fusion/core.py:193-236 | in every run exactly which frames are accepted, told from those accepted before: nothing latched, a valid identity, neither early nor too old, the side's epoch, no time jump after the newest of its stream, not among the last keys and not too old; what any other changes |
| SourceAnswers.PushesExactly | src/wc_fusion/core.py:265-317 | what an accepted frame does in every run: latch for its content or a missed deadline, wait in its place, be fused, or drop exactly the frames long before it |
| SourceAnswers.DeadlinesExactly | src/wc_fusion/core.py:164-179 | the freshness check latches exactly when a side was silent, or no bundle came, for longer than the limit, and names it; otherwise it changes nothing |
| SourceAnswers.ResumesAnew | src/wc_fusion/core.py:181-191 | a granted resume leaves a new object but for epochs, duplicate memory and counters, so no deadline runs; a refused one changes nothing |
| FusedBundles.AlwaysConserved | src/wc_fusion/core.py:230-317 | in every run a frame waits or is used at most as often as it was accepted, and bundles are numbered and within the window |
| FusedBundles.ExactlyOnce | src/wc_fusion/core.py:298-317 | two bundles share a frame only if that frame was accepted twice |
| DurableArchiveObject.DurableArchive.SubmitJob | src/wc_fusion/archive.py:171-194 | admission, in the order of its checks |
| DurableArchiveObject.DurableArchive.PollResults | src/wc_fusion/archive.py:196-204 | all results in order, and their keys and paths off the books |
| DurableArchiveObject.DurableArchive.RequestClose | src/wc_fusion/archive.py:225-228 | admission ends and cancellation is requested |
| DurableArchiveObject.DurableArchive.TakeJob | src/wc_fusion/archive.py:234-248 | the worker takes a job, cancels it, or leaves |
| DurableArchiveObject.DurableArchive.FinishJob | src/wc_fusion/archive.py:256-261 | the first error latches, and the result is queued |
| DurableArchiveObject.DurableArchive.WorkerStep | src/wc_fusion/archive.py:233-262 | one atomic step of the worker thread |
| DurableArchiveObject.DurableArchive.CommitStep | src/wc_fusion/archive.py:71-124 | one atomic step of the file transaction, for every answer of the system |
| RawArchive.AlwaysConsistent | src/wc_fusion/archive.py:156-262 | the invariant of every interleaving of callers, worker and foreign files |
| RawArchive.CommitKeepsWorker | src/wc_fusion/archive.py:71-124 | before it is linked the temporary file holds the whole payload and is synced, and from then on the destination is that file; no step of the transaction can be left out |
| RawArchive.ArchiveContract | src/wc_fusion/archive.py:138-154 | results answer the accepted jobs one to one in submission order; successes come first and are durable, file and directory synced; waiting, active and unpolled jobs are the outstanding ones and stay within capacity |
| RawArchive.FilesAreImmutable | src/wc_fusion/archive.py:99-116 | no step changes or removes a file or forgets a durable name |
| RawArchive.NoFileEverChanges | src/wc_fusion/archive.py:99-116 | so no run does |
| RawArchive.WorkProgress | src/wc_fusion/archive.py:233-262 | after close every worker step leads nearer to its exit |
| RawArchive.CloseDrains | src/wc_fusion/archive.py:221-262 | after close the worker exits with an empty queue, whatever the disk answers |
| RawArchive.EveryJobAnswered | src/wc_fusion/archive.py:145-154 | then every accepted job has its result |
| RawArchive.AdmitsExactly | src/wc_fusion/archive.py:171-194 | in every interleaving a job is accepted exactly when its texts are not empty, close was not called, no result has an error, its key and path are of no open job, and fewer than the capacity are open |
| RawArchive.CommitFailsExactly | src/wc_fusion/archive.py:71-124 | a step of the transaction fails exactly when the worker was told to stop at a checkpoint, its call is not answered well, or the destination exists when it is linked |
| RawArchive.OldestIsArchived | src/wc_fusion/archive.py:233-262 | in every interleaving without a failure or close, an idle worker archives the oldest waiting job on a free path in ten well answered steps: durable, and with a result without error |
| RawArchive.StopsExactly | src/wc_fusion/archive.py:225-261 | admission ends exactly at close, and the worker is told to stop exactly then and at the first error |
| RawArchive.PollsExactly | src/wc_fusion/archive.py:196-204 | a poll hands out every result there is and takes them off the books |
| GraphDeliveryObject.GraphDelivery.CheckCapacity | src/wc_fusion/graph_delivery.py:41-45 | a full queue latches |
| GraphDeliveryObject.GraphDelivery.SubmitObservation | src/wc_fusion/graph_delivery.py:47-54 | only rising, well-formed observations are queued; anything else latches |
| GraphDeliveryObject.GraphDelivery.NextPayload | src/wc_fusion/graph_delivery.py:56-72 | the head is sent, resent after the pause, or times out |
| GraphDeliveryObject.GraphDelivery.AcknowledgeSnapshot | src/wc_fusion/graph_delivery.py:74-102 | one snapshot pops the head, does nothing, or latches |
| AckedDelivery.AlwaysConsistent | src/wc_fusion/graph_delivery.py:25-102 | the invariant of every run |
| AckedDelivery.DeliveryContract | src/wc_fusion/graph_delivery.py:47-102 | acknowledged observations are a prefix of the submitted ones in rising id order, only the head beyond them was ever sent, each at least once, and attempts - retries == acknowledged + (1 if the head was sent) |
| AckedDelivery.SendsBetween | src/wc_fusion/graph_delivery.py:56-72 | sends go through the submissions in order; repeats keep the retry pause and end before the timeout |
| AckedDelivery.AcknowledgesExactly | src/wc_fusion/graph_delivery.py:77-102 | the head is acknowledged exactly when it was sent and a trusted snapshot of the known epoch holds it once and unchanged |
| AckedDelivery.FailureIsFinal | src/wc_fusion/graph_delivery.py:37-43 | a latched failure is permanent |
| AckedDelivery.EpochIsFixed | src/wc_fusion/graph_delivery.py:83-86 | the graph epoch is fixed once known |
| AckedDelivery.GuardedSubmitSucceeds | src/wc_fusion/graph_delivery.py:47-54 | a caller that checks capacity and submits rising ids never trips the guards |
| AckedDelivery.SendsExactly | src/wc_fusion/graph_delivery.py:56-72 | the answer is the oldest unacknowledged submission's payload exactly when it was never sent, or was last sent a retry pause ago and first sent within the timeout; the timeout latches exactly when the first send is that long ago; otherwise nothing changes |
| AckedDelivery.RunSendsExactly | src/wc_fusion/graph_delivery.py:56-72 | the same in every run, told by the histories of submissions, acknowledgements and sends |
| AckedDelivery.SubmitsExactly | src/wc_fusion/graph_delivery.py:47-54 | in every run an observation is queued exactly when fewer than the capacity are unacknowledged, it is deliverable and newer than all before; any other latches |
| AckedDelivery.SnapshotLatchesExactly | src/wc_fusion/graph_delivery.py:74-102 | a snapshot latches exactly when it is of other data or another epoch, passes the head over, or holds it unsent, twice or changed |
| WheelTfBridgeObject.WheelTfBridge.ObserveWheel | src/wc_fusion/wheel_tf.py:96-136 | a wheel observation is taken or blocks the bridge |
| WheelTfBridgeObject.WheelTfBridge.CheckWheel | src/wc_fusion/wheel_tf.py:99-129 | the checks of an observation, in their order |
| WheelTfBridgeObject.WheelTfBridge.PrepareGuess | src/wc_fusion/wheel_tf.py:138-152 | freshness, order, room and prediction of a guess |
| WheelTfBridgeObject.WheelTfBridge.RegisterGuess | src/wc_fusion/wheel_tf.py:154-175 | the oldest unchanged guess goes in flight |
| WheelTfBridgeObject.WheelTfBridge.RelayNativeOdometry | src/wc_fusion/wheel_tf.py:181-199 | the pose for the guess in flight is relayed |
| WheelGuess.AlwaysConsistent | src/wc_fusion/wheel_tf.py:82-199 | the invariant of every run |
| WheelGuess.RelayedPrefix | src/wc_fusion/wheel_tf.py:138-199 | relayed stamps are a prefix of registered ones, these of prepared ones, all rising; at most one is pending and prepared plus pending stay within max_queue |
| WheelGuess.RegisterExactly | src/wc_fusion/wheel_tf.py:161-171 | in reachable states registration comes down to an empty flight and the oldest guess unchanged: the order and epoch guards never fire |
| WheelGuess.RelayExactly | src/wc_fusion/wheel_tf.py:188-198 | in reachable states a pose is relayed exactly when its stamp is pending: the order and epoch guards never fire |
| WheelGuess.PreparesExactly | src/wc_fusion/wheel_tf.py:138-152 | in every run a guess is prepared exactly when the bridge runs, the two newest observations allow a prediction at its stamp and are young on both clocks, the bundle is young and later than every one before, and fewer than max_queue are not yet relayed; anything else changes nothing |
| WheelGuess.ObservesExactly | src/wc_fusion/wheel_tf.py:96-136 | in every run an observation is taken exactly when it is complete, in time, and next after the newest one in epoch, sequence, clock and stamp |
| WheelGuess.BlockedIsFinal | src/wc_fusion/wheel_tf.py:82-84 | a blocked bridge changes no more |
| WheelGuess.FaultBlocksByText | src/wc_fusion/wheel_tf.py:82-136 | an observation stops a running bridge for good exactly when its error has a text; with an empty one only the observation is lost |
| GateObject.Gate.SubmitBundle | src/wc_fusion/core.py:392-405 | what the gate takes, and what pauses it |
| GateObject.Gate.AssessResult | src/wc_fusion/core.py:407-450 | the verdict on a result, in the order of its checks |
| GateObject.Gate.ExpireAt | src/wc_fusion/core.py:452-459 | the two deadlines of the gate |
| GateObject.Gate.PauseGate | src/wc_fusion/core.py:388-390 | pausing forgets what was pending, and closes the gate when its text is not empty |
| GateObject.Gate.ResumeGate | src/wc_fusion/core.py:461-468 | the conditions of a resume, also before a first pose, and what it resets |
| TrackingGate.AlwaysConsistent | src/wc_fusion/core.py:388-468 | in every run, across pauses and resumes, accepted poses share one epoch and rise in time, each answered in time; a paused gate holds nothing |
| TrackingGate.AcceptsExactly | src/wc_fusion/core.py:407-450 | the exact condition under which a result is accepted, told by the poses accepted before; any other result closes the gate |
| TrackingGate.TakesExactly | src/wc_fusion/core.py:392-405 | a bundle is taken exactly when the gate is open, the bundle is dual and of the session, its number is new and there is room; otherwise an open gate gives up |
| TrackingGate.ExpiresExactly | src/wc_fusion/core.py:452-459 | a tick gives up exactly when a bundle, or the stream of accepted poses, is overdue |
| TrackingGate.ResumesExactly | src/wc_fusion/core.py:461-468 | a resume reopens exactly when granted for the epoch of the accepted poses, or for none before the first, and remembers only these |
| FusionNodeObject.FusionNode.FailNode | src/wc_fusion/ros_node.py:185-205 | fail() drops everything on its way, and closes fusion and gate when its text is not empty |
| FusionNodeObject.FusionNode.SourceArrived | src/wc_fusion/ros_node.py:215-318 | a source frame, up to the archive submission of the bundle it completes |
| FusionNodeObject.FusionNode.WatchSource | src/wc_fusion/ros_node.py:230-246 | the last observation of a side and its run of stable ones, kept up even while the node is closed |
| FusionNodeObject.FusionNode.FrameTaken | src/wc_fusion/ros_node.py:247-316 | a closed node takes nothing; an open one fuses and archives |
| FusionNodeObject.FusionNode.ArchiveFused | src/wc_fusion/ros_node.py:269-314 | the guards of the pipeline and the submission |
| FusionNodeObject.FusionNode.PublishArchivedBundles | src/wc_fusion/ros_node.py:348-381 | polling, the age limit and at most one release |
| FusionNodeObject.FusionNode.HandleResult | src/wc_fusion/ros_node.py:352-360 | one archive result |
| FusionNodeObject.FusionNode.ReleaseHead | src/wc_fusion/ros_node.py:370-381 | the oldest ready bundle goes to gate and matcher |
| FusionNodeObject.FusionNode.OdomArrived | src/wc_fusion/ros_node.py:415-431 | a native pose |
| FusionNodeObject.FusionNode.InfoArrived | src/wc_fusion/ros_node.py:433-437 | its diagnostics |
| FusionNodeObject.FusionNode.CompleteResult | src/wc_fusion/ros_node.py:439-500 | both halves of a result, judged and handed over |
| FusionNodeObject.FusionNode.HandOverAccepted | src/wc_fusion/ros_node.py:491-498 | the accepted bundle goes to the graph and leaves flight |
| FusionNodeObject.FusionNode.DeliverPending | src/wc_fusion/ros_node.py:339-346 | the head of the graph queue is published |
| FusionNodeObject.FusionNode.GraphAckArrived | src/wc_fusion/ros_node.py:332-337 | a graph snapshot |
| FusionNodeObject.FusionNode.CheckDeadlines | src/wc_fusion/ros_node.py:514-520 | fail() for a deadline missed alone |
| FusionNodeObject.FusionNode.WatchdogTick | src/wc_fusion/ros_node.py:504-524 | one timer tick |
| FusionNodeObject.FusionNode.PauseService | src/wc_fusion/ros_node.py:574-578 | an explicit pause |
| FusionNodeObject.FusionNode.Preflight | src/wc_fusion/ros_node.py:584-612 | five stable observations of one epoch a side, the last one fresh, validated sources, session and configuration |
| FusionNodeObject.FusionNode.ResumeService | src/wc_fusion/ros_node.py:580-623 | a resume, and that a refused one changes nothing |
| FrontEndSafety.AlwaysConsistent | src/wc_fusion/ros_node.py:110-623 | the invariant of every run of the node over its four components |
| FrontEndSafety.PipelineContract | src/wc_fusion/ros_node.py:279-381 | a bundle is published only after its error-free archive result, so its raw data are durable, once, in rising bundle order and within the age limit; at most one is in flight, and archived, ready and in-flight bundles stay within max_queue |
| FrontEndSafety.NothingOldAfterFail | src/wc_fusion/ros_node.py:185-205 | once a step calls fail(), no bundle fused before it is ever published after it, resumes included |
| FrontEndSafety.StampsStayApart | src/wc_fusion/ros_node.py:279-284 | bundles on their way never share a reference stamp, so the exact-stamp join is unambiguous |
| FrontEndSafety.AcceptanceIsJustified | src/wc_fusion/ros_node.py:439-469 | a pose counts as accepted only for the bundle in flight and a complete, tracked result |
| FrontEndSafety.GateTakesReleased | src/wc_fusion/ros_node.py:368-372 | the duplicate and backlog guard of the gate never fires on a release |
| FrontEndSafety.GraphTakesAccepted | src/wc_fusion/ros_node.py:467-497 | the order guard of the graph delivery never fires on an accepted bundle |
| FrontEndSafety.ArchiveNamesAreNew | src/wc_fusion/ros_node.py:312-313 | a new bundle's archive key and path are on no book, so the duplicate guard never fires |
| FrontEndAnswers.CompletesExactly | src/wc_fusion/ros_node.py:439-500 | in every run, with both halves of its result there, the bundle in flight is accepted exactly when the result is complete, tracked, in time and continues the accepted poses and the graph has room; then it leaves flight and its observation (id, raw keys, epoch, envelope) is the graph's newest submission, unless something on the way raises and fail() is called; everything else calls fail() once |
| FrontEndAnswers.AcceptedAreDelivered | src/wc_fusion/ros_node.py:467-498 | from any state of any run, over any events: only accepted poses are given to the graph, and while no fail() is called exactly the accepted poses are, in their order |
| FrontEndAnswers.AcksExactly | src/wc_fusion/ros_node.py:332-337 | a snapshot acknowledges the head exactly when it was sent and the trusted snapshot holds it, and calls fail() exactly when the delivery latches |
| FrontEndAnswers.HalvesMeet | src/wc_fusion/ros_node.py:415-441 | half a result of no bundle in flight is ignored, else kept until the other half is there; an unauthorised publisher calls fail() |
| FrontEndAnswers.SourceFailsExactly | src/wc_fusion/ros_node.py:215-316 | a source message calls fail() exactly when its side or clock model is wrong, or the node runs and the message cannot be decoded, the fusion raises, or the bundle it completes is not taken |
| FrontEndFlow.LineIsKept | src/wc_fusion/ros_node.py:215-381 | over any events without fail(), resume or a latch by deadlines: exactly the bundles fused meanwhile enter the line of published, ready and archived ones behind those in it; none leaves it, none overtakes |
| FrontEndFlow.FusedArePublishedInOrder | src/wc_fusion/ros_node.py:215-381 | in every such run from the start the bundles published, ready and with the archive are in this order exactly the bundles fused |
| FrontEndFlow.TickFlows | src/wc_fusion/ros_node.py:348-381 | a tick without a fault takes all archive results, releases at most one bundle, exactly the oldest ready one when none is in flight, leaves none ready that is too old, and sends the graph's head exactly when it is due |
| FrontEndFlow.EntersExactly | src/wc_fusion/ros_node.py:272-316 | a fused bundle is submitted to the archive exactly when the wheel bridge did not refuse it, its stamp fits ROS time and is no other's, and pipeline and archive have room; anything else calls fail() |
| FrontEndResume.WatchAlwaysOk | src/wc_fusion/ros_node.py:230-246 | in every run the watch knows of each side its last message; its stable ones are the last messages, at most five, good and in order, and a good run of k messages leaves at least k - 1 of them |
| FrontEndResume.ReopensExactly | src/wc_fusion/ros_node.py:580-623 | in every run a resume reopens exactly when the request is right and names the epoch of the accepted poses, the graph delivery has not failed, there is no wheel prior, and both sides' last five messages are good, in order, of one epoch, recent and validated; a refused one changes nothing |
| FrontEndResume.PauseCloses | src/wc_fusion/ros_node.py:574-578 | a pause closes the node and drops everything on its way; a closed node only watches its sources |
| FrontEndLatch.FailsForOneDeadline | src/wc_fusion/ros_node.py:514-520 | a tick calls fail() for its deadlines exactly when one of the two is missed alone; when both are, everything on its way stays |
| FrontEndLatch.TickLeavesReady | src/wc_fusion/ros_node.py:504-524 | a tick that misses both publishes nothing and leaves a bundle ready exactly when one is in flight, others are ready and in time, no archive job failed and the delivery to the graph does not fail |
| FrontEndLatch.NothingOldAfterLatch | src/wc_fusion/ros_node.py:352-381 | a latched node with nothing ready never publishes what was fused so far, whatever follows |
| FrontEndLatch.NothingOldAfterTick | src/wc_fusion/ros_node.py:504-524 | so after such a tick that leaves none ready nothing old is published |
| FrontEndLatch.FailClosesByText | src/wc_fusion/ros_node.py:185-205 | a fault without a text closes nothing and reopens what was closed |
| FrontEndLatch.ReadyBundleOutlivesLatch | src/wc_fusion/ros_node.py:504-623 | from every state whose tick leaves a bundle ready: after any frames watched, an admitted resume and a tick in time that bundle is published, with no fail() before the resume |
| FrontEndTiming.ReadyBoundsResult | src/wc_fusion/ros_node.py:348-381 | bundles enter within an age limit of one another, so with one in flight and a ready one in time no result is overdue by three age limits |
| FrontEndTiming.LatchedHoldsNothing | src/wc_fusion/ros_node.py:504-524 | with icp_timeout_ns >= 3 * max_age_ns, clocks that do not run backwards, faults with a text and resumes that find the node latched or nothing ready, no reachable state lets a bundle outlive a latch |
| FrontEndTiming.NothingOldOnceLatched | src/wc_fusion/ros_node.py:185-205 | there nothing fused before a latch of whatever kind is published after it |
| LatchedRun.LatchedBundleIsPublished | src/wc_fusion/ros_node.py:514-623 | for every node without graph delivery and wheel prior whose result timeout is below three age limits, a complete run from the start in which a bundle outlives the latch: fused before one tick misses both deadlines, published after two more frames a side and a granted resume, with no call of fail() until then |
| LatchedRun.BoundIsExact | src/wc_fusion/ros_node.py:504-524 | for these nodes no orderly run leaves a bundle ready while latched exactly when icp_timeout_ns >= 3 * max_age_ns |
| Decimals.DigitsDiffer | src/wc_fusion/ros_node.py:312-313 | bundle numbers have distinct decimal names |
| Rollback.Run.Apply | scripts/restore_deployment.py:167-247 | every state that a stop or a power failure can leave is crash safe; an edit since the deployment refuses before anything moves; a failure journals the interrupted status unless that write fails itself; without faults the rollback succeeds, and after a success every file is restored and nothing of it can be undone |
| Rollback.Run.VerifyAll | scripts/restore_deployment.py:84-88 | a file that differs from the deployment is found, and nothing changes |
| Rollback.Run.StageAll | scripts/restore_deployment.py:201-211 | every baseline is complete and durable in the staging area before a deployed file moves |
| Rollback.Run.Sync | scripts/restore_deployment.py:91-97 | after it the renamed or created name survives a power failure |
| Rollback.Run.Move | scripts/restore_deployment.py:221-234 | with and without the rename the files fit the journal |
| Rollback.Run.RestoreAll | scripts/restore_deployment.py:212-239 | the files are restored in order, then the journal says so |
| Rollback.Run.Retain | scripts/restore_deployment.py:216-223 | verify, journal, and move one deployed file to the quarantine |
| Rollback.Run.PutBaseline | scripts/restore_deployment.py:224-234 | the baseline is in place unless its rename failed before taking effect; then the deployed file is back unless that rename failed too |
| Rollback.Run.RestoreOne | scripts/restore_deployment.py:215-237 | one turn of the restoring loop |
| Rollback.Run.WriteJournal | scripts/restore_deployment.py:100-108 | the journal on disk is the old or the new one, and after the sync surely the new one |
| Rollback.NothingLost | scripts/restore_deployment.py:195-247 | in every such state: every deployed file survives and can be found, every baseline due survives, journalled files are restored, files not named are untouched |
| PlaneOwnership.ExclusiveRefit | src/wc_calibration/environment_planes.py:482-574 | the bounded rounds always stabilise; every proposal keeps an unrejected plane, or is archived and was withdrawn after a round with all surviving proposals in which each of its planes was rejected; each extra round withdrew a proposal |
| PlaneOwnership.StableMeaning | src/wc_calibration/environment_planes.py:499-559 | in the final round every pixel is in at most one plane and belongs to the nearest surviving proposal within its original support; every survivor keeps a plane |
| PlaneOwnership.FindOwner | src/wc_calibration/environment_planes.py:503-512 | the first column of least residual, or none beyond the gate |
| PlaneOwnership.FitRound | src/wc_calibration/environment_planes.py:513-553 | the planes of one round: owned masks, their kept components, their fits |
| PlaneOwnership.CurrentOk | src/wc_calibration/environment_planes.py:503-553 | the planes of a round are disjoint, on pixels of their own proposal, and no proposal is without one |
| PlaneOwnership.FinalizeQuality | src/wc_calibration/environment_planes.py:376-435 | planes that the donors leave unexplained are rejected |
| PlaneOwnership.FindDonors | src/wc_calibration/environment_planes.py:421-425 | the bounded donor loop reaches its fixed point |
| PlaneOwnership.DonorsAreStable | src/wc_calibration/environment_planes.py:421-425 | for any measure no donor of the result is rejected against the result |
| PlaneOwnership.DonorsAreGreatest | src/wc_calibration/environment_planes.py:421-425 | when more donors never cause a rejection the result is the largest such set |
| PlaneOwnership.Withdraw | src/wc_calibration/environment_planes.py:555-563 | withdrawing the failed proposals leaves fewer and keeps the record complete and fair |
| PlaneVerdicts.RoundMeaning | src/wc_calibration/environment_planes.py:503-553 | in a round every active proposal has one plane on each part of the pixels it owns and no other, and there are donors that with the plane's own fit decide its verdict: of good quality exactly when the part is large, its fit passes and the donors explain it; rejected exactly when it is not, or does not repeat over time |
| PlaneVerdicts.SelectedExactly | src/wc_calibration/environment_planes.py:521-531 | the parts are the components of enough pixels among the first few; when there is none, the first component, or no pixel |
| PlaneVerdicts.DonorsExactly | src/wc_calibration/environment_planes.py:384-425 | the donors are planes good in space and time that are not rejected against one another; when more donors never cause a rejection, all such sets are among them |
| ProposalSuppression.Deduplicate | src/wc_calibration/environment_planes.py:438-479 | exactly the proposals that no kept, earlier considered one duplicates are kept; each dropped one is recorded with who dropped it |
| ProposalSuppression.KernelUnique | src/wc_calibration/environment_planes.py:446-477 | that rule has one solution |
| ProposalSuppression.SortedConsidered | src/wc_calibration/environment_planes.py:446 | sorting by size and index is the order of consideration |
| DeviceClock.AdvanceExactly | src/wc_imu/device_time.py:78-98 | for two true counter values less than a period apart the reading is accepted exactly when the gap is within the bound and a wrap is allowed and agrees with the host clock; then it is the true gap |
| DeviceClock.AcceptedIsTrueModulo | src/wc_imu/device_time.py:78-98 | an accepted gap is right modulo 2^32, and right exactly when the true gap is below one period |
| DeviceClock.RefinesUnbounded | src/wc_imu/device_time.py:114-149 | while the true counters rise by less than a period a run raises no error exactly when every frame keeps the pace, and then has the elapsed ticks and wraps of the unbounded counters, however often the optional one was missing |
| DeviceClock.SkippedFrameRefusesWrap | src/wc_imu/device_time.py:131-136 | after a frame without the optional counter a true wrap with perfect clocks is accepted exactly when that frame came within the tolerance of the counter's last value |
| DeviceClock.SkippedFrameIsRefused | src/wc_imu/device_time.py:114-149 | three frames with perfect clocks that are refused for it |
| DeviceClock.ElapsedTelescopes | src/wc_imu/device_time.py:140-149 | on every run last - first + 2^32 * wraps == elapsed for the sample counter; no wraps without the guarded policy |
| DeviceClock.RefusalIsFinal | src/wc_imu/device_time.py:115-139 | a refused frame changes only the error, for good |
| DeviceTimeValidatorObject.DeviceTimeValidator.ObserveFrame | src/wc_imu/device_time.py:114-156 | both counters are read before anything changes |
| DeviceTimeValidatorObject.DeviceTimeValidator.ReadField | src/wc_imu/device_time.py:124-136 | one counter against its previous value |
| LiveMapObject.LatestRebuildWorker.SubmitGraph | src/wc_maps/live_map.py:37-42 | a newer request replaces the pending one |
| LiveMapObject.LatestRebuildWorker.TakePending | src/wc_maps/live_map.py:46-51 | the thread takes the pending request |
| LiveMapObject.LatestRebuildWorker.FinishRunning | src/wc_maps/live_map.py:52-59 | the outcome of the rebuild is stored unless an unpolled error waits |
| LiveMapObject.LatestRebuildWorker.RebuildMessage | src/wc_maps/graph_snapshot.py:116-121 | the stored graph is compared with the request name by name; the first difference is raised |
| LiveMapObject.LatestRebuildWorker.PollResult | src/wc_maps/live_map.py:61-64 | the result is handed out once |
| LiveMapObject.LatestRebuildWorker.CloseWorker | src/wc_maps/live_map.py:66-70 | close drops what is pending or finished |
| LiveMapObject.LiveMapNode.GraphArrived | src/wc_maps/live_map.py:129-148 | which snapshots are requested, ignored or fail |
| LiveMapObject.LiveMapNode.TimerTick | src/wc_maps/live_map.py:201-221 | a finished rebuild is published or fails |
| MapRebuild.AlwaysConsistent | src/wc_maps/live_map.py:37-64 | the invariant of every run |
| MapRebuild.MapContract | src/wc_maps/live_map.py:129-219 | published revisions strictly rise, were requested and share session and epoch; without an error the newest request is pending, running, finished or published, and an idle polled worker means it is published |
| MapRebuild.FinishedIsNew | src/wc_maps/live_map.py:211-217 | whatever graphs are found on disk, a finished map was requested and is newer than the published one: those guards never fire |
| MapRebuild.RequestsExactly | src/wc_maps/live_map.py:129-148 | in every run of a coordinator that is not blocked a snapshot is requested exactly when it is of the session, complete and newer than all requested before in their epoch; the newest once more changes nothing; any other is a failure |
| MapRebuild.TicksExactly | src/wc_maps/live_map.py:201-221 | in every run a tick publishes exactly the finished map unless blocked or something raises, takes the result in any case, and fails on an error or a raise |
| MapRebuild.RebuildsExactly | src/wc_maps/graph_snapshot.py:116-121 | a rebuild succeeds exactly when the stored graph is the one requested and nothing raises |
| MapRebuild.FinishesExactly | src/wc_maps/live_map.py:52-59 | when a rebuild ends an unpolled error stays; else its outcome waits, a success exactly when the stored graph is the one requested and nothing raised |
| MapRebuild.TakesExactly | src/wc_maps/live_map.py:46-70 | one rebuild runs at a time, that of the pending request; after close none begins or leaves a result |
| MapRebuild.NewestIsPublished | src/wc_maps/live_map.py:37-64 | from every reachable state without an error the newest request is published once the running rebuild and its own have ended well and were each followed by a tick |
| MapRebuild.BlockedIsFinal | src/wc_maps/live_map.py:119-131 | after an error with a text nothing is published any more |
| MapRebuild.FailureBlocksByText | src/wc_maps/live_map.py:119-131 | a first failure blocks exactly when its text is not empty |
| MapRebuild.EmptyTextNeverBlocks | src/wc_maps/live_map.py:119-131 | an input on which a failure with an empty text is followed by a publication |

## Left out

- RayTraversal.RayCells: the tie tolerance of 1e-12 and rounding are not modelled, ties are exact; the NaN check is left out because exact division cannot reach it.
- OccupancyMap.BuildMap: identity and session checks of nodes and frames, the rigid transforms, and the 1e12 coordinate check are not modelled; points come in map coordinates.
- The commit guard `RevisionGuard` of the map builder: a token comparison that would only add an easy member.
- RecordPairing.PairRecords: the raw key is one string and the three parts of a stream are one token, compared as the code compares the tuples.
- PlaneAssignment.Assign: SciPy's solver is any function that returns an optimal assignment; plane metrics are given numbers inside the gates; the hypothesis search, the estimation and the holdout report around the two ambiguity loops are not modelled.
- DualFusionObject.DualFusion.Check: identity, clock, uncertainty and point-cloud checks are verdicts carried by the frame, those before the time checks and those after the memory update apart; the key string is the triple it is made of.
- DualFusionObject.DualFusion.Fuse: the numerical fusion either raises or returns the bundle; transforms, error budget and points are not modelled.
- DurableArchiveObject.DurableArchive.SubmitJob: a path is a token, empty when it is not absolute and canonical; the join timeout of `close` is not modelled, and stage timings are dropped.
- RawArchive.ArchiveContract: a crash of the machine is not an event; durable means that file and directory were synced.  A temporary file left behind by a failed removal is not tracked: its name is never used again.
- Rollback.Run.Apply: a rename survives a power failure whole or not at all, and for certain once the directory of its new name is synced; a directory, once created, is taken to survive, although the code does not sync its parent.  Locking, manifest and archive parsing, and file modes are not modelled.  Files change only by the rollback itself, and exceptions are raised only by system calls, not between two assignments to the journal in memory.
- GateObject.Gate.AssessResult: the pose is a verdict on its validity and on the motion since the last one.
- FusionNodeObject.FusionNode.SourceArrived: message decoding, clock models and wheel guesses may raise but are not modelled there; the wheel bridge is modelled on its own and not composed with the node.
- FusionNodeObject.FusionNode.WatchSource: the identity of a message is a verdict; in replay its host time is its arrival.
- LatchedRun.BoundIsExact: below the bound the runs are given for nodes without graph delivery and wheel prior; from the bound on every node is covered.
- WheelTfBridgeObject.WheelTfBridge.PrepareGuess: the numbers of the prediction are an input; its guards on stamps and history are modelled.
- PlaneOwnership.ExclusiveRefit: supports, distances, connected components, plane fits and the donor measure are functions; assumed are only that components are disjoint parts of the mask, largest first, and that a fit's interior lies in its component.
- PlaneOwnership.DonorsAreGreatest: the actual measure is not shown to be monotone; the quantile of the remaining residuals can rise when an outlier is explained.
- DeviceTimeValidatorObject.DeviceTimeValidator.ObserveFrame: the formatted result and the profile file with its evidence hashes are not modelled.
- LiveMapObject.LiveMapNode.TimerTick: the messages are built and published as one action that succeeds or raises; status, diagnostics and the pause services are not modelled.
- LiveMapObject.LatestRebuildWorker.RebuildMessage: calibration, clock models, index hash, nodes, poses and edges of message and stored graph are compared in one verdict, together with reading the raw files and building the map.
- Estimation and linear algebra (registration, ICP, quaternions), ROS transport, sensors, storage policy, panels, capture scripts and reports.
