# Katbox delayed deletion, modelled and proved

Katbox is a CSI node plugin for inline ephemeral volumes. A volume is published: its directory is made, a record is
entered in memory, the directory is bind-mounted, the record is persisted. When it is unpublished, an entry goes into a
write-ahead deletion queue, the mount is taken down, and the record is dropped. A pruner deletes the directory later,
once the entry's lifespan, scaled by disk pressure, has passed.

State lives in four places that are updated one at a time: the bolt bucket `volumes`, the bolt bucket `deletedVolumes`,
the two maps in memory, and the directory tree below the working directory. Request handlers run concurrently with one
pruner, and the process may crash between any two updates and rebuild its memory from bolt. This project models that
protocol and proves what it keeps. Nothing here is executed: everything is established by the verifier.

## How it is built

| file | content |
|---|---|
| `Paths.dfy` | `filepath.Join`/`Dir` on path components; `MkdirAll`, `RemoveAll`, `Remove` on a set of paths |
| `Pressure.dfy` | the pressure factor and the scaled lifespan, under an arbitrary monotone rounding |
| `Model.dfy` | the records, and the `World`: the tree, the two buckets, the two maps |
| `Node.dfy` | the code as written: classes whose methods update their fields |
| `Sequential.dfy` | what each method does when nothing interleaves; the methods of `Node.dfy` are proved equal to it |
| `Steps.dfy` | the node as a state machine of atomic steps; runs; hypotheses on the environment |
| `QueueAgreement.dfy`, `Provenance.dfy`, `Lifecycle.dfy`, `VolumeIndex.dfy`, `Eviction.dfy`, `Liveness.dfy`, `Retention.dfy` | theorems about every run |
| `Rounds.dfy`, `Recovery.dfy`, `Requests.dfy` | theorems about the sequential functions |
| `Simulation.dfy` | every sequential operation is a run of the state machine, so the run theorems apply to it |
| `Hypotheses.dfy` | what goes wrong without some of the hypotheses, and how one crash leaks a directory |

A step is one lock region, one bolt transaction, one file system call or one clock reading. Every transaction, erasure,
mount and unmount may fail; a failed `RemoveAll` leaves any part of the subtree with its root. Pods write into their
volume directories at any time. A restart, possible at any point, is a crash followed by `NewNode`, and may change the
configured lifespan. File system, bolt, mounter and clock appear as parameters of the steps and of the methods.

The environment is constrained as follows; each theorem names what it uses. `NoRepublish` and the
three predicates after it are about one id: a theorem about a volume asks nothing of what happens to other volumes.

- At most one request per volume id is in flight: the `rpcs` map holds one handler per id. This is what the
  "Concurrency" passage of the CSI specification asks of the orchestrator.
- A volume id always comes with the same pod UUID: `podOf` in `Config`.
- `GoodNames`: ids and pod UUIDs are clean single path components, ids are disjoint from pod UUIDs, and neither is the
  name of the bolt file.
- `NoRepublish`: an id is not published once its unpublish has been requested. Publish does not take an id out of the
  queue, so the code relies on this (`Hypotheses.RepublishedIsEvicted`).
- `NoQueueDuringVisit`: no queue entry is started for an id that the current visit of the pruner has already removed and
  may remove again. `Hypotheses.CheckTearsIff` shows that this excludes exactly the steps that can tear the queue.
- `QueuePutsSucceed`, `VolumeDeletesSucceed`: the bolt transactions at `pkg/katbox/gc.go:78` and
  `pkg/katbox/nodeserver.go:278` do not fail. Their failures are modelled; the theorems that exclude them say so.
- The clock does not go back, and lifespans are not negative.

Lifespans and disk sizes are bounded by 2^53 only where float64 exactness matters.

## What came out differently than one might expect

- **One crash can leak a pod directory.** If the process dies between RemoveAll and the removal of the parent, and the
  next round is under less pressure, that round drops the entry because the path is missing and does not find the
  candidate expired, so nothing removes the empty pod directory (`Hypotheses.OneCrashLeaksPodDir`;
  `Hypotheses.OneCrashLeakHappens` is a whole run in which it does, on any node). `Simulation.RecoveryInRun` and
  `Simulation.PartialRecoveryInRun` say for every run, every crash point and every next round exactly when recovery
  converges. A visit that finds the directory missing is exposed even under unchanged pressure, as it drops the entry
  first.
- **A lost queue put is never repaired.** Unpublish goes on after a failed put, forgets the volume, and a retry then
  queues `workdir/<id>`, without the pod. `Requests.UnpublishKeepsTrack` and `Requests.QueuedPathIsRight` give the exact
  conditions; by `Retention.LostPutIsNeverRepaired` the directory then, and only then, stays unrecorded in every
  continuation that does not publish the volume again.
- **A successful publish may be forgotten.** If its put fails, or the mount is found in place so that there is no put,
  the next restart loses the volume and its directory stays for good (`Retention.UnpersistedIsLostByRestart`). A retry
  repairs this only if it mounts anew: publish is not idempotent, and `Requests.PublishTwice` says exactly when it is.
- **A live volume can lose its contents without an unpublish.** A repeated publish whose bind mount fails erases the
  directory, or any part of what is in it if the erasure fails part-way. `Retention.LiveLosesIff` says that this and
  the volume's own pod are the only ways; the phase `Live` therefore speaks of records, `Retention.LiveHasDirectory`
  adds the directory and `Retention.LiveKeepsContents` its contents where no mount has to be undone.
- **Order independence rests on the bolt file.** Two candidate paths that are not nested are not enough
  (`Hypotheses.OrderMattersWithoutPin`); the working directory must be kept alive by something, and the bolt file does.
- **The two removals of one visit can tear the queue**, if a queue entry for the id starts between them
  (`Hypotheses.QueueDuringVisitTearsQueue`, and `Hypotheses.TornQueueHappens` for a whole run), and nothing else can
  (`Hypotheses.CheckTearsIff`).
- **The documentation orders unpublish differently.** `docs/create-delete-flow.md` unmounts first and queues second, and
  places volumes at `$WORKDIR/<Volume ID>`. The code queues first and has a pod level; the model follows the code, so it
  does not claim that a mounted directory is never deleted.

## Model

| member | source | states |
|---|---|---|
| Paths.FullpathOfComponents | pkg/katbox/util.go:29-31 | on clean components the joined path is workdir/pod/id, and an empty pod UUID drops out of it |
| Paths.FullpathByPieces | pkg/katbox/util.go:29-31 | for all strings, piece by piece: an empty or "." piece adds nothing, ".." goes up, any other goes down, and the pod UUID is joined like any part |
| Pressure.HeadroomWithinDisk | pkg/katbox/util.go:49 | under any monotone rounding the headroom space lies between 0 and the disk size |
| Pressure.HeadroomExactly | pkg/katbox/util.go:49 | the headroom space is the product rounded up to whole bytes |
| Pressure.HeadroomNearly | pkg/katbox/util.go:49 | under rounding it is less than a byte away from the product, and equal to it where that is whole |
| Pressure.DivisorNonZero | pkg/katbox/util.go:53-59 | whenever the quotient is computed, its divisor is at least 1 and the unsigned subtraction stays within the disk size |
| Pressure.FactorInUnit | pkg/katbox/util.go:44-60 | the factor is rejected exactly for a headroom outside [0, 1]; otherwise, and with the default, it lies in [0, 1] for every disk and rounding |
| Pressure.FactorMonotoneInFree | pkg/katbox/util.go:53-59 | more free space never gives a smaller factor |
| Pressure.FactorAntitoneInHeadroom | pkg/katbox/util.go:49-59 | more headroom never gives a larger factor, even under rounding |
| Pressure.FactorExactly | pkg/katbox/util.go:49-59 | without rounding the factor is the free share of the headroom, rounded up to whole bytes, and 1 exactly when the headroom is free |
| Pressure.DefaultFactor | pkg/katbox/gc.go:139-143 | a rejected headroom makes the factor 0.1 |
| Pressure.ScaledWithinLifespan | pkg/katbox/gc.go:175 | the scaled duration is between 0 and the lifespan, so a deadline is neither before the unpublish nor past the full lifespan |
| Pressure.ScaledExactly | pkg/katbox/gc.go:175 | without rounding the scaled duration is lifespan times factor, cut off towards zero |
| Pressure.ScaledNearly | pkg/katbox/gc.go:175 | under rounding it is less than a nanosecond away from the product, and equal to it where that is whole |
| Pressure.EveryRoundingKeepsLifespans | pkg/katbox/gc.go:139-175 | whatever factor a round computes or defaults to, under any monotone rounding, no deadline precedes the unpublish or exceeds the full lifespan; this is all the liveness theorems need of the rounding |
| Pressure.ScaledMonotone | pkg/katbox/gc.go:175 | a smaller factor never gives a longer scaled duration |
| Node.CopyEntries | pkg/katbox/node.go:118-129 | the cursor loop returns the whole bucket, unchanged |
| Node.DeletedVolumes.Queue | pkg/katbox/gc.go:67-106 | a queued id keeps its entry; otherwise bucket and map get the same entry, or neither if the put fails |
| Node.DeletedVolumes.Remove | pkg/katbox/gc.go:108-128 | bucket and map lose the id, or neither does if the transaction fails |
| Node.DeletedVolumes.VisitEntry | pkg/katbox/gc.go:157-190 | the treatment of one candidate, with the fall-through of the missing path and every failure |
| Node.DeletedVolumes.Prune | pkg/katbox/gc.go:130-191 | a round visits each snapshot entry exactly once, with one clock reading and one factor, and does the visits of Sequential.Sweep in the order it took |
| Node.NewNode | pkg/katbox/node.go:43-77 | there is a node exactly if the database opens and both buckets can be read; its memory is then exactly what the buckets hold, whatever it was before the crash |
| Node.KatboxNode.CreateEphemeralVolume | pkg/katbox/node.go:180-223 | when a mount or block volume is created; the record appears in memory exactly then, and its directory or file exists; a failed call leaves at most ancestors of the directory, or the file itself |
| Node.NodeServer.NodePublishVolume | pkg/katbox/nodeserver.go:48-223 | response and new world for every request and every outcome of mkdir, mount, undo and persist |
| Node.NodeServer.NodeUnpublishVolume | pkg/katbox/nodeserver.go:225-300 | response and new world for every outcome of put, unmount and delete; the queue comes before the unmount |
| QueueAgreement.StaleSnapshotIsLive | pkg/katbox/gc.go:147-157 | however many handlers interleave, every snapshot entry not yet visited is the live map's entry |
| QueueAgreement.MapAndBucketAgree | pkg/katbox/gc.go:67-128 | at every step of every run map and bucket agree on an id, except that mid-queue only the bucket and mid-remove only the map is ahead; a restart restores equality |
| QueueAgreement.DeadlineStable | pkg/katbox/gc.go:67-106 | while an id is in the bucket, no retry, crash or reload changes its time, lifespan or path |
| Provenance.HoldsStep | pkg/katbox/gc.go:67-191 | no step invents a queue entry: it was there before or an unpublish asked for it just now |
| Provenance.EveryEntryWasRequested | pkg/katbox/nodeserver.go:249-256 | every entry anywhere in the node stems from an earlier unpublish request of that id, with that request's clock, lifespan and path |
| Provenance.EntryIsPlaced | pkg/katbox/nodeserver.go:254 | every candidate path is the volume's directory or, for an unknown volume, workdir/id |
| Provenance.RecordsInRun | pkg/katbox/node.go:142-176 | every volume record, in memory or on disk, after any restarts, is the record its pod UUID determines |
| Lifecycle.LifeInRun | pkg/katbox/nodeserver.go:199-292 | the per-volume invariant that ties index, queue, pruner, handlers and tree together holds at every step |
| Lifecycle.RefinesLifecycle | pkg/katbox/gc.go:67-191 | every interleaved run with crashes is, per volume, a run of Absent, Live, Pending, Gone, whatever happens to other volumes; only the persisting put, the queue put and the pruner's durable delete move it, and each phase means what is on record |
| Lifecycle.NeverBack | pkg/katbox/gc.go:67-191 | once a stored volume is queued, at every later step the bucket holds the same time, lifespan and path, the published one, or the directory is gone; once neither bucket knows it, its directory never comes back |
| Lifecycle.NoOrphanedDirectory | pkg/katbox/nodeserver.go:249-292 | if a stored volume's directory exists, one of the buckets holds a record with exactly its path |
| Lifecycle.QueuedPathIsPublishedPath | pkg/katbox/nodeserver.go:249-256 | the first durable queue entry of a stored volume carries the path its publish created, after any restarts |
| VolumeIndex.DurableIndexIsInMemory | pkg/katbox/nodeserver.go:278-292 | a durable volume record is in memory with an equal record, at every step and after every restart, if the deletes of that id's record succeed |
| Eviction.TreeInRun | pkg/katbox/gc.go:175-188 | in every run the tree stays closed under parents and keeps the bolt file |
| Eviction.ParentRemovalIsSafe | pkg/katbox/gc.go:182-185 | removing a parent removes at most one pod directory, only when it has no child, and never the working directory or the database |
| Eviction.PrunerSparesLive | pkg/katbox/gc.go:157-190 | while a volume is live, no pruner step changes anything at or below its directory |
| Eviction.NoEarlyEviction | pkg/katbox/gc.go:135-176 | when RemoveAll reaches a volume's directory, that very volume was unpublished at an earlier time T and the clock is strictly past T plus its lifespan scaled by the round's factor |
| Liveness.OverdueGoneByRoundEnd | pkg/katbox/gc.go:148-190 | an entry overdue at the round's clock is gone from map and bucket when the round ends, whatever the pressure and the interleaving |
| Liveness.SomeRoundStartsInTime | pkg/katbox/gc.go:52-64 | with whole rounds starting at most a gap apart, one starts within the gap after any given time |
| Liveness.GoneWithinGap | pkg/katbox/gc.go:45-65 | if rounds that are not cut short start at most a gap apart, any entry in the map, inserted or reloaded, is gone by the end of one that starts within the gap after the later of that moment and its deadline, whatever happens in other rounds |
| Retention.ContentGoesIff | pkg/katbox/gc.go:175-185 | whatever lies at or below a volume's directory disappears exactly when its own publish undoes a failed mount, the pruner evicts it by its own queue entry, or its own pod deletes it |
| Retention.DirectoryGoesIff | pkg/katbox/gc.go:175-185 | the directory itself disappears exactly when one of those two erasures succeeds |
| Retention.DeletionIsDelayed | pkg/katbox/gc.go:67-191 | over any stretch of a run, anything at or below a volume's directory that goes, and that neither its pod nor an undone mount took, stays until the pruner evicts the volume, strictly after an earlier unpublish request of it plus its scaled lifespan |
| Retention.LiveLosesIff | pkg/katbox/nodeserver.go:180-192 | a live volume loses something at or below its directory exactly if a repeated publish fails to mount and undoing it erases that, or its pod deletes it |
| Retention.LiveKeepsContents | pkg/katbox/nodeserver.go:75-216 | without such an undo, complete or partial, a live volume keeps everything its pod does not delete |
| Retention.LiveHasDirectory | pkg/katbox/nodeserver.go:75-216 | in every run without a completed undo, a live volume has its directory |
| Retention.ForgottenStays | pkg/katbox/nodeserver.go:235-256 | once nothing but the directory of a volume is left, nothing short of a new publish ever records or deletes it |
| Retention.LostPutIsNeverRepaired | pkg/katbox/gc.go:97-100 | an unpublish leaves the directory unrecorded and undeleted in every continuation without a new publish if and only if its queue put fails and the unmount and the delete succeed |
| Retention.UnpersistedIsLostByRestart | pkg/katbox/nodeserver.go:149-222 | a successful publish survives a restart if it persisted its record; otherwise the restart leaves its directory unrecorded and undeleted for good |
| Rounds.SweptMore | pkg/katbox/gc.go:176-185 | evicting one more path from an already swept tree gives the tree swept of both, parents included |
| Rounds.ExactRound | pkg/katbox/gc.go:148-190 | after an undisturbed round exactly the candidates whose path existed and whose deadline had not passed are left, in map and bucket, with the tree given in closed form |
| Rounds.SurvivorsExactly | pkg/katbox/gc.go:139-190 | the survivors of a round in plain arithmetic: path there, and no more time gone than the lifespan, its free share of the headroom, or a tenth of it if the headroom is rejected |
| Rounds.ExpiredByDefault | pkg/katbox/gc.go:139-175 | a round with a rejected headroom expires a candidate exactly once more than a tenth of its lifespan has passed |
| Rounds.WhatAVisitLeaves | pkg/katbox/gc.go:157-190 | for every combination of failures, when the entry is left, and which paths are left in the tree |
| Rounds.OrderIrrelevant | pkg/katbox/gc.go:157 | every iteration order of the snapshot gives the same world |
| Rounds.PodDirKeptIffInUse | pkg/katbox/gc.go:182-185 | after a round the pod directory of an expired candidate exists exactly if something is left in it |
| Rounds.MorePressureEvictsMore | pkg/katbox/gc.go:135-190 | less free space and a later clock evict at least as much from the queue and from the tree |
| Recovery.VisitReachesGoal | pkg/katbox/gc.go:166-189 | an undisturbed eviction performs its micro-steps and ends with directory, empty pod directory, bucket and map entry gone |
| Recovery.EvictionConverges | pkg/katbox/gc.go:167-189 | a crash after any micro-step of an eviction, then restart and one visit under any pressure, ends where the uninterrupted eviction ends exactly if the candidate is still expired, or the parent had been dealt with, or others use the pod directory after the erasure |
| Recovery.PartialErasureConverges | pkg/katbox/gc.go:176-180 | a crash or failure inside RemoveAll is repaired by the next visit exactly if the candidate is still expired, or there was nothing to erase and no empty pod directory |
| Recovery.RecoveryOfMissing | pkg/katbox/gc.go:167-189 | if the directory was already missing, recovery converges exactly unless an empty pod directory was there and the crash fell between the first bucket delete and the parent removal, or before both with the candidate no longer expired |
| Requests.WhatPublishAnswers | pkg/katbox/nodeserver.go:48-223 | which requests succeed, are invalid or fail, for every request and every outcome; a malformed one changes nothing |
| Requests.WhatPublishEnters | pkg/katbox/nodeserver.go:75-90 | every well-formed request whose directory can be made leaves its record in memory, accepted or not |
| Requests.WhatPublishPersists | pkg/katbox/nodeserver.go:197-220 | exactly what was mounted just now is persisted, unless the put fails |
| Requests.WhatPublishMakes | pkg/katbox/nodeserver.go:75-192 | a publish adds only the directory and what is above it, takes only what is below it and only after a failed mount, and has its directory if it succeeds |
| Requests.WhatUnpublishAnswers | pkg/katbox/nodeserver.go:225-299 | success, invalid request, failed unmount and block volume, each exactly when, for every request and record; a malformed one changes nothing |
| Requests.WhatUnpublishQueues | pkg/katbox/nodeserver.go:249-256 | bucket and map get an entry with the call's time, the lifespan and the recorded pod's path exactly if the id was not queued and the put succeeds |
| Requests.WhatUnpublishForgets | pkg/katbox/nodeserver.go:277-292 | the record leaves memory exactly if the call succeeds, and the bucket if the delete does too |
| Requests.PublishTwice | pkg/katbox/nodeserver.go:48-223 | for any two outcomes of mount, undo and put, the exact conditions under which a second publish changes nothing, answers the same, and under which the record is durable afterwards |
| Requests.QueuedPathIsRight | pkg/katbox/nodeserver.go:239-256 | the queued path is the published one exactly if the volume is in the in-memory index |
| Requests.UnpublishTwice | pkg/katbox/nodeserver.go:225-300 | a repeated unpublish leaves queue and tree alone, and changes nothing once it has succeeded |
| Requests.WholeLifeLeavesNoTrace | pkg/katbox/nodeserver.go:48-300 | published, written to, unpublished and evicted, a volume leaves every map, bucket and directory as before, exactly unless an empty pod directory was lying around |
| Simulation.PublishIsRun | pkg/katbox/nodeserver.go:75-222 | the sequential publish is a run of its atomic steps |
| Simulation.UnpublishIsRun | pkg/katbox/nodeserver.go:235-299 | the sequential unpublish is a run of its atomic steps |
| Simulation.VisitIsRun | pkg/katbox/gc.go:157-190 | the sequential visit, failures included, is a run of the pruner's atomic steps |
| Simulation.RoundIsRun | pkg/katbox/gc.go:130-191 | an undisturbed round in any order is a run of the pruner's atomic steps |
| Simulation.CutIsRun | pkg/katbox/gc.go:166-189 | each prefix of an eviction is a state that a run can crash in |
| Simulation.RecoverIsRun | pkg/katbox/gc.go:130-191 | a crash after any micro-step, the restart and the next visit are a run, for any later time and disk usage |
| Simulation.RecoveryInRun | pkg/katbox/gc.go:130-191 | from every reachable state about to evict, whatever other handlers are doing, a crash after any micro-step and a recovery under any pressure reach the goal exactly under the conditions of the two recovery theorems |
| Simulation.PartialRecoveryInRun | pkg/katbox/gc.go:176-180 | likewise for a RemoveAll that a crash or failure interrupts |
| Simulation.LayoutInRun | pkg/katbox/nodeserver.go:254 | in every reachable state candidate paths are at most two levels deep, pairwise not nested and away from the bolt file |
| Simulation.ExactRoundInRun | pkg/katbox/gc.go:130-191 | from every quiescent reachable state and for every order a round runs to exactly the predicted world |
| Hypotheses.RepublishedIsEvicted | pkg/katbox/nodeserver.go:77-216 | a queued id that is published again, successfully, is evicted by its old entry while its record stays |
| Hypotheses.CheckTearsIff | pkg/katbox/gc.go:67-128 | after a run that kept to the hypothesis, a queue check can lead to a lasting difference of map and bucket if and only if the current visit still has a removal to do and the id is not in the map |
| Hypotheses.QueueDuringVisitTearsQueue | pkg/katbox/gc.go:167-188 | a queue entry started between the two removals of a visit ends up in the map but not in the bucket |
| Hypotheses.OneCrashLeaksPodDir | pkg/katbox/gc.go:166-189 | in every reachable state about to evict the last volume of a pod, one crash after RemoveAll and a next round that does not find the candidate expired leave an empty pod directory with nothing queued |
| Hypotheses.OneCrashLeakHappens | pkg/katbox/gc.go:166-189 | on every node, under every rounding, there is a run from the start with one volume and one crash that ends with all records gone and the empty pod directory left |
| Hypotheses.TornQueueHappens | pkg/katbox/gc.go:167-188 | on every node, under every rounding, two unpublish requests for an unknown id can leave map and bucket different at rest |
| Hypotheses.PressureCanEase | pkg/katbox/gc.go:175 | a candidate expired under one disk usage is not expired under another at the same time |
| Hypotheses.OrderMattersWithoutPin | pkg/katbox/gc.go:185 | in a proper directory tree without a pinned common ancestor two orders leave different trees |

## Left out

- The gRPC server, endpoint parsing, identity server, flags, logging and capability replies: plumbing.
- Shutdown: the closing path of the pruner and the wait group are not modelled; the process ends by crashing.
- Mounting of block volumes: publish only ever creates mount volumes, so only the rejection of a block request is
  modelled. The block file and its loop device are outcomes of calls in `CreateEphemeralVolume`.
- A directory creation that fails with an "already exists" error, after which publish dereferences a nil record: it
  needs a file to appear at the path in the middle of the call.
- Undecodable bolt records: records are assumed well formed, and JSON a round trip.
- Go-level races on the unlocked index map and on the unlocked length read of the queue: map operations are atomic.
- Bucket creation: buckets are there once the database opens.
- NaN as headroom, saturation of `time.Time` arithmetic, and float64 to uint64 conversions out of range.
- Pods that replace their volume directory by a link, and anything outside the working directory.
- `maxVolumes`, which is only advertised, `makeFile`, `stream/`, deployment files and scripts.
