# AkashaDB verification model

Dafny models of the parts of AkashaDB whose correctness depends on order, crashes, concurrency or
exact formats, and proofs about them for every input, every interleaving and every run:

* the replicated shard protocol: one coordinator, its replicas and the network as a step machine
  (`Cluster`, `ClusterInvariant`, `ClusterSteps`, `ClusterReconfiguration`, `ClusterSafety`, `Quorums`, `CatchUps`), what the
  collections hold over whole runs (`CollectionHistory`, `AcknowledgedWrites`, `PointContents`) with particular runs
  (`Paths`, `LateCommits`, `SkippedCommits`, `SnapshotSources`), one replica with every durable write
  it performs (`Replicas`, `ReplicaShards`, `CrashImages`), commit delivery and catch-up
  (`Deliveries`);
* durable formats: the replica journal as bytes (`Journals`), snapshot installation by directory
  renames (`SnapshotSwap`), cluster metadata as JSON (`MetadataCodec`);
* the native maintenance worker with its mutex, its condition variable and any number of drainers
  and requesters (`Worker`);
* distributed queries: fan-out, global Top-K and reciprocal-rank fusion (`Merge`, `Hybrid`);
* logical point export and import (`PointSchema`, `PointRows`, `PointBatches`, `LogicalPoints`) and the
  flattened sparse check of Arrow batches (`SparseBatch`).

`dafny verify dfyconfig.toml` checks the whole project.

## How the protocol is modelled

The coordinator holds one lock, so at most one of its operations is under way and a program counter
says how far it has got. Each RPC is one step. It is delivered and answered, delivered with the
answer lost, not delivered, or the replica process dies after any of the durable writes the
operation makes. Coordinator and replica crashes, node restarts and coordinator restarts may happen
between any two steps, and any operation may be abandoned at any point. `_ensure_leader`,
configuration after an election and the catch-up loops of a restart run while the coordinator is
otherwise idle, so they are idle steps of their own; this allows more runs than the code does.

Every replica carries a history that no operation reads: the list of indices whose mutations its
collection has received. An index is appended where the code publishes its applied index, and an
installed snapshot brings its source's list.

Assumptions:

* Publishing metadata or replica state either succeeds or the process dies with it.
* Renames are atomic and ordered. Building or removing a directory tree is neither.
* `payload_checksum` is a function, injective on the mutations that clients submit.
* A collection is a durable map: an upsert replaces vector and payload, a non-empty sparse list
  replaces the stored one, a delete removes the point.
* An encoded journal record contains no raw LF or CR (section 7 of RFC 8259) and decodes to itself.
* Condition variables behave as POSIX.1-2017 says: `signal` unblocks at least one waiter, `broadcast`
  all of them, and spurious wakeups happen. Nobody drains a worker handle while it is closed.
* Local searches are exact, scores are real numbers, and a point has one ID.

## Where the code does not do what is promised

* `docs/distributed.md` says that every replica applies a committed mutation, that only then the write
  is acknowledged, and that reads and elections use caught-up replicas. An acknowledged write can be
  missing from such a replica in two ways. A commit whose index is not above the replica's applied
  index is journaled and answered but not applied (`replica.py:292`):
  `LateCommits.AcknowledgedWriteCanBeMissing`. And a commit that a replica misses is passed over by the
  next one it receives: `SkippedCommits.ElectedLeaderCanLackAcknowledged`, where no commit is late.
  `AcknowledgedWrites` says exactly which indices a replica has in every run (`AppliedExactly`), exactly
  when a caught-up replica or an elected leader has all acknowledged ones, and which steps have to be
  avoided, and suffice to be avoided, so that it never lacks one (`AlwaysCoversExactly`).
* Catch-up reads only above the target's applied index, so an index that the target skipped stays
  missing (`Deliveries.CatchUpNeverFillsGaps`); and from a source added by a snapshot, catch-up may end
  below the committed index without raising (`SnapshotSources.CatchUpCanEndBehind`).
  `Deliveries.CatchUpReachesCommitted` gives the exact condition.
* Hybrid search does not check `rank_constant`. It raises exactly when `-rank_constant` is a rank of
  either list, and below -2 a point can lose to one it beats in both rankings
  (`Hybrid.NegativeConstantReverses`); from -2 upwards, or when both lists hold both points, it cannot
  (`Hybrid.BetterInBothComesFirst`).
* `docs/distributed.md` says the commit marker follows the local apply; the code writes the marker
  first. It also calls routing version 1 current; the code writes version 2 and reads version 1 only
  as a migration. The model follows the code.

## Model

| member | source | states |
|---|---|---|
| `ClusterSafety.CommittedIndexIsOnAMajority` | python/akashadb/distributed/cluster.py:280-348 | In every reachable state the published metadata is valid and a majority of each shard's replicas has an applied index at or above the committed index |
| `ClusterSafety.NewLeaderIsCaughtUp` | python/akashadb/distributed/cluster.py:329-348 | Over every run a term changes only to a leader that is a replica and has an applied index at or above the committed index |
| `ClusterReconfiguration.ElectedLeaderIsCaughtUp` | python/akashadb/distributed/cluster.py:337-343 | Any quorum of probed candidates meets the caught-up majority, so the best candidate is caught up |
| `ClusterReconfiguration.BestIsFirst` | python/akashadb/distributed/cluster.py:339-340 | The chosen candidate has the highest applied index and, among equals, the smallest node ID |
| `ClusterSafety.JournalsAgree` | python/akashadb/distributed/cluster.py:217-258 | Two journals that ever, at any two moments, hold the same shard and index hold the same request ID and mutation there |
| `ClusterSafety.HeldEntryWasIssued` | python/akashadb/distributed/cluster.py:233-245 | Every journaled entry is what its index was handed out for; every committed one is bound to that index in the published request table |
| `ClusterSafety.RequestCommitsAtOneIndex` | python/akashadb/distributed/cluster.py:206-228 | A request is committed at one shard and index only, on any replicas at any moments |
| `ClusterSafety.AcknowledgementsAgree` | python/akashadb/distributed/cluster.py:261-278 | All acknowledgements of a request name one shard and index, and every replica that commits the request commits it there |
| `Quorums.OneAcknowledgement` | python/akashadb/distributed/cluster.py:206-216 | All acknowledgements of a request, first or repeated, are one and the same shard, term and index |
| `ClusterSafety.MetadataHistory` | python/akashadb/distributed/cluster.py:341-345 | Equal epochs are identical metadata; a shard and term have one leader; terms, epochs, log and committed indices never go back and replicas are only appended |
| `ClusterSafety.MetadataStaysSound` | python/akashadb/distributed/protocol.py:283-346 | In every reachable state every shard has its own placement with distinct known replicas, a leader among them and no more committed than allocated, and members have usable addresses |
| `ClusterSafety.MembersNeverRunAhead` | python/akashadb/distributed/replica.py:265-277 | A member replica never holds a term or placement epoch above the published placement's |
| `ClusterSafety.StampsNeverGoBack` | python/akashadb/distributed/replica.py:279-296 | An entry that reaches a journal later has a stamp componentwise at least that of every earlier entry, across crashes |
| `ClusterSafety.ReplicasNeverGoBack` | python/akashadb/distributed/replica.py:234-271 | The applied index, term and placement epoch of a replica never decrease, across crashes, recoveries and installations |
| `ClusterSafety.StepKeepsInv` | python/akashadb/distributed/cluster.py:199-348 | Every step of the machine keeps the whole invariant: validity, bindings, journals, epochs, quorums and the facts of the operation under way |
| `ClusterSafety.ReachableInv` | python/akashadb/distributed/cluster.py:93-136 | The invariant holds in every state of every run from a fresh cluster |
| `ClusterSafety.RunLeads` | python/akashadb/distributed/cluster.py:303-312 | Between any two moments of a run allocations, bindings, acknowledgements, placements and replicas only grow |
| `ClusterReconfiguration.InitialPlacementIsValid` | python/akashadb/distributed/cluster.py:110-117 | Modular placement over the sorted nodes gives distinct replicas, a leader among them and known members |
| `ClusterReconfiguration.ShardsGoRound` | python/akashadb/distributed/cluster.py:110-117 | The first shards are led by the sorted nodes in turn, the next shard's replicas start one node further, and after the last node it begins again |
| `ClusterReconfiguration.InitKeeps` | python/akashadb/distributed/cluster.py:107-128 | A fresh cluster satisfies the invariant |
| `ClusterReconfiguration.FreshClusterExists` | python/akashadb/distributed/cluster.py:61-128 | Whatever arguments the constructor accepts, a fresh cluster exists, so the statements about runs are about something |
| `ClusterReconfiguration.RestartKeeps` | python/akashadb/distributed/cluster.py:93-106 | A coordinator restart with new addresses keeps the invariant |
| `ClusterReconfiguration.RestartNodeKeeps` | python/akashadb/distributed/cluster.py:564-569 | Restarting a node keeps the invariant |
| `ClusterSteps.PublishKeepsValid` | python/akashadb/distributed/protocol.py:283-346 | Publishing a valid placement with the next epoch keeps metadata valid |
| `ClusterSteps.NewIndexIsFresh` | python/akashadb/distributed/cluster.py:230-236 | The index allocated for a write was never handed out before |
| `ClusterSteps.BeginWriteKeeps` | python/akashadb/distributed/cluster.py:230-245 | Allocating and publishing an index keeps the invariant |
| `ClusterSteps.SameMutation` | python/akashadb/distributed/cluster.py:206-209 | A retry accepted by its checksum carries the mutation the request was registered with |
| `ClusterSteps.RetryKeeps` | python/akashadb/distributed/cluster.py:217-228 | Retrying a prepared request under the current term keeps the invariant |
| `ClusterSteps.DuplicateKeeps` | python/akashadb/distributed/cluster.py:210-216 | Answering a committed duplicate keeps all acknowledgements in agreement |
| `ClusterSteps.PrepareRpcKeeps` | python/akashadb/distributed/cluster.py:246-260 | One prepare call, whatever becomes of it, keeps the invariant |
| `ClusterSteps.EndPrepareKeeps` | python/akashadb/distributed/cluster.py:261-278 | Failing without leader or quorum, or registering the request, keeps the invariant |
| `ClusterSteps.CommitRpcKeeps` | python/akashadb/distributed/cluster.py:286-299 | One commit call, whatever becomes of it, keeps the invariant; nodes counted as committed have applied the index |
| `ClusterSteps.EndCommitKeeps` | python/akashadb/distributed/cluster.py:300-315 | Failing without quorum, or publishing the committed index and acknowledging, keeps the invariant |
| `ClusterReconfiguration.StatusRpcKeeps` | python/akashadb/distributed/cluster.py:330-336 | Collected applied indices stay those the replicas hold |
| `ClusterReconfiguration.EndElectionKeeps` | python/akashadb/distributed/cluster.py:337-345 | Publishing a new term and leader keeps the invariant |
| `ClusterReconfiguration.ConfigureRpcKeeps` | python/akashadb/distributed/cluster.py:148-162 | Configuring a replica, with the recovery that opening its directory entails, keeps the invariant |
| `ClusterReconfiguration.BeginCatchUpKeeps` | python/akashadb/distributed/cluster.py:350-376 | The entries that catch-up copies are registered ones |
| `CatchUps.CatchUpQueuesMissing` | python/akashadb/distributed/cluster.py:356-376 | In every reachable state a catch-up queues exactly the source's committed entries above the target's applied index, ascending, with their requests and mutations under the current stamp |
| `CatchUps.TailQueuesMissing` | python/akashadb/distributed/cluster.py:633-646 | The tail for an added node is exactly what its source has committed above the snapshot |
| `CatchUps.CatchUpInFull` | python/akashadb/distributed/cluster.py:350-386 | A catch-up whose calls are answered and taken leaves the cluster as it was, but for the target, which is the specified catch-up of the two replicas |
| `ClusterReconfiguration.CopyRpcKeeps` | python/akashadb/distributed/cluster.py:377-385 | Each prepare and commit of a copied entry keeps the invariant |
| `ClusterReconfiguration.RebalanceConfigureKeeps` | python/akashadb/distributed/cluster.py:608-619 | Giving an added node the next placement epoch before it is published keeps the invariant |
| `ClusterReconfiguration.InstallRpcKeeps` | python/akashadb/distributed/cluster.py:620-632 | Installing the exported snapshot keeps the invariant and leaves the node at or above the committed index |
| `ClusterReconfiguration.FetchTailKeeps` | python/akashadb/distributed/cluster.py:633-646 | The tail copied to an added node consists of registered entries |
| `ClusterReconfiguration.EndCopyKeeps` | python/akashadb/distributed/cluster.py:655-658 | Publishing the new replica set keeps the invariant |
| `ClusterReconfiguration.AddedReplicaKeepsMajority` | python/akashadb/distributed/cluster.py:597-660 | An added caught-up replica keeps the majority although the quorum may grow |
| `Quorums.RegistrationNeedsQuorum` | python/akashadb/distributed/cluster.py:246-277 | When a request is first published, the leader and a quorum of replicas hold it durably at its index |
| `Quorums.CommitNeedsQuorum` | python/akashadb/distributed/cluster.py:286-312 | When a request is published as committed, a quorum has its commit marker and an applied index at or above it |
| `Quorums.AcknowledgementNeedsQuorum` | python/akashadb/distributed/cluster.py:300-315 | Behind every acknowledgement, first or repeated, lies a moment at which a quorum had committed exactly the acknowledged index |
| `Quorums.ElectionNeedsQuorum` | python/akashadb/distributed/cluster.py:329-345 | When a term changes, a quorum of replicas has applied at most what the new leader has |
| `Quorums.StepKeepsAnswers` | python/akashadb/distributed/cluster.py:246-299 | Nodes counted as prepared hold the entry, nodes counted as committed hold its marker, whatever happens to the other calls |
| `CollectionHistory.CollectionsFollowTheLog` | python/akashadb/distributed/replica.py:287-327 | In every reachable state an open replica's collection is the agreed log applied at exactly the list the replica keeps: ascending, registered, ending at its applied index; what it applied itself its journal committed, the rest came with its snapshot; a closed replica recovers to such a state |
| `CollectionHistory.StepKeepsHistory` | python/akashadb/distributed/replica.py:234-253 | Every step, with a crash after any durable write, keeps that property and moves each replica's list in one of three ways |
| `CollectionHistory.RunViews` | python/akashadb/distributed/replica.py:287-327 | Over every run a step leaves a replica's list alone, appends one index above the applied one together with its marker, or replaces the list by that of the snapshot's source |
| `CollectionHistory.CommitMoves` | python/akashadb/distributed/replica.py:290-295 | A commit appends its index to the list if it is above the applied one and otherwise changes neither list nor collection; afterwards the index is on the list if and only if it was above or already there |
| `Replicas.ApplyApplies` | python/akashadb/distributed/replica.py:298-321 | After a delete the ID is absent; after an upsert it has the mutation's vector and fields, and its sparse list if that is not empty, else the old one, or none; every other ID is untouched |
| `PointContents.PointIsDecided` | python/akashadb/distributed/replica.py:298-327 | Over every run a replica holds a point exactly when the last listed mutation of it is an upsert, with that upsert's vector and fields, and the sparse list of the last upsert since its last delete that carried one |
| `AcknowledgedWrites.AppliedExactly` | python/akashadb/distributed/replica.py:290-295 | Over every run, an index is on a replica's list if and only if it came with the installed snapshot or its marker was written while it was above the replica's applied index |
| `AcknowledgedWrites.OrderlyCollection` | python/akashadb/distributed/replica.py:287-327 | A replica, seeded by a snapshot or not, has applied exactly the entries its journal committed if and only if none of them came late; its collection is then the snapshot's list followed by them in index order |
| `AcknowledgedWrites.OrderlyReplicasAgree` | python/akashadb/distributed/cluster.py:287-299 | Two such replicas that with their snapshots account for the same indices hold equal collections, at any two moments |
| `AcknowledgedWrites.AlwaysCoversExactly` | python/akashadb/distributed/cluster.py:286-315 | A replica never lacks an acknowledged write it has passed if and only if every step was clean for it: it committed no index over an acknowledged one missing from its list, no index it had passed and missed was acknowledged, and no installed list missed an acknowledged index |
| `AcknowledgedWrites.CaughtUpHasAcknowledgedExactly` | python/akashadb/distributed/cluster.py:388-401 | A replica whose applied index reaches the committed index has all acknowledged writes if and only if each came with its snapshot or was marked while above its applied index; clean steps are enough |
| `AcknowledgedWrites.ElectedLeaderHasAcknowledgedExactly` | python/akashadb/distributed/cluster.py:329-348 | The same for the leader an election names |
| `LateCommits.AcknowledgedWriteCanBeMissing` | python/akashadb/distributed/replica.py:291-296 | On every fresh cluster, whatever its replication factor, for every two mutations of a shard, a run acknowledges both and leaves only the second in every replica's collection |
| `SkippedCommits.ElectedLeaderCanLackAcknowledged` | python/akashadb/distributed/cluster.py:286-348 | On every fresh cluster with at least three replicas for each shard, a run acknowledges two writes, no commit comes late on any replica, and the election names a leader at the committed index that lacks the first |
| `SnapshotSources.CatchUpCanEndBehind` | python/akashadb/distributed/cluster.py:350-401 | On every fresh cluster with at least three replicas for each shard and a node to spare, a run ends a catch-up, without an error, below the committed index: the only reachable caught-up source was added by a snapshot |
| `Deliveries.DeliveryOutcome` | python/akashadb/distributed/replica.py:287-296 | In whatever order commits arrive, all are journaled and exactly the running maxima are applied, in index order |
| `Deliveries.DeliveredExactly` | python/akashadb/distributed/replica.py:287-296 | In whatever order and however often commits arrive, an index is on the replica's list afterwards if and only if it was before or some delivery of it was above everything applied or delivered before; so all are applied if and only if that holds of each |
| `Deliveries.SameCommitsSameCollection` | python/akashadb/distributed/replica.py:287-327 | Ascending deliveries with equal committed sets give equal collections |
| `Deliveries.CatchUpAppliesTheMissingEntries` | python/akashadb/distributed/cluster.py:358-386 | Catch-up applies every committed source entry above the target's applied index, once and in index order, and nothing else |
| `Deliveries.CatchUpReachesCommitted` | python/akashadb/distributed/cluster.py:350-401 | From a caught-up source the target reaches the committed index if and only if it was there already or the source journal still holds a committed entry at or above it; a source snapshot at or below the target's applied index suffices |
| `Deliveries.CatchUpNeverFillsGaps` | python/akashadb/distributed/cluster.py:358-365 | An index the target skipped below its applied index is never fetched |
| `Protocol.CommittedAfter` | python/akashadb/distributed/protocol.py:681-686 | Exactly the committed entries above an index, in strictly ascending order |
| `ReplicaShards.EntriesAfter` | python/akashadb/distributed/replica.py:365-366 | The fetched list is exactly the committed entries above the index, least first |
| `Replicas.RedoIsIdempotent` | python/akashadb/distributed/replica.py:298-321 | Applying a mutation again, over its dense half or the whole of it, gives the same collection |
| `Replicas.CommitIsCrashAtomic` | python/akashadb/distributed/replica.py:287-327 | Stop a commit between any two durable writes, interrupt recovery any number of times: the recovery that completes gives the replica without the commit or with all of it, and applied indices never decrease |
| `CrashImages.CutFileIsAStage` | python/akashadb/distributed/replica.py:290-291 | Cut the journal file at any byte of what a commit appends: it loads, repaired or not, to the journal of the stage before or after the record that was cut, and the marker counts if and only if it is whole |
| `CrashImages.CommitIsCrashAtomicInBytes` | python/akashadb/distributed/replica.py:287-327 | Stop a commit at any byte of its two records or after any later durable write, interrupt recovery any number of times: before the marker's last byte the commit has not happened, from it on it is complete |
| `CrashImages.RecoverInterruptedCommit` | python/akashadb/distributed/replica.py:234-253 | Reopening a shard from such a disk, journal file included, ends in the state without the commit, but for a prepared entry, or with all of it |
| `Replicas.RecoveryIsRestartable` | python/akashadb/distributed/replica.py:323-327 | A crash inside replay does not change what the next replay reaches |
| `Replicas.RecoveriesConverge` | python/akashadb/distributed/replica.py:234-253 | Any chain of interrupted recoveries ends where one uninterrupted recovery does |
| `ReplicaShards.ReplicaShard.Configure` | python/akashadb/distributed/replica.py:265-271 | Accepts non-regressing stamps only and changes nothing else |
| `ReplicaShards.ValidateMutation` | python/akashadb/distributed/protocol.py:182-251 | The loops over payload and sparse elements accept exactly mutations with a vector of the dimension, distinct non-empty names and distinct non-negative terms |
| `ReplicaShards.ReplicaShard.Prepare` | python/akashadb/distributed/replica.py:279-285 | Accepts exactly the entries the replica specification accepts and journals them |
| `ReplicaShards.ReplicaShard.ApplyMutation` | python/akashadb/distributed/replica.py:298-321 | The dense and the sparse half are two durable states, in this order; a deleted ID is gone, an upserted one has the mutation's vector, fields and non-empty sparse list, and no other ID changes |
| `ReplicaShards.ReplicaShard.Commit` | python/akashadb/distributed/replica.py:287-296 | The new state is the specified one, and the durable states passed through are exactly the stages proved crash-atomic |
| `ReplicaShards.ReplicaShard.ReplayCommitted` | python/akashadb/distributed/replica.py:323-327 | The replay loop reaches the specified recovered state |
| `ReplicaShards.ReplicaShard.Recover` | python/akashadb/distributed/replica.py:236-253 | Whatever memory held and wherever the journal file was cut, reopening loads the journal from its bytes and gives the recovered state of the disk |
| `ReplicaShards.CatchUpFrom` | python/akashadb/distributed/cluster.py:366-386 | The copying loop leaves the source untouched and the target with exactly the entries before the first one it refuses; if it refuses none, in the specified catch-up state |
| `Journals.CutJournalReloads` | python/akashadb/distributed/protocol.py:605-648 | Cut the file at any byte: loading succeeds with exactly the state after the longest prefix of complete records, and the repaired file is that prefix |
| `Journals.UncutJournalReloads` | python/akashadb/distributed/protocol.py:605-643 | An uncut file loads to the live state |
| `Journals.TornAppend` | python/akashadb/distributed/protocol.py:605-655 | An append cut after any of its bytes counts if and only if its LF is there, and the repaired file loads to the same state |
| `Journals.CutShape` | python/akashadb/distributed/protocol.py:608-613 | A cut file is its complete records followed by bytes without LF |
| `Journals.LoadSerialized` | python/akashadb/distributed/protocol.py:614-643 | Loading whole records is replaying them in order |
| `Journals.LoadFile` | python/akashadb/distributed/protocol.py:605-648 | The byte loops compute the specified result, errors included, and the repaired file |
| `Journals.ReplicaJournal.Append` | python/akashadb/distributed/protocol.py:650-655 | Adds one framed record to the file |
| `Journals.ReplicaJournal.Reload` | python/akashadb/distributed/protocol.py:597-648 | A new object built from any cut of a journal file has the state of its complete records and repairs the file to them |
| `Journals.ReplicaJournal.Prepare` | python/akashadb/distributed/protocol.py:657-665 | Conflicts raise, duplicates change nothing, otherwise file and map grow together |
| `Journals.ReplicaJournal.Commit` | python/akashadb/distributed/protocol.py:667-673 | Unprepared indices raise; otherwise the marker is in file and set |
| `Journals.ReplicaJournal.InstallSnapshot` | python/akashadb/distributed/protocol.py:675-679 | A regressing snapshot index raises; otherwise it is recorded |
| `SnapshotSwap.StepKeepsInv` | python/akashadb/distributed/replica.py:395-472 | Every file-system operation, failure, partial removal, crash and reopen keeps one complete state recoverable |
| `SnapshotSwap.ReachableInv` | python/akashadb/distributed/replica.py:395-472 | That holds in every state of every run |
| `SnapshotSwap.InstallationIsCrashAtomic` | python/akashadb/distributed/replica.py:395-472 | Whenever the shard serves, the root is exactly the old state or exactly the new snapshot and no workspace is left; a call that returned left the snapshot, one that raised the old state |
| `SnapshotSwap.UncrashedCallEnds` | python/akashadb/distributed/replica.py:401-472 | A call that does not crash raises if and only if one of its operations failed, and then the directories are as before; otherwise it returns with the snapshot as root |
| `SnapshotSwap.InstallationSucceeds` | python/akashadb/distributed/replica.py:395-472 | From every moment of service there is a call, without failure or crash, that returns with the snapshot as root |
| `SnapshotSwap.OutcomeIsDecidedOnce` | python/akashadb/distributed/replica.py:196-210 | Two moments of service with neither a commit nor an installation between them have the same directories, through any number of crashes and reopens |
| `SnapshotSwap.EndpointsAreFixed` | python/akashadb/distributed/replica.py:401-428 | Old and new state stay those of the call through any number of crashes and reopens |
| `SnapshotSwap.RecoveryIsComplete` | python/akashadb/distributed/replica.py:196-210 | From every point of death one recovery leaves one complete state and nothing else |
| `SnapshotSwap.Workspaces.Recover` | python/akashadb/distributed/replica.py:196-210 | The root if it exists, else the backup, and no workspace |
| `Worker.SignalReachesWorker` | native/maintenance_worker.c:81-100 | When an idle worker needs the signal it is the only waiter, so whichever waiter is unblocked is the worker |
| `Worker.BroadcastWakesAll` | native/maintenance_worker.c:42-44 | A broadcast unblocks the worker and every waiting drainer and changes nothing else |
| `Worker.StepKeepsInv` | native/maintenance_worker.c:20-47 | Every step of every thread keeps the invariant |
| `Worker.WakeupsAndRequestsAreNeverLost` | native/maintenance_worker.c:23-47 | In every interleaving a blocked unsignalled worker has nothing to do, a blocked unsignalled drainer has something to wait for, accepted requests are starts plus dropped plus pending, at most one is dropped and only after a failure, and close returns after all others have run |
| `Worker.FirstFailureIsFinal` | native/maintenance_worker.c:35-41 | The first failure code is never overwritten, and after it no callback starts and nothing more is dropped |
| `Worker.FailureIsTheCallbacks` | native/maintenance_worker.c:35-41 | The worker's code is 0 until a callback fails and from then on that callback's code; it is closing from the first call of close |
| `Worker.DrainReports` | native/maintenance_worker.c:118-127 | A drain returns at a moment with nothing pending or running, and reports 0 if and only if no callback has failed by then, else the failed callback's code |
| `Worker.CloseReports` | native/maintenance_worker.c:129-142 | Close reports 0 if and only if no callback has failed, else the failed callback's code |
| `Worker.RequestIsTold` | native/maintenance_worker.c:81-100 | A request is told -1 once close was called, -2 once a callback failed, 0 when it joins one that is waiting, 1 when it is the one to be run |
| `Worker.NoDeadlock` | native/maintenance_worker.c:118-142 | Unless everything is at rest some thread can move by itself |
| `Worker.InternalStepsTerminate` | native/maintenance_worker.c:23-47 | Steps the threads take by themselves lower a well-founded rank, so drains and close finish once callbacks return |
| `Worker.EveryScheduleComesToRest` | native/maintenance_worker.c:118-142 | Without new calls every schedule of the threads is at rest after finitely many steps: nothing pending, every drain and close returned |
| `Worker.ScheduleGoesOn` | native/maintenance_worker.c:20-47 | Such a schedule can always go on until then |
| `Merge.SortSorts` | python/akashadb/distributed/cluster.py:529-532 | The ordering by score and ID is sorted and a permutation |
| `Merge.SortIgnoresOrder` | python/akashadb/distributed/cluster.py:524-533 | The order in which shards answer does not matter |
| `Merge.LocalTopKSuffices` | python/akashadb/distributed/cluster.py:414-427 | Truncating one part of the results to its own Top-K does not change the Top-K |
| `Merge.AllShardsContents` | python/akashadb/distributed/cluster.py:164-167 | Routing puts every point on exactly one shard |
| `Merge.RouteIsUnsigned` | python/akashadb/distributed/cluster.py:164-167 | A signed 64-bit ID is routed as the unsigned number with the same bits |
| `Merge.UniqueIsLast` | python/akashadb/distributed/cluster.py:528-528 | Of several results with one ID the last is kept |
| `Merge.GlobalTopKIsBest` | python/akashadb/distributed/cluster.py:524-533 | For l2 in a dense mode the smallest scores in ascending order, for every other metric or mode the largest in descending order, equal scores in ascending ID order; `k` of them if there are as many, and for a negative `k` all but the last -k |
| `Merge.MergeEqualsSingleNode` | python/akashadb/distributed/cluster.py:414-427 | For every shard count and every set of points, merging local Top-K lists equals the Top-K of one sorted list of all points |
| `Merge.DistributedTopKIsBest` | python/akashadb/distributed/cluster.py:403-427 | Of all points of the cluster the distributed search returns the best `k`, in that order |
| `Hybrid.PositionIsCount` | python/akashadb/distributed/cluster.py:513-521 | A point's rank in a list is one more than the number of points ahead of it |
| `Hybrid.RankInPlainTerms` | python/akashadb/distributed/cluster.py:504-513 | A point's rank is one more than the number of points with a smaller score in l2, or a larger one otherwise, equal scores counted by ID |
| `Hybrid.AddRanks` | python/akashadb/distributed/cluster.py:513-516 | The enumeration loop adds each result's reciprocal rank to its ID and raises exactly when a rank makes the divisor zero |
| `Hybrid.SearchHybrid` | python/akashadb/distributed/cluster.py:487-522 | Whatever the shard count, the result is the first `k` of the fused ranking defined on all points of one node; missing queries and zero divisors raise, nothing else does |
| `Hybrid.OneFusedRanking` | python/akashadb/distributed/cluster.py:521-522 | That definition determines IDs, scores and order completely |
| `Hybrid.FusedInPlainTerms` | python/akashadb/distributed/cluster.py:512-522 | The fused list descends by score and ascends by ID, and each score is the sum of 1 / (constant + rank) over the rankings that fetch the point |
| `Hybrid.BetterInBothComesFirst` | python/akashadb/distributed/cluster.py:513-522 | A point ahead of another in both rankings precedes it in every result, for a rank constant of at least -2 or when both lists hold both |
| `Hybrid.NegativeConstantReverses` | python/akashadb/distributed/cluster.py:514-516 | For every rank constant below -2 there is an input where it does not |
| `MetadataCodec.CanonicalKeys` | python/akashadb/distributed/protocol.py:447-452 | The accepted shard keys are exactly the canonical decimals |
| `MetadataCodec.DigitsOfText` | python/akashadb/distributed/protocol.py:378-381 | Printed decimals parse back to their number |
| `MetadataCodec.DecimalIsDecimal` | python/akashadb/distributed/protocol.py:378-381 | Shard keys are digits read from the left with weight ten, without a leading zero, signed only below zero |
| `MetadataCodec.AddressOf` | python/akashadb/distributed/protocol.py:428-440 | Accepts exactly the address pairs that are written, and returns the address written |
| `MetadataCodec.PlacementOf` | python/akashadb/distributed/protocol.py:443-468 | Accepts exactly the placement objects that are written |
| `MetadataCodec.RecordOf` | python/akashadb/distributed/protocol.py:347-362 | Accepts exactly the request records that are written |
| `MetadataCodec.ReadMembers` | python/akashadb/distributed/protocol.py:422-440 | The member loop inverts the written object and raises exactly when nothing writes it |
| `MetadataCodec.ReadShards` | python/akashadb/distributed/protocol.py:441-468 | The shard loop inverts the written object, keys included, and raises exactly when nothing writes it |
| `MetadataCodec.ReadRequests` | python/akashadb/distributed/protocol.py:347-362 | The request loop inverts the written table and raises exactly when nothing writes it |
| `MetadataCodec.FromPayload` | python/akashadb/distributed/protocol.py:385-486 | Returns the one valid value whose version-1 or version-2 form the payload is, each field read from its own name, and raises exactly when there is none |
| `MetadataCodec.ToPayloadSays` | python/akashadb/distributed/protocol.py:364-383 | Each field stands in the payload under its own name: members as host and port, shards under their decimal numbers, requests under their IDs, statuses as their text |
| `MetadataCodec.WrittenSays` | python/akashadb/distributed/protocol.py:385-486 | The same of every payload and the value it is read as |
| `MetadataCodec.WrittenOnce` | python/akashadb/distributed/protocol.py:364-383 | A payload is the form of at most one value |
| `MetadataCodec.WriteThenRead` | python/akashadb/distributed/protocol.py:364-383 | Every valid value survives writing and reading |
| `MetadataCodec.ReadThenWrite` | python/akashadb/distributed/protocol.py:411-421 | An accepted version-2 payload is reproduced exactly; a version-1 payload changes in routing version and configuration only and is then stable |
| `MetadataCodec.Load` | python/akashadb/distributed/protocol.py:122-136 | Loading accepts exactly the enveloped forms of valid values with a matching checksum |
| `MetadataCodec.Republish` | python/akashadb/distributed/protocol.py:488-511 | Loading, publishing and loading again gives the same value |
| `PointSchema.ConfigRoundTrip` | python/akashadb/logical_points.py:23-24 | A written configuration reads back without its fingerprint |
| `PointSchema.FieldRoundTrip` | python/akashadb/vectors.py:21-40 | A written vector field reads back and passes the validity rules |
| `PointSchema.HeaderRoundTrip` | python/akashadb/logical_points.py:61-78 | A written header reads back with its schema, count and source sequence |
| `PointSchema.HeaderIsSaid` | python/akashadb/logical_points.py:42-46 | A written header holds format, version, configuration, schema, count and sequence under their own names |
| `PointSchema.HeaderReads` | python/akashadb/logical_points.py:61-78 | An accepted header says what is returned, which is valid and within its ranges |
| `PointSchema.FieldKinds` | python/akashadb/vectors.py:21-40 | The valid combinations of kind, element type, metric and dimension |
| `PointSchema.HexRoundTrip` | python/akashadb/logical_points.py:37-40 | Packed bytes survive hexadecimal text |
| `PointSchema.HexDigits` | python/akashadb/logical_points.py:37-40 | Each byte becomes two lower-case digits, the high one first |
| `PointSchema.FromHexDigits` | python/akashadb/logical_points.py:132-139 | Each byte read is sixteen times its first digit plus its second, in either case |
| `PointRows.EncodeExport` | python/akashadb/logical_points.py:27-46 | Rewrites every row in place to its encoded form and returns the header; raises exactly on an invalid schema, an unknown field or a binary field without bytes |
| `PointRows.EncodingSays` | python/akashadb/logical_points.py:35-41 | Encoding changes binary vectors alone, into hexadecimal text |
| `PointRows.RowIsSaid` | docs/formats/logical-point-format.md:30-45 | A line holds each part of its row under its own name, absent default values as null |
| `PointRows.RowReads` | python/akashadb/logical_points.py:155-176 | An accepted row sets or removes every field as it says, within its ranges |
| `PointRows.DecodePoints` | python/akashadb/logical_points.py:149-177 | Accepts exactly when the count matches, every row decodes and IDs are distinct, and returns the rows' mutations in order |
| `PointBatches.ToKernel` | python/akashadb/vectors.py:144-152 | The update list holds exactly the mutation's settings, each once; omitted ones produce none |
| `PointBatches.UpsertReplaces` | python/akashadb/vectors.py:117-126 | A mutation that mentions every field gives a content independent of what the point held, or is rejected whatever it held |
| `PointBatches.BatchReplaces` | python/akashadb/operations.py:114-117 | An accepted batch of such mutations replaces exactly its IDs; a rejected one has no valid result |
| `LogicalPoints.RowIsComplete` | python/akashadb/logical_points.py:163-176 | Every decoded row mentions every field of the schema: absent ones are removed |
| `LogicalPoints.Collection.ApplyPointBatch` | python/akashadb/database.py:246-250 | A batch above the row limit is rejected; any other is applied as a whole or not at all |
| `LogicalPoints.Collection.ImportNdjson` | python/akashadb/operations.py:96-117 | An import ends in the one specified state, or is rejected and changes nothing; it is rejected only if the target, the row limit or the file does not allow it |
| `LogicalPoints.ImportsOnce` | python/akashadb/operations.py:107-117 | An accepted file has one outcome on a given target |
| `LogicalPoints.RowRoundTrip` | python/akashadb/logical_points.py:129-146 | A captured row decodes to the mutation that sets all its content, absent and empty vectors told apart |
| `LogicalPoints.ImportRestoresExport` | python/akashadb/operations.py:107-117 | Importing an export over any target state gives exactly that target with the exported IDs replaced by their exported content and every other ID untouched |
| `LogicalPoints.ExportThenImport` | python/akashadb/operations.py:66-117 | Exporting a good capture and importing it into a matching target within its row limit succeeds and leaves exactly that target with the captured IDs replaced |
| `LogicalPoints.WriteRows` | python/akashadb/operations.py:81-84 | Every encoded row is written as one line; a row that still holds bytes cannot be |
| `SparseBatch.ValidateSparse` | python/akashadb/operations.py:171-178 | The row loop accepts exactly the rows with ascending non-negative terms and finite non-zero weights |
| `SparseBatch.InvalidOrder` | python/akashadb/arrow.py:380-384 | The masked comparison marks exactly the non-ascending neighbours inside a row |
| `SparseBatch.NeighboursAreRows` | python/akashadb/arrow.py:382-386 | Ascending neighbours away from row boundaries is the same as ascending rows |
| `SparseBatch.ValidateBatch` | python/akashadb/arrow.py:372-388 | The flattened check accepts a batch exactly when every row is non-empty, in bounds and accepted row by row |

## Left out

- The storage kernel (indexes, WAL, segments, SIMD, GPU): a durable map and an exact search stand for it.
- Sockets, processes, authentication, fault injection and `debug_rpc`: only their effect on an RPC is modelled.
- JSON text, CRC-32 and NDJSON line parsing: values are JSON trees, checksums abstract functions.
- Floating-point rounding, signed zero and NaN payloads in scores and vectors; NaN and infinities appear only in the sparse check.
- Approximate search modes: local results need not be a true Top-K, so the merge theorem does not apply to them.
- The bound on write retries inside one call and the epoch check during a query; both only remove runs.
- Replica selection for queries (`_query_shard`): a query is answered from the shard's points.
- A directory removal or rollback rename that raises while the process lives on; such a failure counts as a crash.
- The join error code of `akasha_worker_close`: the thread is taken to be joined.
- Key order of JSON objects and Python's 4300-digit limit on integer text.
- Update and delete point mutations and the unversioned document import: easy members beside the point path.
- The kernel's list of schema items: a capture's schema is the map of its named fields.
- Search statistics, metrics, traces, configuration dataclasses, FastAPI routes, CLI, scanners and leases.
- The coordinator's RPC loops are steps of a machine rather than methods, since a crash may fall between any two of their calls; the catch-up loop is also given as a method.
- MergeEqualsSingleNode: `k` is a natural number, because what the kernel answers for a negative one is not part of this model; `GlobalTopK` itself slices with any integer.
- SearchHybrid: `fetch_k` is a natural number for the same reason; `k` and `rank_constant` are any integers.
- EveryScheduleComesToRest: new calls and spurious wakeups are excluded from the schedule, because either can go on for ever.
