# Streaming platform: a verified model

A model in Dafny of a replicated, segmented, append-only log broker: its quorum replication and leader
election, its storage of one partition with sparse index and write-ahead log, its wire format, and its
consumer groups. `dafny verify dfyconfig.toml` checks the whole project.

## How the model is laid out

**Replication** is modelled at three levels, each for what it shows.

- `Replication.dfy`, `ReplicationManager.dfy` and `Broker.dfy` follow the code: counters, follower sets, commit
  index and failed peers as fields that methods update, with the answers of the network as parameters.
- `Cluster.dfy` and `ClusterSafety.dfy` are a system of single steps over all brokers. Any broker may take or lose
  the leader role at any step, so any number may lead at once. Local appends, the exchange under the manager’s lock,
  every single append on a follower, acknowledgements, replies and commit notices are separate steps in any
  order. Requests may be lost, delayed, repeated and interleaved. A stopped broker is one that takes no more steps.
  The claims about replies hold for every run; `credited` in a task is a history variable that decides nothing.
- `ClusterAgreement.dfy` follows every record to the produce that stored it and every count to the produce it was
  counted for. `BatchBlocks.dfy` says when a batch is one block. `BatchInterleaving.dfy` builds, for every shape of
  batch that is outside agreement, a run in which two replies disagree.
- `SingleLeader.dfy` is about the same runs under a condition on their steps, `InTurn`: produces to the partition
  come from one leader one at a time, and a follower begins a request once and while its exchange is open. Under it
  whole logs can be compared. `FollowerReads.dfy` says what a follower then serves, and `SingleLeaderRuns.dfy` what
  happens without it, after a missed request and after a failed produce. `ClusterRuns.dfy` is the kit with which these
  runs are built step by step.
- `CommittedReads.dfy` says of every appended record when it is served, in all runs. `ReplicationRequests.dfy` ties the
  request handler of a follower to the steps of the cluster.

**Storage.** `Records.dfy`, `SparseIndex.dfy` and `Wal.dfy` give the bytes and their meaning. `PartitionLog.dfy` is the
`Log` class with its loops, proved against plain sequences. Every file operation it performs is recorded in a ghost
trace whose steps are those of `Recovery.dfy`, so the crash results apply to every moment of every operation. When
the files a log is opened over are what a crash left of an earlier log, the trace of that one goes on through
loading, replay, sync and clearing. `SegmentReload.dfy` and `LogReload.dfy` are about the order in which files are
loaded.
What a crash leaves: of the segments, a prefix of their bytes in record order that covers what was synced; of the
write-ahead log, a prefix that covers what was synced.

**Wire format.** `WireReader.dfy`, `FieldParser.dfy`, `RequestCodec.dfy` and `WireWriter.dfy` are the decoder and
encoder loops, `Frame.dfy` the framing over a connection that moves any number of bytes per call. `WireRecords.dfy`
connects the limits of the parser with those of recovery, and `WireLayouts.dfy` writes out the bytes of every message.

**Consumer groups.** `RoundRobin.dfy`, `ConsumerGroups.dfy` and `GroupMembers.dfy`; `TopicGroups.dfy` connects them with
the listing of a topic’s partitions in `Keys.dfy`.

## Where the code does less than its intent

Each of these is proved, with the exact condition where there is one.

- A batch whose local appends are interleaved with other records of the log is replicated under shifted offsets.
  Replies agree wherever they report covered offsets (`Agreement`), and for every uncovered record of every shape of
  batch there is a run in which they do not (`UncoveredDisagrees`). Batches whose appends are not interrupted, which
  are exactly those with consecutive offsets (`ConsecutiveIffUninterrupted`), agree at all of them (`BlocksAgree`).
- A follower that missed one record stores later ones at wrong offsets and, since a commit notice is not compared
  with the log, serves them (`MissedRecordServed`). `FollowerServes` says exactly which stored records are out of
  place: those of requests the follower neither acknowledged nor is still at.
- A follower that handles requests out of turn can acknowledge on top of a log in another order (`OutOfTurn`).
- A cluster whose common live leader does not have the lowest id loses its leader at the next round of
  elections (`ConfiguredLeaderLastsIff`). A leader id that names no member is followed for ever (`UnknownLeaderKept`).
- A produce reported as failed can be served all the same (`FailedThenServed`): it is exactly when its broker later
  reports another produce of the partition or is told of one (`FailedServedIff`).
- Segment files are reloaded in creation order exactly up to ten of them (`LoadOrderIsCreationOrder`). From eleven
  on a log without repeated messages comes back in another order, unless the eleventh is still empty
  (`ReloadKeepsIff`, `ElevenReordered`). A log of less than ten times the segment size is safe (`SmallLogReloads`).
- A message over 16 MiB in the write-ahead log ends recovery there (`RecoversAllWrittenIffFit`, `OversizedIsLost`). No
  request carries one (`AcceptedFits`, `RequestsRecovered`), so only direct callers of `Log::append` can meet this.
- Topic names that end in a dash and a number show up as partitions of the shorter topic (`ListingExact`), and a
  list with a duplicate cannot be shared exclusively (`RoundRobinOwnsIffDistinct`).
- A leave request for another topic reassigns the group over that topic’s partitions (`LeaveKeepsTopicIff`,
  `LeaveForOtherTopic`).
- The response parser accepts any success byte above one and ignores the kind byte, so it is not one-to-one
  (`ReserializesIffCanonical`, `SuccessByteTwo`).

## Model

| member | source | states |
|---|---|---|
| `Cluster.StepGrows` | src/replication/replication_manager.cpp:229-256 | no step of any broker rewrites or drops a stored record |
| `Cluster.AnythingMayHappen` | src/replication/replication_manager.cpp:124-256 | in every state any broker may win or lose the role, produces may fail before and after their exchange, requests may be sent and begun again, and any offset may be announced as committed |
| `ClusterSafety.StoreLands` | src/replication/replication_manager.cpp:243-255 | a follower that goes on, or acknowledges, holds every record of the request so far at exactly the offsets the leader named |
| `ClusterSafety.StepKeeps` | src/replication/replication_manager.cpp:154-332 | every step of every broker keeps the whole invariant: notes of offsets, requests, partial and full acknowledgements, counts, quorums, replies |
| `ClusterSafety.RunKeeps` | src/replication/replication_manager.cpp:154-332 | the invariant holds after every run, and logs, requests, acknowledgements and replies only grow along it |
| `ClusterSafety.AcknowledgedIsHeld` | src/core/broker.cpp:260-333 | after a reply that reports success at consecutive offsets, in every later state of every run, a majority of the brokers hold each of its records at the reported offset, whoever has led since |
| `ClusterSafety.AcknowledgedIsStored` | src/core/broker.cpp:308-333 | after any successful reply, interleaved or not, in every later state the reporting broker holds each record at its reported offset and every other broker of a majority holds record i at the first offset plus i, which is where the request put it |
| `ClusterAgreement.StepKeepsOrigins` | src/replication/replication_manager.cpp:229-256 | every step keeps track of which task put each record where: a place is filled once, and what a follower acknowledged was put there by that very request |
| `ClusterAgreement.StepKeepsCounters` | src/replication/replication_manager.cpp:154-316 | every step keeps track of which task each count stands for, also when a later exchange restarts the count of the same slot, and of the count each reply rests on |
| `ClusterAgreement.Agreement` | src/core/broker.cpp:260-333 | under any number of simultaneous leaders and any loss, delay, repetition and interleaving, two successful replies that report a covered offset of one partition come from the same broker and carry the same record; covered are the offsets inside the range the request names and those with only records of the batch between them and its last |
| `BatchBlocks.ConsecutiveIffUninterrupted` | src/core/broker.cpp:318-321 | in every run the offsets of a batch are consecutive if and only if no other append and no replicated record reached that log of that broker between the first and the last of its own appends |
| `BatchBlocks.EndsCovered` | src/core/broker.cpp:318-321 | the first and the last record of any batch are covered, so are single records and batches of two |
| `BatchBlocks.BlocksAgree` | src/core/broker.cpp:308-333 | in every run that interrupts neither of two batches, their successful replies agree at every offset they both report; other brokers, partitions and batches are free |
| `BatchBlocks.BlockIsHeld` | src/core/broker.cpp:308-333 | in every state after the successful reply to an uninterrupted batch a majority hold each of its records at the reported offset |
| `BatchInterleaving.UncoveredDisagrees` | src/core/broker.cpp:318-332 | the converse: for every batch, every increasing spread of its offsets and every uncovered record there is a run in which the batch is reported with exactly these offsets and a produce of one record by another leader reports a different record at that offset; no batch of the run is longer than this one, so none exceeds the limit of the parser if it does not |
| `BatchInterleaving.RepliesDisagree` | src/core/broker.cpp:318-332 | for example a, b, c reported at 0, 3 and 5, while another successful reply has something else than b at 3 |
| `ClusterSafety.RepliedIsServed` | src/core/broker.cpp:296-305 | in every state of every run a broker serves each record it reported as produced at the offset it reported; only an empty record of a batch reads as absent |
| `CommittedReads.CommittedIff` | src/replication/replication_manager.cpp:318-346 | in every state of every run a broker takes an offset for committed if and only if it reported a produce at that offset or above itself, or a commit notice told it of one |
| `CommittedReads.ServedIff` | src/core/broker.cpp:335-367 | so a fetch of any appended record returns it if it is not empty and its broker reported or was told of its offset or a later one, and nothing otherwise |
| `CommittedReads.FailedServedIff` | src/core/broker.cpp:284-305 | exactly when a record of a produce that failed is served: when it is not empty and its broker has reported another produce of the partition at or above its offset, or was told of one |
| `SingleLeaderRuns.FailedThenServed` | src/core/broker.cpp:284-305 | a run in which the produce of a fails and that of b succeeds, after which a fetch of offset 0 returns a |
| `ClusterSafety.StableReads` | src/core/broker.cpp:335-367 | what a broker once served at an offset it serves in every later state, whatever produces, replications, commits and elections come between |
| `ClusterSafety.StepKeepsCommitted` | src/replication/replication_manager.cpp:318-346 | no step makes a committed offset uncommitted |
| `Replication.AckedCredits` | src/replication/replication_manager.cpp:276-299 | an acknowledgement raises the count by one new broker or, repeated, by none; the count stays the number of distinct brokers credited |
| `Replication.QuorumIsCertified` | src/replication/replication_manager.cpp:154-204 | if an exchange reaches the quorum, that many distinct brokers stand behind it: the leader and senders of acknowledgements in this very exchange |
| `Replication.QuorumsIntersect` | src/replication/replication_manager.cpp:301-316 | two quorums of one membership share a broker, also when a broker lists itself among its peers |
| `ReplicationManagers.ReplicationManager.HandleAck` | src/replication/replication_manager.cpp:276-299 | the new bookkeeping: the follower counted once on a leader, nothing on a follower |
| `ReplicationManagers.ReplicationManager.ReplicateToPeer` | src/replication/replication_manager.cpp:58-88 | one peer: skipped if itself or marked failed; any acknowledgement counted under the slot it names; a short or missing one marks the peer failed |
| `ReplicationManagers.ReplicationManager.ReplicateMessage` | src/replication/replication_manager.cpp:154-204 | the whole loop over the peers equals the fold of the single turns, and the result is whether the quorum was reached |
| `ReplicationManagers.ReplicationManager.ReplicateBatch` | src/replication/replication_manager.cpp:206-227 | the same for a batch, counted at first offset plus length minus one |
| `ReplicationManagers.CountExact` | src/replication/replication_manager.cpp:168-199 | with honest acknowledgements the count after the loop is one more than the number of available peers that acknowledged and were not in the slot’s follower set before, and the follower set is the old one, those that acknowledged, and the leader; also for a slot exchanged before |
| `ReplicationManagers.FailedExact` | src/replication/replication_manager.cpp:186-198 | the peers marked failed after the loop are the old ones and those that were sent the request and did not acknowledge |
| `ReplicationManagers.MajorityIff` | src/replication/replication_manager.cpp:168-203 | an exchange reaches the quorum if and only if the leader and the available acknowledging peers that no earlier exchange of the slot counted are a majority of the replicas |
| `ReplicationManagers.MessageIsBatch` | src/replication/replication_manager.cpp:206-227 | with honest acknowledgements the batch loop and the message loop end in the same state |
| `ReplicationManagers.ReplicationManager.MarkCommitted` | src/replication/replication_manager.cpp:318-332 | the commit index becomes the larger of the old one and the offset |
| `ReplicationManagers.ReplicationManager.BroadcastCommit` | src/replication/replication_manager.cpp:361-389 | exactly the available peers the notice did not reach become failed |
| `ReplicationManagers.ReplicationManager.BroadcastHeartbeat` | src/replication/replication_manager.cpp:403-440 | the leader is elected from the peers suspected so far, and afterwards a peer is marked failed exactly when the heartbeat did not reach it |
| `ReplicationManagers.ReplicationManager.MaybeElectLeader` | src/replication/replication_manager.cpp:124-138 | silent peers are marked failed, the leader view is the elected one, and role and view go on agreeing |
| `ReplicationRequests.HandleReplicationRequest` | src/replication/replication_manager.cpp:229-256 | dropped on a leader and when something is missing; otherwise all records and an acknowledgement of the last offset if the log ended where the leader said, and just the first record and none if it did not |
| `ReplicationRequests.StepsAreHandled` | src/replication/replication_manager.cpp:246-255 | the store steps of one request in the cluster, taken from the first record until the follower is done, are a run that ends with the log and the acknowledgement the call gives |
| `SingleLeader.LogMatching` | src/replication/replication_manager.cpp:154-256 | in every run of the cluster from equal logs whose produces to the partition come one at a time and whose followers begin requests in turn, whatever commit notices are sent, an acknowledgement means that the follower holds the leader’s whole log up to the end of that request |
| `SingleLeader.StepOrderly` | src/replication/replication_manager.cpp:154-256 | every step that keeps to the turns keeps the relation of whole logs: acknowledged requests lie where the leader has them, and a follower that is level with the leader differs from it only by the open request |
| `SingleLeader.BehindForever` | src/replication/replication_manager.cpp:229-256 | in every run that keeps to the turns a follower that is behind stays behind and adds no acknowledgement for the partition |
| `SingleLeader.MissedNeverAcks` | src/replication/replication_manager.cpp:154-256 | a produce that is over without a follower’s acknowledgement is enough for it to acknowledge nothing of the partition again while the turns are kept |
| `SingleLeader.CommitJustified` | src/core/broker.cpp:284-305 | in every run from equal logs that keeps to the turns and in which no commit notice of the partition reaches the leader, every offset up to the leader’s commit index, also of produces reported as failed, is held by a majority with the leader’s record |
| `SingleLeaderRuns.OutOfTurn` | src/replication/replication_manager.cpp:229-256 | without the turns it fails: a run of one leader with log a, b, c after which a follower has b, a, c and has acknowledged the last offset |
| `FollowerReads.FollowerServes` | src/replication/replication_manager.cpp:229-256 | in every run that keeps to the turns, whatever commit notices are sent, each record a follower stored came with one request of the leader; if it acknowledged that request or is still at it, it stores and serves the leader’s record of that offset, and otherwise the record the leader holds at the first offset of the dropped request, which is a later one |
| `SingleLeaderRuns.MissedRecordServed` | src/replication/replication_manager.cpp:391-401 | a run after which a fetch of offset 0 returns a at the leader and b at a follower that missed one record |
| `Election.ElectLeader` | src/replication/replication_manager.cpp:130-137 | the result is the followed broker if it is not suspected, and otherwise the lowest id among the broker itself and its available peers |
| `Election.ElectionSettles` | src/replication/replication_manager.cpp:124-138 | with accurate failure detection the election yields the followed live broker or else the lowest live id |
| `Election.ViewsAfter` | src/replication/replication_manager.cpp:124-138 | for every order and number of elections, each broker that has elected follows what its first election gave |
| `Election.LeaderIff` | src/replication/replication_manager.cpp:124-138 | once all live brokers have elected, a broker leads if and only if it has the lowest live id and was not following another live broker |
| `Election.AgreementIff` | src/replication/replication_manager.cpp:124-138 | all live brokers follow the lowest id if and only if none of them was following some other live broker |
| `Election.FailoverElects` | src/replication/replication_manager.cpp:124-138 | if all followed the same dead leader, all follow the lowest live id and exactly that broker leads |
| `Election.ElectionsStable` | src/replication/replication_manager.cpp:124-138 | further elections change nothing |
| `Election.ConfiguredLeaderLastsIff` | src/replication/replication_manager.cpp:131-137 | if all follow one live leader, there is a leader afterwards if and only if it has the lowest live id |
| `Election.LeaderlessExample` | src/replication/replication_manager.cpp:131-137 | two live brokers following broker 2 end with nobody leading |
| `Election.UnknownLeaderKept` | src/replication/replication_manager.cpp:149-152 | a leader id that is no member is never suspected and is followed for ever |
| `BrokerHandlers.BrokerNode.Produce` | src/core/broker.cpp:278-305 | the log gains the record and the topic’s groups are rebalanced; with honest peers the reply is a success exactly when a majority acknowledged and the count still stands at the second look, and the error names which of the two was missing; after success the record is served and exactly the offsets up to it have become committed, after failure the commit index is unchanged; exactly the peers that did not acknowledge, or that the notice did not reach, are newly marked failed |
| `BrokerHandlers.BrokerNode.HandleProduce` | src/core/broker.cpp:260-306 | forwarded unless leader; the first violated condition names the error and nothing changes; otherwise the log, the groups, what becomes committed, the failed peers and the condition for success are as in the row above |
| `BrokerHandlers.BrokerNode.ProduceBatch` | src/core/broker.cpp:317-332 | the log gains the batch in order and no other log changes; with honest peers it succeeds exactly when a majority acknowledged its last offset and the count still stands at the second look, and otherwise commits nothing; after success the offsets are consecutive, every non-empty record is served and exactly the offsets up to the last one have become committed |
| `BrokerHandlers.BrokerNode.HandleBatchProduce` | src/core/broker.cpp:308-333 | an empty batch is refused first, then it is forwarded unless leader; refusals change nothing; an accepted batch does as in the row above |
| `BrokerHandlers.BrokerNode.HandleFetch` | src/core/broker.cpp:335-367 | success exactly when the offset is committed, present and not empty, with that record; the first violated condition names the error |
| `BrokerHandlers.BrokerNode.HandleGroupFetch` | src/core/broker.cpp:239-249 | only a member with the partition in its share of a group on this topic is served, from the group’s cursor, which does not move; what is served is what a fetch there gives, with the same refusals |
| `BrokerHandlers.BrokerNode.HandleCommitOffset` | src/core/broker.cpp:251-258 | exactly an owner’s commit succeeds; it raises this one cursor to one past the offset if that is higher, 2^64 - 1 excepted, and changes nothing else; any other changes nothing |
| `Records.ReadAt` | src/storage/log_segment.cpp:51-72 | reading at the position of record i returns record i, whatever bytes follow |
| `Records.ReadExact` | src/storage/log_segment.cpp:51-72 | for arbitrary bytes a read returns a record if and only if the encoding of that record stands complete at the position |
| `Records.ScanInvertsWriting` | src/storage/log.cpp:63-82 | scanning the encoding of any record list followed by any proper prefix of a further record returns exactly that list, from any record on |
| `Records.ScanAccounts` | src/storage/log.cpp:63-82 | for arbitrary bytes, the records found re-encode to a prefix of them, past which no record can be read |
| `WireLayouts.RecordLayout` | src/storage/log_segment.cpp:37-49 | a record is the length in eight bytes and the message |
| `LogSegments.Append` | src/storage/log_segment.cpp:37-49 | the two writes add the encoding of the record, and the position returned is where it begins |
| `SparseIndex.IndexExact` | src/storage/log.cpp:70-72 | an entry is in the index exactly when it names a record whose offset is a multiple of 64 or which opens its segment, with that record’s byte position |
| `SparseIndex.IndexSorted` | src/storage/log.cpp:89-91 | the index is strictly sorted by offset |
| `SparseIndex.AppendExtends` | src/storage/log.cpp:84-107 | an append extends the log by the record and the canonical index by the entry the append rule pushes |
| `SparseIndex.CheckpointFor` | src/storage/log.cpp:109-120 | the entry chosen by the upper-bound search is in the offset’s own segment and less than 64 records before it |
| `PartitionLog.Log.constructor` | src/storage/log.cpp:15-27 | opening over any files yields the loaded and replayed log, canonical index, and an empty write-ahead log; over what a crash left of an earlier log, the trace of that log goes on with the crash, every replayed append, every sync and the clearing |
| `PartitionLog.Log.RebuildIndexFromSegment` | src/storage/log.cpp:63-82 | indexes exactly the records of the scan and cuts the file to their encoding |
| `PartitionLog.Log.RecoverWal` | src/storage/log.cpp:173-192 | an empty write-ahead log is left alone; otherwise the segments become the replay of the decoded entries, durable, and the write-ahead log is cleared; each of its file operations is a step of the trace |
| `PartitionLog.Log.ReplayEntries` | src/storage/log.cpp:176-188 | after every turn of the loop the files mirror the replay of the entries read so far, with nothing more durable than when it began |
| `PartitionLog.Log.SyncAll` | src/storage/log.cpp:189 | after every turn the first segments are durable in full and the rest as before |
| `PartitionLog.Log.Append` | src/storage/log.cpp:84-107 | returns the old length, appends the message, keeps the invariant, writes the write-ahead log before the segment, rolls over exactly when the active segment has then reached the maximal size, and syncs exactly when the batch is full |
| `PartitionLog.Log.SyncPending` | src/storage/log.cpp:165-171 | the write-ahead log is synced first, then every segment in turn, and then it is cleared; afterwards everything in the segments is durable and nothing pending |
| `PartitionLog.Log.Flush` | src/storage/log.cpp:138-141 | contents unchanged, nothing pending |
| `PartitionLog.Log.Fetch` | src/storage/log.cpp:109-136 | returns the message at that index of the log for every offset below the next one and nothing above, reading at most 64 records |
| `PartitionLog.Log.ScanFrom` | src/storage/log.cpp:122-135 | the scan reads offset minus checkpoint plus one records and never leaves the checkpoint’s segment |
| `PartitionLog.Log.WalHoldsPending` | src/storage/log.cpp:143-171 | between operations fewer messages than the sync batch are pending, and the write-ahead log decodes to exactly those with their true offsets if and only if none exceeds 16 MiB |
| `PartitionLog.Log.CrashCostsPendingOnly` | src/storage/log.cpp:84-107 | between operations, whatever a crash leaves, all messages but the pending ones come back, in order, and nothing else; so a crash costs fewer messages than the sync batch |
| `Wal.DecodePrefix` | src/storage/log.cpp:173-192 | decoding any byte prefix of a written log yields the complete entries up to the first oversized one |
| `Wal.DecodeMonotone` | src/storage/log.cpp:173-192 | losing a tail of the bytes loses a tail of the entries and changes no other |
| `WireLayouts.EntryLayout` | src/storage/log.cpp:143-152 | an entry is the offset and the length in eight bytes each and the message |
| `Recovery.ReplayExtends` | src/storage/log.cpp:180-188 | replaying true entries extends the log to the end of the write-ahead log or leaves it as it is |
| `Recovery.CrashRecovery` | src/storage/log.cpp:29-192 | whatever prefix of segment and write-ahead bytes survives beyond what was synced, reopening yields exactly the first max(k, w) messages ever appended |
| `Recovery.StepKeeps` | src/storage/log.cpp:84-192 | every single file operation, and a crash with its restart, keeps the invariant of the files |
| `Recovery.EveryCrashPointRecovers` | src/storage/log.cpp:84-192 | crash recovery at every point of any run of file operations with any number of earlier crashes, in the middle of appends, syncs and recoveries too |
| `Recovery.SyncedSurvive` | src/storage/log.cpp:165-192 | no durable record is lost, reordered or invented |
| `Recovery.SyncedWalSavesAll` | src/storage/log.cpp:154-158 | once the write-ahead log is synced every appended message survives, if each fits the limit |
| `Recovery.SyncingLosesNothing` | src/storage/log.cpp:165-171 | from the sync of the write-ahead log until it is cleared, at every moment of the sync of the segments a crash costs nothing, if each message fits the limit |
| `Recovery.RecoversAllWrittenIffFit` | src/storage/log.cpp:179 | all messages whose entries survived come back if and only if the segments hold them already or none of the entries is over 16 MiB |
| `WireRecords.AcceptedFits` | src/protocol/protocol.cpp:33-76 | every message of an accepted request is within the limit of recovery |
| `WireRecords.RequestsRecovered` | src/storage/log.cpp:173-192 | so for a log fed by requests all messages whose entries survived a crash come back |
| `WireRecords.OversizedIsLost` | src/storage/log.cpp:179 | any larger message, appended directly and synced only in the write-ahead log, is gone after a crash |
| `Recovery.RecoveryIdempotent` | src/storage/log.cpp:173-192 | a second crash after any number of replayed entries and a second recovery give the log of one uninterrupted recovery |
| `Recovery.RecoveryIdempotentCleared` | src/storage/log.cpp:189-191 | the same when the second crash comes after that recovery’s sync and clearing |
| `SegmentNames.LoadOrderIsCreationOrder` | src/storage/log.cpp:44 | sorting the file names gives creation order if and only if there are at most ten segments |
| `SegmentReload.ReloadKeepsIff` | src/storage/log.cpp:44-56 | a reload of a log without repeated messages keeps its contents if and only if there are at most ten segments, or eleven of which the last is still empty |
| `LogReload.FreshIsFull` | src/storage/log.cpp:46-52 | a log opened in a directory without segments has one segment, so all but the last are full, which every append keeps |
| `LogReload.SegmentsFitBytes` | src/storage/log.cpp:94-101 | a log that began in an empty directory has at most one segment more than its bytes hold the maximal segment size |
| `LogReload.SmallLogReloads` | src/storage/log.cpp:44-101 | so one of less than ten times that size is reloaded unchanged, whatever it holds |
| `SegmentReload.ElevenReordered` | src/storage/log.cpp:44-56 | records 0 to 10 in eleven segments come back with record 10 in the third place |
| `Keys.LogKeyCollisions` | src/storage/storage_engine.cpp:31-36 | exactly which two partitions share a key: none with non-negative numbers; a negative one collides with one of the topic with a dash appended |
| `Keys.AckKeyInjective` | src/replication/replication_manager.cpp:92-105 | acknowledgements of different records never share a key |
| `Keys.PartitionsForTopic` | src/storage/storage_engine.cpp:96-105 | the sorted numbers read from the keys with the topic’s prefix |
| `Keys.ListingExact` | src/storage/storage_engine.cpp:96-105 | the list is exactly the topic’s partitions if and only if no log of another topic reads as one of its partitions |
| `Keys.StoiReads` | src/storage/storage_engine.cpp:101 | white space, a sign and digits are read, the rest is ignored, and numbers beyond 32 bits are refused |
| `Keys.MistakenExample` | src/storage/storage_engine.cpp:98-101 | partition 2 of topic a-1 is listed as partition 1 of topic a |
| `ConsumerGroups.Rebalance` | src/core/consumer_group_manager.cpp:5-21 | the loop that deals partitions gives each member every n-th of the sorted list |
| `ConsumerGroups.ConsumerGroupManager.Join` | src/core/consumer_group_manager.cpp:23-34 | the new groups, and the member’s own share; empty when the group has another topic |
| `ConsumerGroups.ConsumerGroupManager.Leave` | src/core/consumer_group_manager.cpp:36-47 | the member is gone and the rest share the list passed; the last one out removes the group |
| `ConsumerGroups.ConsumerGroupManager.Commit` | src/core/consumer_group_manager.cpp:69-80 | succeeds exactly for an owner, and only then raises the cursor |
| `ConsumerGroups.ConsumerGroupManager.RefreshTopic` | src/core/consumer_group_manager.cpp:82-88 | every group of the topic is rebalanced and no other one changes |
| `GroupMembers.MembersOverRuns` | src/core/consumer_group_manager.cpp:23-47 | after every run a group exists exactly when somebody joined it and has not left since; its members are exactly those who joined under its topic in this lifetime and have not left, and its topic is that of the first of them |
| `RoundRobin.RoundRobinOwnsIffDistinct` | src/core/consumer_group_manager.cpp:5-21 | each listed partition has exactly one owner, nothing else is owned and loads differ by at most one, if and only if the list names no partition twice |
| `RoundRobin.OwnedExactly` | src/core/consumer_group_manager.cpp:5-21 | whatever the list, the members together own exactly what it names |
| `RoundRobin.DealtInTurn` | src/core/consumer_group_manager.cpp:11-20 | partition i of the sorted list goes to member i modulo their number, after those it already has, and each member has exactly those |
| `RoundRobin.SharesIgnoreOrder` | src/core/consumer_group_manager.cpp:5-21 | the assignment does not depend on the order of the list |
| `ConsumerGroups.OwnershipOverRuns` | src/core/consumer_group_manager.cpp:5-88 | after every run of joins, leaves, commits and refreshes, ownership is exclusive, complete and balanced for the last list if and only if that list has no duplicates |
| `TopicGroups.ListingDistinctIff` | src/storage/storage_engine.cpp:96-105 | the listing of a topic names no partition twice if and only if the numbers that logs of other topics contribute differ from one another and from the topic’s own |
| `TopicGroups.TopicOwned` | src/core/consumer_group_manager.cpp:5-88 | after every run whose last rebalance used the listing of the topic, if no other topic’s log reads as one of its partitions, the members own exactly the topic’s partitions, each exactly one of them, evenly |
| `TopicGroups.LeaveKeepsTopicIff` | src/core/broker.cpp:221-227 | after a leave request the rest own the partitions listed for the group’s topic if and only if the listing of the requested topic names the same ones, and always when the topics are equal |
| `TopicGroups.LeaveForOtherTopic` | src/core/broker.cpp:221-227 | a leave that names topic b leaves a member of a group on topic a with a partition topic a does not have |
| `ConsumerGroups.CursorIsHighestCommit` | src/core/consumer_group_manager.cpp:60-80 | over every run the cursor is the maximum of offset + 1 modulo 2^64 over the successful commits of the group’s lifetime, or 0 |
| `ConsumerGroups.CursorPassesCommits` | src/core/consumer_group_manager.cpp:77-79 | if no commit of the lifetime is of 2^64 - 1, the cursor lies above every committed offset and is one more than one of them, or 0 if there is none |
| `ConsumerGroups.GreatestCommitIgnored` | src/core/consumer_group_manager.cpp:77-79 | a commit of 2^64 - 1 leaves the cursor where it was |
| `ConsumerGroups.CursorMonotone` | src/core/consumer_group_manager.cpp:69-80 | no operation lowers the cursor while the group lives |
| `ConsumerGroups.PassedOnlyByOwner` | src/core/consumer_group_manager.cpp:49-80 | the cursor passes an offset only because, in this lifetime of the group, an owner committed that offset or a later one |
| `ConsumerGroups.PassedByTheOwner` | src/core/consumer_group_manager.cpp:49-80 | if the list had no duplicates, the member whose commit it was is the only one that had the partition in its share |
| `WireReader.GetBytes` | src/protocol/protocol.cpp:20-31 | succeeds exactly when the bytes are there, and the value is the one whose big-endian form they are |
| `WireReader.GetString` | src/protocol/protocol.cpp:33-36 | reads a bounded string, or there is none at this place |
| `WireReader.GetStrings` | src/protocol/protocol.cpp:50-56 | reads a bounded list of strings, or there is none at this place |
| `WireWriter.PutBytes` | src/protocol/protocol.cpp:10-19 | the big-endian bytes of the value, cut to the width |
| `Bytes.BigEndianAt` | src/protocol/protocol.cpp:14-19 | byte i of k is the value shifted right by 8 (k - 1 - i) bits |
| `Bytes.LittleEndianAt` | src/storage/log.cpp:143-152 | byte i is the value shifted right by 8 i bits |
| `WireWriter.WriteRequest` | src/protocol/protocol.cpp:78-94 | the encoder writes exactly the fields of the request’s kind in order |
| `WireLayouts.PartitionLayouts` | src/protocol/protocol.cpp:78-85 | the bytes of the six requests that begin with topic and partition, written out with their codes |
| `WireLayouts.OtherLayouts` | src/protocol/protocol.cpp:86-94 | the bytes of the requests between brokers and of consumer groups |
| `WireLayouts.Limits` | src/protocol/protocol.cpp:7-8 | a request is within bounds exactly when each text it carries has at most 16 MiB and a batch at most 10000 messages |
| `WireLayouts.TextsLayout` | src/protocol/protocol.cpp:30 | a list of strings is the strings one after another, each behind its length |
| `WireLayouts.FrameLayout` | src/protocol/frame.cpp:33-41 | a frame is the length in four bytes and the payload |
| `WireFields.UniqueFields` | src/protocol/protocol.cpp:20-40 | fields of the same kinds that begin the same bytes are the same fields |
| `RequestCodec.ParseRequest` | src/protocol/protocol.cpp:45-76 | a payload is accepted exactly when it is the encoding of some in-bounds request, and then re-encoding the result reproduces it byte for byte |
| `RequestCodec.RoundTripIffInBounds` | src/protocol/protocol.cpp:45-94 | for all 14 kinds, parsing an encoded request returns it restricted to its kind’s fields if and only if it is within bounds |
| `RequestCodec.EncodingsPrefixFree` | src/protocol/protocol.cpp:78-94 | if two in-bounds encodings begin the same bytes they are equal and so are the requests |
| `RequestCodec.AcceptedPrefixFree` | src/protocol/protocol.cpp:45-76 | no proper truncation or extension of an accepted payload is accepted |
| `ResponseCodec.ParseResponse` | src/protocol/protocol.cpp:96-105 | the response whose fields make up the payload, or the malformed response when there is none |
| `WireLayouts.ResponseLayout` | src/protocol/protocol.cpp:107-111 | the bytes of a response, written out |
| `WireLayouts.LongsLayout` | src/protocol/protocol.cpp:110 | the offsets of a response stand one after another in eight bytes each |
| `ResponseCodec.RoundTripIffFits` | src/protocol/protocol.cpp:96-111 | parsing a serialised response returns it if and only if it fits the limits |
| `ResponseCodec.ReserializesIffCanonical` | src/protocol/protocol.cpp:96-111 | serialising a parsed payload reproduces it if and only if its two flag bytes are the ones the serialiser writes |
| `ResponseCodec.SuccessByteTwo` | src/protocol/protocol.cpp:96-111 | a payload with success byte 2 is read as the empty success, which is written back with success byte 1 |
| `ResponseCodec.ResponseIsNoAck` | src/replication/replication_manager.cpp:75-78 | no response is ever read as an acknowledgement |
| `Frames.WriteFrame` | src/protocol/frame.cpp:63-93 | for any partial writes: on success exactly the frame was emitted, on failure a proper prefix; positive writes always succeed |
| `Frames.Consume` | src/protocol/frame.cpp:80-91 | what is left of the buffers is what was not yet sent |
| `Frames.ReadExact` | src/protocol/frame.cpp:14-29 | all the bytes asked for or failure; with positive reads it fails only at the end of the stream |
| `Frames.ReadFrame` | src/protocol/frame.cpp:43-61 | under any chunking takes exactly the next frame; with positive reads it fails only if there is no whole frame |
| `Frames.FrameRoundTripIff` | src/protocol/frame.cpp:33-61 | a frame is read back if and only if its payload is shorter than 2^32 bytes |
| `Frames.FramesInOrder` | src/protocol/frame.cpp:43-61 | concatenated frames come back in order, nothing added or lost |
| `Frames.ReadFrames` | src/protocol/frame.cpp:43-61 | reading frame after frame from a connection returns the payloads in order from the first on under any chunking, and all of them if every call moves a byte |

## Left out

- Sockets, connections, polling, worker threads and signals: only delivery, loss, delay and chunking are modelled.
- Clocks and timeouts: silence of a peer is a parameter, and waiting for the quorum is a second look at the count, whose outcome is a parameter of the handlers and a step of its own in `Cluster`.
- SegmentReload.ReloadKeepsIff: asks for messages that differ from one another, since equal ones can hide the changed order.
- Locks: steps are atomic at the granularity of the locks, and in `Cluster` finer than that for batches.
- Failing file operations, directory iteration and reopening of streams; the crash images above stand for them.
- Crashes of brokers inside `Cluster` and `SingleLeader`: brokers there may stop but not restart with a shorter log.
- ClusterSafety.AcknowledgedIsHeld: asks for consecutive offsets, since an interleaved batch lies at other offsets on the followers; `AcknowledgedIsStored` says where.
- SingleLeader.CommitJustified: asks for a run that keeps to the turns, as `LogMatching` does, and without commit notices to the leader; `OutOfTurn` shows that the turns are needed, and without them only the claims of `ClusterSafety`, `ClusterAgreement` and `CommittedReads` hold.
- ReplicationManagers.MajorityIff: asks for honest acknowledgements, sent by the peer asked and for the slot asked.
- Election.ElectionSettles: asks for accurate failure detection and a followed broker that is a member.
- PartitionLog.Log.Append: asks for fewer than 2^64 records, since the offset counter’s wrap-around is not modelled.
- PartitionLog.Log: the segments are values in a sequence, so sharing of segment objects is not modelled.
- RequestCodec.ParseRequest: the fields of a rejected request are not described, only that it is rejected.
- `follower_ack_offsets_`, `base_offset` and `string_to_request`, which decide nothing.
- Leader endpoints, metadata and redirect texts, the text of assignments, and command-line parsing.
- Consumer group state across a restart, which the broker does not keep.
- Joining and assignment requests at the broker: the group manager’s own operations are modelled.
