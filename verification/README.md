# A verified model of baby-kafka

This project models the storage, commit-log, cluster, client and wire layers of baby-kafka, a small
Kafka written in Go, and proves what each of them keeps over whole histories. `dafny verify
dfyconfig.toml` checks everything.

The parts, each in the system's own terms:

- **Segmented log.** A partition is a directory of `<20 digits>.log` / `<20 digits>.index` pairs plus
  in-memory handles. `Bytes`, `Names`, `Messages` and `Segment` give the byte formats;
  `PartitionModel` the operations on values; `Partition` the stateful objects, every method proved
  against those values; `PartitionRuns`, `PartitionHistory`, `Tiling`, `Batches`, `Replicated`,
  `Overlap`, `TornIndex`, `Appending` and `Recovery` the properties. The main ones: every history of
  appends, rollovers, restarts and crashes behaves like one flat sequence of messages; a crash-free
  history never loses a bit to an int32; and exactly when a torn index, a far byte position or a
  replicated offset break that. A crash that cuts an index entry is harmless iff the reloaded segment
  holds a message and is full, so that the next append starts a fresh one, or the one message that
  goes behind the stump happens to repeat it (`RecoveredIff`). `Failures` has inputs on which recovery
  goes wrong; `Witnesses` shows that the hypotheses of all these theorems can be met.
- **Commit logs.** `Replay` models the `restore` loops and says exactly which records they visit;
  `OffsetManagers` the offsets map and its log; `InterleavedCommits` the two halves of concurrent
  commits.
- **Cluster.** `Assignment` is the round-robin placement; `Brokers` the per-broker objects; `Cluster`
  the brokers with a network that loses, repeats and reorders broadcasts, and producer routing on it.
- **Clients.** `Delivery` is the path from producers through partitions to a consumer group with
  crashes, lost replies and late commits; `Serving` joins its logs to the stored partitions;
  `Consumers` is the consumer object and its back-off; `Locks` the three mutexes under any number of
  goroutines.
- **Wire.** `Frames` is the request and response framing on a byte stream.

Modelling decisions:

- gob, CRC-32 and FNV are library code. Encoders, decoders, checksum and hash are function parameters.
  The only law assumed is about the messages (and the commit keys and values) that a run appends:
  decoding inverts encoding, and the payload length is an int64 (`Storable`, `Encodable`). The
  theorems hold for all functions and all messages with this law; `Witnesses.PlainStorable` gives a
  codec that has it for every message with int64 fields whose length fits.
- Files are keyed by kind and base offset; `Names` proves that the `%020d` names are injective, parse
  back to the base, and sort in base order, and loading goes through the listing of real names.
- A crash is the death of the process: writes survive in program order, cut at any byte. Clocks,
  randomness (the first leader), directory listings, dials and replies are parameters or choices.
- Offsets are int64 in the source. Histories are assumed shorter than 2^63 steps; every int32
  conversion and int32 product is modelled with its wrap-around.
- Go run-time panics reached by the modelled code are outcomes: a negative payload length
  (`NegativeLength`), a zero-length frame (`EmptyFrame`), a negative leader index (`Panicked`).
- Each partition append or read is one atomic step, as its lock makes it.
- A topic create is one atomic step of its broker. The source takes no lock there: two concurrent
  creates of one name at one broker can both pass the exists check, and the second overwrites the
  metadata before its `NewTopic` fails. The cluster results are about brokers that create one topic at
  a time.

Where the code does not do what its documentation suggests, the code is followed:

- `AppendReplicated` is documented to support offsets such as 1, 5, 7; the index cannot find them.
  Lookups work iff the offsets count 0, 1, 2, ... modulo 2^29 and every position is below 2^31
  (`BatchFoundIff`, `SparseBatch`).
- The `restore` loops compare an absolute offset with a per-segment count, so records in segments
  with a positive base are dropped (`VisitsAllIff`, `RolledRecordLost`).
- A crash inside an index entry misaligns the index of its segment for good: of any two neighbouring
  messages appended behind the stump at least one is not found (`TornForGood`, `RecoveredIff`), and
  the first may read as the message whose append died (`TornEntryResurrects`). A full segment with
  messages is spared, because the next append rolls over; a full segment without messages is not,
  because its rollover reopens the same files. A record starting at or beyond 2 GiB is unreadable
  (`AppendReadableIff`).
- `CreateTopic` refuses zero partitions but accepts a negative number, which leaves a topic no key can
  be sent to (`RoutingNeverMisses`).
- Loading an existing but empty partition directory yields no active log (`PartitionLog.Load`), and
  the first append to it would dereference nil; histories start from `NewPartition`.

## Model

| member | source | states |
|---|---|---|
| `Bytes.FromToBigEndian` | core/log.go:103-106 | big-endian decoding inverts encoding for every value that fits the width |
| `Bytes.ToFromBigEndian` | core/log.go:183-186 | big-endian encoding inverts decoding for every byte sequence |
| `Bytes.Int32RoundTrip` | core/log_index.go:62-70 | storing and loading an int32 field gives the value narrowed to 32 bits |
| `Bytes.Int64RoundTrip` | core/log.go:103-106 | storing and loading an int64 length prefix is the identity on int64 |
| `Names.NameRoundTrip` | internal/utils/strings.go:17-25 | parsing the `%020d` log or index name gives back the base offset, for every offset below 2^63 |
| `Names.NameLayout` | core/log.go:35-38 | a segment name is the twenty decimal digits of the base, most significant first, and the extension |
| `Names.NamesInjective` | core/log.go:35-38 | different segment files have different names |
| `Names.NameOrder` | core/partition.go:123-142 | directory order of segment names is numeric order of base offsets, both directions |
| `Names.ListingOrder` | core/partition.go:123-142 | scanning a sorted listing meets the segments in base order, each exactly once |
| `Messages.NewMessage` | core/message.go:23-32 | a new message has the given key, value and time and the checksum of key followed by value |
| `Segment.IndexReadStable` | core/log_index.go:79-99 | growing an index file never changes a successful lookup |
| `Segment.ReadAtByteStable` | core/log.go:178-193 | growing a log file never changes what a complete record reads as |
| `Segment.EntryFound` | core/log_index.go:62-99 | an entry written at its own stride place is found there, with the narrowed position |
| `Segment.FoundIffEntry` | core/log_index.go:79-99 | a lookup finds a position iff the whole entry stands at its stride place |
| `Segment.RecordFound` | core/log.go:103-111 | a record reads back as its message, or as a checksum error if the checksum is wrong |
| `Segment.RecordLayout` | core/log.go:103-111 | a record is the eight-byte big-endian length and then the encoded message |
| `Segment.ReadAtByteIff` | core/log.go:178-193 | a position reads as a message iff a length prefix stands there, its payload lies in the file and decodes to the message, and the message's checksum is that of its key and value |
| `Segment.PositionKept` | core/log.go:113-119 | the index gives back a record's position iff the position is below 2^31 |
| `Segment.HoldsExtended` | core/log.go:93-124 | an append makes the new message readable and keeps all earlier ones readable |
| `PartitionModel.ReadsFlatSequence` | core/partition.go:197-209 | reading any offset of a partition is reading the flat sequence: the message or its checksum error inside the log, not-found outside |
| `PartitionModel.GrowthInvisible` | core/log.go:63-90 | orphan bytes that complete no index entry change no stored message |
| `PartitionModel.RecordStored` | core/log.go:93-124 | a whole record and entry store exactly one more message, all segments tiling as before |
| `PartitionRuns.RolloverKeeps` | core/partition.go:212-229 | rollover keeps the represented sequence, also when the active log has orphan bytes but no messages and is reopened, and leaves a torn index behind when the segment is full |
| `PartitionRuns.AppendKeeps` | core/partition.go:169-181 | an append extends the flat sequence by its message; reported offset plus segment base is the old length |
| `PartitionRuns.AppendReadableIff` | core/log.go:113-119 | an appended message can be read back iff its byte position is below 2^31; from 4 GiB on, where positions wrap around, if no other place of the log reads as it |
| `PartitionRuns.ListingExists` | core/partition.go:123-126 | every stored directory has a sorted listing of its names, so loading is always possible |
| `PartitionRuns.LoadKeeps` | core/partition.go:116-155 | loading exposes exactly the completely indexed messages, handles in tiling order; the result is ready for appends iff the last index ends on an entry boundary or the last segment is full and not empty |
| `PartitionRuns.LoadedAppendIff` | core/partition.go:116-181 | the append after a load keeps the partition standing for its messages and the new one iff the last index ended on an entry boundary or the last segment was full and not empty |
| `PartitionRuns.CrashStored` | core/log.go:93-124 | a crash after any prefix of an append's writes, or between the two file creations of a rollover, leaves exactly the completely indexed messages, on an entry boundary iff the cut was not inside an entry |
| `PartitionRuns.CrashReady` | core/partition.go:116-229 | after the reload the partition is ready for appends iff the crash cut no index entry, or cut the one of an append that filled a segment with messages |
| `PartitionHistory.StepKeeps` | core/partition.go:116-229 | every append, restart and crash keeps the partition standing for its flat sequence and ready, torn entries of segment-filling appends included |
| `PartitionHistory.HistoryRefines` | core/partition.go:169-209 | at every moment of every sound history, for every rollover limit, each offset reads the message appended there and not-found outside |
| `PartitionHistory.HistoryChecksums` | core/message.go:34-46 | at every moment of every sound history an offset reads as its message iff the checksum is that of key and value, and as a checksum error otherwise |
| `PartitionHistory.EarlierReadsStable` | core/partition.go:169-209 | no later append, rollover, restart or crash changes what a readable offset reads |
| `PartitionHistory.CrashInvisible` | core/log.go:63-124 | a restart or a crash before the index entry is complete changes no read at any offset; a crash after it reads as the completed append |
| `PartitionHistory.ReportedOffset` | core/log.go:113-123 | the reported relative offset plus its segment base is the absolute offset at which the message is then read |
| `PartitionHistory.CrashFreeIsSound` | core/log_index.go:79-84 | in every crash-free history with limit at most 2^31, every stored position is below the limit and at least 8 times its relative offset, so no cast or product overflows and every such history is sound |
| `Tiling.HistoryTiled` | core/partition.go:212-220 | at every moment the segment list tiles `[0, N)`, each base the previous base plus its count |
| `Overlap.InStepOnlyAtZero` | core/log_index.go:62-99 | two consecutive entries standing 1 to 7 bytes behind their stride places are never both read back, except offset 0 behind seven bytes of itself |
| `TornIndex.TornForGood` | core/log_index.go:62-99 | behind 1 to 7 bytes of the entry of any offset, of any two neighbouring later entries at least one is not found |
| `TornIndex.TornInHalf` | core/log_index.go:62-99 | behind exactly four bytes of an entry no later entry is found |
| `Recovery.RecoveredIff` | core/log.go:63-124 | after a crash at any byte of an append, a reload and any further appends, all are found at their offsets and positions iff the crash cut no index entry, or the reloaded segment is full and not empty, or exactly one goes behind the stump and repeats it; while they stay behind the stump, one of every two neighbours is lost |
| `Recovery.ReadableIff` | core/partition.go:116-209 | under that condition all further appends read back at the end of the flat sequence, and only then when no other place of the log reads as one of them |
| `Recovery.HistoryRecoversIff` | core/partition.go:116-229 | both at every moment of every sound history; the last case is out when two or more appends stay in the segment |
| `Appending.ReadyReads` | core/partition.go:169-209 | any appends to a ready partition, across any rollovers, read back at the end of the flat sequence |
| `Failures.TornEntryResurrects` | core/log_index.go:44-75 | a crash in the second half of a segment's first index entry makes the next offset read the message whose append died instead of the one appended later, also when the segment is full |
| `Failures.TornYetReadable` | core/log_index.go:62-99 | a torn index that no read shows: a 16 MiB message lost to a seven-byte stump and sent twice more reads back twice, both times from the lost record |
| `Witnesses.CrashHistory` | core/log.go:63-124 | for every codec, storable messages, limit up to 2^31 and clean cut there is a sound history that appends them and crashes there |
| `Witnesses.SoundHistoryExists` | core/partition.go:116-209 | concrete sound history of two appends and a record cut in two |
| `Witnesses.ChecksumCases` | core/message.go:34-46 | concrete instance of both outcomes of the checksum |
| `Witnesses.Resurrection` | core/log_index.go:44-75 | concrete instance of the resurrected message, different from the appended one |
| `Witnesses.TornHistory` | core/partition.go:212-229 | for every message and limit that two records fill, a sound history in which the second index entry is torn at any byte and a third append goes on |
| `Witnesses.TellingReads` | core/log_index.go:62-99 | concrete instance, for every stump, in which one of two later appends does not read back |
| `Witnesses.RolledInstance` | core/offset_manager.go:179-180 | concrete instance of a readable record whose key is missing after replay |
| `Partition.LogIndex.Append` | core/log_index.go:62-75 | appends exactly one 8-byte entry to the index file and counts it |
| `Partition.LogIndex.Read` | core/log_index.go:79-99 | the step-by-step lookup equals `IndexRead` on the file's bytes, error cases included |
| `Partition.Log.Append` | core/log.go:93-124 | files and fields become those of the model's append at the current count, other files stay, the old count is returned |
| `Partition.Log.AppendReplicated` | core/log.go:131-158 | for every offset, negative ones included, files and fields become those of the model's append at that offset |
| `Partition.Log.ReadAt` | core/log.go:162-173 | the lookup through index and log equals the model's read of the handle |
| `Partition.Log.ReadAtBytePos` | core/log.go:178-193 | the length-prefixed read equals `ReadAtByte`, error cases included |
| `Partition.LoadLog` | core/log.go:63-90 | opens or creates both files and takes size, base and count from them |
| `Partition.NewLog` | core/log.go:31-61 | loads an existing log file, otherwise creates both files empty |
| `Partition.PartitionLog.constructor` | core/partition.go:54-81 | a new partition is one base-0 segment, loaded if its log exists and empty otherwise, a zero limit replaced by the default |
| `Partition.PartitionLog.Append` | core/partition.go:169-181 | new state and returned offset are those of the model's append |
| `Partition.PartitionLog.AppendReplicated` | core/partition.go:183-195 | rolls over when full, then writes record and entry at the given offset; the state is the model's for every offset from -1 up |
| `Partition.PartitionLog.Roll` | core/partition.go:212-223 | adds a segment at the log end and makes it active |
| `Partition.PartitionLog.ReadAt` | core/partition.go:197-209 | the scan over segments equals the model's read |
| `Partition.PartitionLog.Load` | core/partition.go:116-155 | loading from a listing gives the model's loaded partition, and no active log when the listing has no log file |
| `Partition.PickActive` | core/partition.go:238-246 | the first log with the greatest base, none for an empty list; the last one on logs in base order |
| `Batches.PlainIsNumbered` | core/log.go:93-158 | plain appends are replicated appends at the log's own running count |
| `Batches.SameIndexIff` | core/log_index.go:62-75 | two batches of the same messages leave the same index bytes iff their offsets agree as int32 |
| `Replicated.FoundIff` | core/log.go:131-158 | a replicated message is found at its own offset and position iff its offset equals its place modulo 2^29 and its position is below 2^31, or another entry answers for it, which needs more than 4 GiB |
| `Replicated.BatchFoundIff` | core/log_index.go:77-99 | a replicated batch of any size is found as a whole iff its offsets are 0, 1, 2, ... modulo 2^29 and all positions are below 2^31 |
| `Replicated.PlainStateIff` | core/log.go:131-158 | from any log state and for all offsets, a replicated batch leaves the state of plain appends iff the offsets continue the count modulo 2^32 and the last one exactly |
| `Replicated.SparseBatch` | core/log.go:126-130 | concrete: offsets 1, 5, 7 are not found at all, a first offset of 2^29 is |
| `Replay.Restore` | core/offset_manager.go:176-208 | the loop over segments computes the replay of the partition's handles |
| `Replay.RestoreFrom` | core/metadata_manager.go:289-320 | the inner loop replays from base to count, skipping undecodable records and stopping at unreadable ones |
| `Replay.RestoreExact` | core/offset_manager.go:164-212 | restore is the last-write-wins fold over exactly the decodable records with base <= o < count of each segment, up to its first corrupt record |
| `Replay.VisitsAllIff` | core/metadata_manager.go:286-322 | every record of an intact log is visited iff none sits in a segment with positive base |
| `Replay.RestoreEqualsLive` | core/offset_manager.go:164-212 | restore equals the live map when every record sits in the base-0 segment, for any key and value type |
| `Replay.RolledRecordLost` | core/offset_manager.go:179-180 | concrete: with a rollover between two records, the second one's key is missing after restore |
| `OffsetManagers.OffsetManager.UpdateOffset` | core/offset_manager.go:94-109 | the nested map changes at exactly one three-level key |
| `OffsetManagers.OffsetManager.CommitOffset` | core/offset_manager.go:111-117 | map update and one appended record with the checksum of its key and value, or no record when it cannot be persisted |
| `OffsetManagers.OffsetManager.Offset` | core/offset_manager.go:119-132 | the lookup finds exactly the stored entries |
| `OffsetManagers.ReplayIsLive` | core/offset_manager.go:134-162 | folding the decoded records of any commit sequence gives the map the commits left in memory |
| `OffsetManagers.RestartKeepsCommits` | core/offset_manager.go:79-92 | at every moment of every sound history of commits, restarts and clean crashes, restore gives the live map, if every record sits in the base-0 segment |
| `InterleavedCommits.QuiescentReplay` | core/offset_manager.go:94-117 | for every interleaving without same-key overlap or failed append, with crashes anywhere, replay equals memory whenever no commit is half-way |
| `InterleavedCommits.ReplayedWasCommitted` | core/offset_manager.go:111-162 | with overlaps and failed appends allowed, every replayed value was committed for its key |
| `InterleavedCommits.OverlapDiverges` | core/offset_manager.go:111-117 | from every state with a half-way commit of a key, another commit of the key with another value can end at rest with replay and memory different |
| `Assignment.CreateAndAssign` | core/metadata_manager.go:164-195 | partition i gets leader (start+i) mod n and the following replicas in int32 arithmetic; it panics iff some leader index is negative |
| `Assignment.LeadersRoundRobin` | core/metadata_manager.go:178-183 | without overflow partition i has index i, leader (start + i) mod n and that broker's address |
| `Assignment.ReplicasRoundRobin` | core/metadata_manager.go:186-190 | without overflow replica j of partition i is broker (start + i + j + 1) mod n |
| `Assignment.PartitionsResponsibleFor` | core/metadata_manager.go:235-251 | exactly the partitions whose leader or replicas include the broker, in order |
| `Assignment.ResponsibleIff` | core/metadata_manager.go:235-251 | a broker is responsible for exactly the partitions whose leader is at most rf places before it on the ring |
| `Assignment.BalancedLeadership` | core/metadata_manager.go:164-195 | every broker leads floor(P/n) or ceil(P/n) partitions, for every n, P and start without overflow |
| `Assignment.ReplicaPlacement` | core/metadata_manager.go:178-192 | leader and replicas of a partition are rf+1 distinct brokers |
| `Assignment.ResponsibilityConserved` | core/metadata_manager.go:202-251 | responsibilities summed over all brokers are P * (rf + 1) |
| `Assignment.PanicIff` | core/metadata_manager.go:178-183 | the exact broker count, start and partition count at which an overflowing leader index panics |
| `Assignment.PartitionForCycles` | internal/utils/hash.go:9-14 | hashes below the partition count are their own partition, and partitions repeat with the hashes |
| `Assignment.BalancedRouting` | internal/utils/hash.go:9-14 | of any consecutive hashes every partition gets floor or ceil of their number by the partition count |
| `Brokers.BrokerNode.CreateTopic` | core/broker.go:192-218 | refuses zero partitions, existing topics and too many replicas; otherwise sets metadata and hosted partitions together, or metadata alone when the topic's folders cannot be made |
| `Brokers.BrokerNode.InsertMetadata` | core/broker.go:295-321 | metadata is overwritten under the update's keys, unknown topics it names are created with the partitions the broker is responsible for, known topics keep theirs; a topic whose folders cannot be made ends the call with the metadata set and only topics before it created |
| `Cluster.Agreement` | core/broker.go:281-321 | after any creates and any lost, repeated or reordered deliveries, brokers that know a topic hold identical metadata and host exactly their partitions, if each topic has one creator |
| `Cluster.CreateReaches` | core/broker.go:281-293 | after a create a delivery to any other broker is possible and tells it the topic with the creator's metadata |
| `Cluster.BroadcastCompletes` | core/broker.go:281-293 | after a create from any state, deliveries of its broadcasts lead to every broker knowing the topic with the creator's metadata |
| `Cluster.HostedByRing` | core/broker.go:281-321 | a broker that knows a topic hosts exactly the partitions whose leader is at most rf places before it on the ring |
| `Cluster.TwoCreatorsDisagree` | core/broker.go:192-218 | concrete run: two creators and a lost broadcast leave different metadata |
| `Cluster.BrokerWithLeaderPartition` | core/client/producer.go:65-76 | the search returns the leader of the first entry with the partition's index |
| `Cluster.RoutingNeverMisses` | core/client/producer.go:148-176 | once a create reached every broker, every key routes to a partition hosted by its leader iff the partition count is positive |
| `Cluster.EveryKeyArrives` | core/client/producer.go:148-176 | for any brokers and any assigned metadata with a positive partition count, a run in which every broker learns the topic and every key reaches its partition |
| `Cluster.EveryPartitionRouted` | internal/utils/hash.go:9-14 | every partition of a topic is the one of some hash, its own number among them |
| `Delivery.StepKeeps` | core/client/consumer.go:109-155 | every step keeps commits, requests and positions within the delivered prefix |
| `Delivery.AtLeastOnce` | core/client/consumer.go:333-423 | in every history, every offset below the committed one was put on a channel with the logged message |
| `Delivery.DeliveredPrefix` | core/client/consumer.go:109-155 | the delivered offsets of a partition always form a prefix of its log |
| `Delivery.StepFifo` | core/client/producer.go:178-206 | every step keeps what a producer has applied and under way for a key in the order it was issued, whatever fails, is rejected or is lost with a connection |
| `Delivery.PerKeyOrder` | core/client/producer.go:148-206 | what one consumer run delivers for a producer and key is a contiguous stretch of that producer's applied sends of the key, and follows the order in which they were issued |
| `Delivery.NothingLost` | core/client/producer.go:148-206 | without failed, rejected or lost sends, exactly what a producer issued under a key is applied or under way, in order |
| `Delivery.SentIsStored` | core/client/producer.go:178-206 | from any state a send can be applied, behind what its connection already carried and nothing else |
| `Delivery.ResumesAtCommitted` | core/client/consumer.go:445-490 | a run that fetched the stored offset of a partition delivers from exactly that offset on, without repetition or gap |
| `Delivery.CommitTakesEffect` | core/client/consumer.go:389-423 | from any state with a commit due, the commit can be applied and a restarted consumer begin right after the delivered message |
| `Serving.PollServed` | core/broker.go:244-250 | a poll at an offset of a stored partition gets the record of the log there, and not-found at its end and beyond, at every moment of every sound history |
| `Serving.ProduceBacked` | core/broker.go:236-242 | a completed append, its reply sent or lost in a crash, is one produce step, and the logs stay what storage reads as |
| `Serving.RestartBacked` | core/partition.go:116-155 | a restart or a crash before the index entry is complete leaves the logs what storage reads as |
| `Serving.StoredAtLeastOnce` | core/client/consumer.go:333-423 | every offset below the committed one reads from the files as a message whose record was put on a channel |
| `Consumers.Consumer.Poll` | core/client/consumer.go:333-387 | only a poll that returns a message moves the offset, by one, and reports the offset read; errors report -1, the offset asked for, or 0 |
| `Consumers.Consumer.FetchOffset` | core/client/consumer.go:445-490 | a stored offset is returned and replaces the position of that partition only; otherwise the error is returned and nothing changes |
| `Consumers.Consumer.RunOnce` | core/client/consumer.go:121-149 | success iff an answer came uncancelled, idle iff nothing is stored there, failure iff the connection or request failed uncancelled; the message or the error with its offset is on the channel, and only a message is followed by the commit of the next offset |
| `Consumers.Consumer.Loop` | core/client/consumer.go:115-149 | over any replies, the commits are the offsets after the answers in order, and the loop sleeps the poll interval after an answer, the sleep interval after not-found, and min(2^k, limit) seconds after a failure, k counting the failures since the last answer |
| `Consumers.TurnRefines` | core/client/consumer.go:109-155 | every turn of the loop is a run of the delivery machine with the same deliveries, commit request and position |
| `Consumers.FetchRefines` | core/client/consumer.go:445-490 | a successful fetch before the run is a fetch step of the delivery machine, at the committed offset |
| `Consumers.BackoffClosedFormIff` | core/client/consumer.go:522-534 | with int64 durations, after k errors since the last success the delay is min(2^k, limit) seconds for every history iff the limit is at least 1 and twice the limit is a duration |
| `Consumers.BackoffAfterSuccess` | core/client/consumer.go:522-534 | after a success and k failures the delay is min(2^k, limit) seconds, whatever came before |
| `Consumers.ErrorSleeps` | core/client/consumer.go:115-149 | the loop sleeps exactly those delays on errors, for every limit |
| `Locks.MutualExclusion` | core/client/consumer.go:195-274 | in every reachable state the mutexes exclude, readers and writer never coexist, and the holder of connMtx does not wait for metaMtx |
| `Locks.LoadedAndDialledOnce` | core/client/consumer.go:195-223 | metadata is loaded at most once, each partition dialled successfully at most once, and connection and writer maps have equal keys outside connMtx |
| `Locks.MetadataFinal` | core/client/consumer.go:225-274 | once loaded the metadata never changes |
| `Locks.MetadataFromReply` | core/client/consumer.go:225-274 | the metadata in use is what some goroutine's metadata request brought |
| `Locks.ReturnsOnlyOnFailure` | core/client/consumer.go:195-316 | in every run a call ends without a connection iff a dial or request failed or the metadata lacks the partition; otherwise it goes on to be connected |
| `Locks.CachedConnectionUsed` | core/client/consumer.go:195-223 | in every reachable state a goroutine whose partition has a connection gets it without a dial |
| `Locks.NoDeadlock` | core/client/consumer.go:292-316 | in every reachable state with an unfinished call some goroutine can move, even if waiting writers hold back new readers, for any number of goroutines |
| `Locks.CallsComplete` | core/client/consumer.go:292-423 | without new calls every run ends within a bound fixed by the program positions |
| `Frames.Conn.WriteRequest` | core/proto/proto.go:102-127 | appends exactly the request's frame to the stream |
| `Frames.Conn.WriteFrame` | core/proto/proto.go:71-85 | appends exactly the response's frame to the stream |
| `Frames.FrameLayout` | core/proto/proto.go:71-127 | a request is a big-endian length counting the type byte, the type and the payload; a response the length and the payload |
| `Frames.Conn.ReadFrame` | core/proto/proto.go:51-69 | consumes one frame and returns its type and payload, or fails |
| `Frames.Conn.ReadResponse` | core/proto/proto.go:130-146 | consumes one response frame and returns its decoded payload, or fails |
| `Frames.Conn.ReadAllFrames` | core/server.go:139-149 | the read loop returns all requests up to the first failure and whether that is the end of the stream or the panic of an empty frame |
| `Frames.RequestRoundTripIff` | core/proto/proto.go:51-127 | a request survives the wire iff its type fits a byte and its length the length field |
| `Frames.StreamRoundTrip` | core/proto/proto.go:51-127 | reading the concatenated frames of any encodable requests returns the same list and leaves no byte |
| `Frames.NoPrefixDecodes` | core/proto/proto.go:51-69 | no proper prefix of a frame decodes as a frame |
| `Frames.CutStream` | core/proto/proto.go:51-69 | a stream cut anywhere yields exactly the requests whose frames arrived whole, and no panic |
| `Frames.ResponseRoundTripIff` | core/proto/proto.go:71-146 | a response survives the wire iff its length fits the length field |
| `Frames.ResponseValueRoundTrip` | core/proto/proto.go:71-146 | a response whose payload fits and decodes arrives as its value and leaves the bytes behind it |

## Left out

- Sockets, dialling, deadlines, the accept loop and request dispatch: I/O plumbing; a request succeeds,
  fails, or is applied with its reply lost.
- gob, CRC-32 and FNV internals: library code, kept as functions with the laws named above.
- The replica fetch loop and `StartReplication`: the server does not dispatch the fetch request.
- Disk write failures followed by continued use of the same process: only crash and reload is modelled.
- Power failures that reorder or lose completed writes: a crash here is the end of the process.
- Stray files in a partition directory, path validation, config loading and logging.
- Concurrent readers that share one file position: appends and reads of a partition are atomic steps.
- Metadata manager as an object of its own: its map lives in `BrokerNode`, its commit log and restore
  are the generic `Replay` and `RestartKeepsCommits`.
- Broker restart inside the cluster machine: topics and metadata reload is covered per partition and
  per commit log, not as a cluster step.
- `Topic.nextPartition` and `getNextLogname`: they have no callers.
- `Names.NameRoundTrip`: signs and blanks that `Sscanf` would also accept are not modelled, because
  segment names are digits only.
- `Partition.Log.ReadAtBytePos`: a length prefix beyond what memory can hold makes the allocation panic
  in the source; here the read fails as it would with enough memory, because the file is shorter.
- `Partition.PartitionLog.AppendReplicated`: after an offset below -1 only the directory contents are
  stated, because the log then has a negative count and the next rollover would name a file by it.
- `Replicated.PlainStateIff`: the wrap of the next offset after offset 2^63 - 1 is not modelled, because
  it does not change which batches leave equal states.
- `Brokers.BrokerNode.CreateTopic`: the outcome without folders is an outcome of the method only, as is
  that of `InsertMetadata`; the cluster machine has creates and deliveries that succeed.
- `Cluster.Agreement`: creates of one name that overlap in time at one broker are not covered, because
  a create is one atomic step here.
