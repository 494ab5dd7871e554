# A verified model of the FDB to Kafka bridge

The bridge polls change replies from FoundationDB, serializes them as Protocol Buffers records, publishes them to one
Kafka topic, saves a cursor and acknowledges. This project models that path and proves what it promises, above all
that nothing below the acknowledged watermark is ever missing from the topic.

## The parts

| files | content |
|---|---|
| `Prelude`, `Errors` | value types; the exceptions the bridge tells apart |
| `Varint`, `WireFormat`, `Utf8`, `Messages` | the Protocol Buffers encoding of the record schema, as functions on bytes |
| `Schema` | the schema as a table, and an encoder driven by it |
| `Serializer`, `Deserializer`, `VersionGroup` | input checks, the serialize functions, strict reading, the greedy slicer |
| `Strinc` | prefix ranges |
| `Workload`, `WorkloadWrites`, `WorkloadVerifier` | what the demo writes and expects; its whole-stream checker |
| `Stream` | the source stream as events, and which logs of redelivered events are in order |
| `Protocol`, `ProtocolSafety`, `RunTheorems` | the delivery protocol as a transition system, its invariant, its theorems over all runs |
| `Durability`, `Atomicity`, `Scenarios` | the cursor against the watermark; transactions and retries; runs in which a promise fails |
| `Environment` | the outside world: FoundationDB, librdkafka, the file system, and the history of the run |
| `Replies`, `Listener`, `Producer`, `CursorFile`, `Pipeline`, `Bridge` | the classes of the source, imperatively |
| `Moves` | one lemma for each action the classes take |

The classes follow the source method by method. Beside their own fields, `World` keeps a history: the state of the
protocol and the actions that led to it. Every flag that a method sets and every call that it makes is recorded as an
action, which the verifier requires to be enabled. So each run of the classes is a run of the protocol, and the
theorems over all runs apply to it: that is how `Bridge.Run` can promise what it does.

`World` also counts its `faults`: the calls into FoundationDB, librdkafka and the file system that raised, timed out or
reported an error. Where a contract says "with no fault outside", the count has not changed; so safety is promised
whatever happens, and success whenever nothing goes wrong. It keeps the errors of the commits and acknowledgements,
which the contracts on retries speak of, and the kinds of producer ever opened.

## What is assumed of the outside

- The stream is an arbitrary finite sequence of version groups with ascending non-negative versions; a reply brings
  the groups after the position up to some later watermark. A consume that raises has not advanced the position
  (`Scenarios.LostReply` shows that this is needed). A position below the retention watermark is served nothing.
- An acknowledgement is cumulative and acknowledges the current position; one that raises may have taken effect.
- librdkafka delivers its queue in order and, after giving a message up, none behind it; the same holds for what
  reaches the broker when a producer is closed or its process dies, and no later than that. A transaction commits
  whole or not at all; once its commit was requested it may still land during an abort, a close or a crash.
- A fatal error may be reported during any call into librdkafka. Produce raises `KafkaException` or `BufferError`, the
  transaction calls `KafkaException`.
- Any call may raise before or after its effect, except where said otherwise above. Times, timeouts and the number of
  retries a deadline allows are arbitrary.
- A renamed directory entry may or may not survive a power loss until the directory has been fsynced; a file renamed
  without an fsync may come back torn. There is one bridge per stream.

## Findings

- The durable cursor can fall behind the acknowledged watermark although directories can be fsynced. If the fsync of
  the directory fails and the pipeline is rebuilt (or the process restarts) for another reason, the listener resumes
  from the cursor that is visible and acknowledges it again; a power loss may then bring the older one back, from which
  the consumer is refused as too old (`Scenarios.CursorFallsBehind`). `Durability.NeverBehindExactly` gives the exact
  condition on a run: no acknowledgement is restored from a cursor that an older one could still replace.
- `verify_workload` can never accept more than 10^8 operations, because keys are read back through exactly eight
  digits, while longer indices are written with more (`WorkloadVerifier.VerifyWorkload` states the bound as part of an
  if-and-only-if).
- A group of exactly 2^32 mutations passes the checks on its elements and is then refused by the range of its version
  end (`VersionGroup.Group` follows the code).
- The documentation of `BridgePipeline.step` calls a transactional producer reusable after an abort. `Bridge` replaces
  it nevertheless, since the reply stays unacknowledged; the model follows the code.
- Retrying cannot get past a reply with a mutation larger than the record budget: each rebuild meets it again. The
  theorems about recovery speak of refusals that come from the bridge's own state, and this is not one.
- The round trips hold for messages of up to 2^31 - 1 bytes, the limit of the format; larger ones do not parse.

## Model

| member | source | states |
|---|---|---|
| `RunTheorems.AtLeastOnce` | src/fdb_kafka_bridge/bridge/pipeline.py:1-17 | in every state of every run (any interleaving of steps, errors, rebuilds, crashes, power losses, restarts) every mutation and version end of every group up to the acknowledged watermark is in the log, and so is everything up to any cursor the disk holds or can bring back |
| `RunTheorems.GapFreeOrder` | src/fdb_kafka_bridge/bridge/pipeline.py:223-259 | a reader of the log who keeps the first of each (version, sequence_no) has, in order and without gap, the mutations of a prefix of the source stream that reaches at least to the watermark |
| `RunTheorems.VersionEndsAreTrue` | src/fdb_kafka_bridge/cdc/listener.py:224-227 | every version end in the log counts its group (0 where there is none), and every mutation up to its version stands before it |
| `RunTheorems.AcknowledgedAfterDelivery` | src/fdb_kafka_bridge/bridge/pipeline.py:209-259 | an acknowledgement can only be issued once its whole reply, and everything before it, is in the log |
| `RunTheorems.RunKeepsInv` | src/fdb_kafka_bridge/bridge/pipeline.py:209-344 | one invariant over log, disk, listener, producer and flags holds after every run |
| `ProtocolSafety.ActionKeeps` | src/fdb_kafka_bridge/bridge/pipeline.py:209-344 | every action of the protocol keeps that invariant and never shortens the delivered prefix |
| `ProtocolSafety.QueueDelivers` | src/fdb_kafka_bridge/kafka/producer.py:362-383 | delivering any in-order part of the queue extends the log to the next part of the reply, however the replay was cut |
| `ProtocolSafety.TransactionLands` | src/fdb_kafka_bridge/kafka/producer.py:274-301 | a transaction that takes effect brings the log to the end of its reply |
| `ProtocolSafety.LeavesKeep` | src/fdb_kafka_bridge/kafka/producer.py:446-501 | whatever part of its queue, or of an already requested commit, an abandoned producer still delivers, the log stays in order |
| `Stream.ScanSlice` | src/fdb_kafka_bridge/bridge/pipeline.py:12-17 | a replay that begins no later than what has been delivered, and ends anywhere, is accepted and takes the log to the later of the two ends |
| `Stream.FirstSeenIsPrefix` | src/fdb_kafka_bridge/bridge/pipeline.py:223-226 | an accepted log, reduced to first occurrences, is exactly the mutations of the prefix it has got to |
| `Stream.VersionEndIsTrue` | src/fdb_kafka_bridge/cdc/listener.py:224-227 | in any accepted log a version end is true, and nothing up to its version is missing before it |
| `Stream.ReplyShape` | src/fdb_kafka_bridge/cdc/listener.py:250-287 | a reply is complete groups: version ends strictly ascend, the last is that of the watermark, and their totals add up to the number of native mutations |
| `Durability.NeverTorn` | src/fdb_kafka_bridge/bridge/pipeline.py:455-458 | no crash or power loss leaves a cursor file cut off in the middle |
| `Durability.AcknowledgedAfterSave` | src/fdb_kafka_bridge/bridge/pipeline.py:314-324 | every acknowledgement comes after its own cursor is in place, and durable where directories can be fsynced |
| `Durability.RestoreKeepsExactly` | src/fdb_kafka_bridge/cdc/listener.py:164-179 | restoring the acknowledgement of a loaded cursor keeps every recoverable cursor at or above the watermark if and only if nothing older than the loaded cursor can still come back |
| `Durability.NeverBehindExactly` | src/fdb_kafka_bridge/bridge/pipeline.py:455-476 | where directories can be fsynced, over every run: no recoverable cursor is ever behind the watermark if and only if every restored acknowledgement came from a cursor that nothing older could replace any more; then no open listener stands before the watermark |
| `Scenarios.CursorFallsBehind` | src/fdb_kafka_bridge/bridge/pipeline.py:460-476 | a run that breaks that condition: a visible but not yet durable cursor is resumed and acknowledged, the power fails, the old cursor returns, and nothing can be consumed from it any more |
| `Scenarios.LostReply` | src/fdb_kafka_bridge/cdc/listener.py:214-217 | why a consume that raises must not have advanced the position: a run in which one does, and a group below the watermark was never in the log |
| `Atomicity.LogIsWholeReplies` | src/fdb_kafka_bridge/bridge/pipeline.py:240-249 | with transactional producers the log is a concatenation of whole replies |
| `Atomicity.CommitOutstandingExcludes` | src/fdb_kafka_bridge/bridge/pipeline.py:240-297 | while a commit is outstanding its transaction holds the whole reply and is open or has landed, and nothing polls, produces, aborts, saves, acknowledges or rebuilds |
| `Atomicity.PublishedOnce` | src/fdb_kafka_bridge/bridge/pipeline.py:209-259 | each record of a polled reply is accepted at most once and in order, all of them exactly once before an acknowledgement; that one is of the reply's own position, and succeeds at most once |
| `Pipelines.BridgePipeline.Step` | src/fdb_kafka_bridge/bridge/pipeline.py:175-221 | from a live state: a live state and exactly as many records accepted as it returns, or an error, which asks for a rebuild exactly when the state cannot be resumed; with no fault outside it delivers, unless the reply is one that cannot be converted; no abort after errors that only call for a retry; a step that resumes polls nothing and hands Kafka nothing |
| `Pipelines.BridgePipeline.Deliver` | src/fdb_kafka_bridge/bridge/pipeline.py:209-221 | one poll, and with no fault outside the reply is delivered, saved and acknowledged, unless it cannot be converted; an error asks for a rebuild exactly when the state cannot be resumed |
| `Pipelines.BridgePipeline.TakeUp` | src/fdb_kafka_bridge/bridge/pipeline.py:209-221 | a polled reply is handed over whole and is ready to be committed or acknowledged, or nothing of it is taken for delivered; with no fault outside the former, unless it cannot be converted, and only then does the listener stay failed |
| `Pipelines.BridgePipeline.Poll` | src/fdb_kafka_bridge/bridge/pipeline.py:212-214 | a poll is refused exactly as the listener says, and otherwise returns the records of the stream after the old position exactly when the reply converts |
| `Pipelines.BridgePipeline.ProduceAll` | src/fdb_kafka_bridge/bridge/pipeline.py:223-226 | the producer is handed the records of the reply, each once and in order, or stops at the first refusal |
| `Pipelines.BridgePipeline.ProduceAndFlush` | src/fdb_kafka_bridge/bridge/pipeline.py:228-238 | the reply counts as delivered exactly when the flush leaves nothing behind; any failure closes the producer |
| `Pipelines.BridgePipeline.BeginAndProduce` | src/fdb_kafka_bridge/bridge/pipeline.py:240-249 | the commit is outstanding exactly when the transaction holds the whole reply; otherwise it has been aborted, or the producer is fatal |
| `Pipelines.BridgePipeline.CommitWithRetry` | src/fdb_kafka_bridge/bridge/pipeline.py:261-297 | over the errors that the attempts raise: each but the last is not fatal, retriable and needs no abort; all are when the commit lands or stays outstanding, and then they are as many as the budget; one that is given up, and any abort, follows a last error that is not of that kind; with no fault the commit lands |
| `Pipelines.BridgePipeline.AbortAndRaise` | src/fdb_kafka_bridge/bridge/pipeline.py:299-312 | the error raised is the given one, after an abort, or that of the failed abort, with the producer fatal; a fatal error is not followed by an abort |
| `Pipelines.BridgePipeline.Checkpoint` | src/fdb_kafka_bridge/bridge/pipeline.py:319-322 | the reply is checkpointed exactly when its own position has been saved |
| `Pipelines.BridgePipeline.CheckpointAndAcknowledge` | src/fdb_kafka_bridge/bridge/pipeline.py:314-324 | acknowledged only after being saved; a failure keeps the delivery, to be finished by the next step |
| `Pipelines.BridgePipeline.AcknowledgeWithRetry` | src/fdb_kafka_bridge/bridge/pipeline.py:326-344 | over the errors that the attempts raise: each but the last is overload, and overload is given up only after as many as the budget; success puts the watermark at or past the position; a failure leaves the reply awaiting |
| `Pipelines.BridgePipeline.FinishDelivery` | src/fdb_kafka_bridge/bridge/pipeline.py:251-259 | commits if that is outstanding, saves, acknowledges; polls and produces nothing, and returns the count of the reply it found; with no fault it succeeds; an error asks for a rebuild exactly when the state cannot be resumed; an abort only after a commit error that calls for more than a retry |
| `Pipelines.ShutProducer` | src/fdb_kafka_bridge/kafka/producer.py:446-501 | closing a producer is one action of the protocol: what it leaves behind is part of its queue or a requested commit |
| `Bridges.Bridge.constructor` | src/fdb_kafka_bridge/bridge/pipeline.py:593-647 | a bridge with nothing built, and with the mode and the record budget it was given |
| `Bridges.Bridge.Iterate` | src/fdb_kafka_bridge/bridge/pipeline.py:824-884 | every step starts from a live pipeline; after an error a rebuild is asked for exactly when the pipeline cannot be resumed, so a delivery left to be finished is finished by the next one, with nothing polled or handed to Kafka; an iteration without a fault ends ready for the next, unless the cursor file is bad or the reply cannot be converted; a rebuild skipped for an outstanding commit is asked for again when that dies |
| `Bridges.Bridge.Run` | src/fdb_kafka_bridge/bridge/pipeline.py:793-884 | iterates until shutdown is requested or the first terminal, fatal or permanent error, which it raises, and past every other; when it ends, everything below the watermark is in the log and without a gap |
| `Bridges.Bridge.RebuildPipeline` | src/fdb_kafka_bridge/bridge/pipeline.py:773-791 | nothing at all changes while a commit is outstanding; otherwise a pipeline that can be resumed, or everything closed and unset, with no fault only for a bad cursor file |
| `Bridges.Bridge.BuildPipeline` | src/fdb_kafka_bridge/bridge/pipeline.py:680-749 | a live pipeline with nothing to finish, the producer of the mode the bridge was given, or everything closed and unset; with no fault outside it fails only for a cursor file that is torn, foreign or ahead of the cluster |
| `Bridges.Bridge.MakeProducer` | src/fdb_kafka_bridge/bridge/pipeline.py:673-678 | the producer is transactional exactly if the bridge is, and only such a producer is ever opened |
| `Bridges.Bridge.OpenProducer` | src/fdb_kafka_bridge/bridge/pipeline.py:718-722 | the producer is initialized for transactions if it is to make any; with no fault it is open and without an error |
| `Bridges.Bridge.OpenListener` | src/fdb_kafka_bridge/bridge/pipeline.py:699-716 | the listener is resumed from the saved cursor of this stream, or started at the watermark where there is none |
| `Bridges.Bridge.Discard` | src/fdb_kafka_bridge/bridge/pipeline.py:751-771 | listener and producer are closed and unset, and the system is as after a clean exit |
| `Bridges.Bridge.Start` | src/fdb_kafka_bridge/bridge/pipeline.py:658-671 | does nothing when started; refuses an empty stream name; otherwise builds, or leaves everything unset |
| `Bridges.Bridge.Stop` | src/fdb_kafka_bridge/bridge/pipeline.py:909-962 | everything is closed and unset; an outstanding commit is tried again first, and with no fault it lands and its reply is acknowledged without an abort |
| `Bridges.Bridge.FinishOutstandingCommit` | src/fdb_kafka_bridge/bridge/pipeline.py:964-986 | polls nothing, and touches nothing when no commit is outstanding; otherwise none is afterwards, unless a step fails or no time is given; with no fault it lands and its reply is acknowledged |
| `Bridges.Lives` | src/fdb_kafka_bridge/bridge/pipeline.py:11-13 | over any number of process lives, each ended by a crash or a power loss, everything below the watermark is in the log and without a gap; if the bridge is transactional, and so was every one before, the log is a concatenation of whole replies |
| `CursorFile.Save` | src/fdb_kafka_bridge/bridge/pipeline.py:405-476 | wherever a save stops, what is in place or can come back is the old content or the whole new cursor; it raises only if a call failed, and not for a directory that cannot be fsynced; a normal return means that it is in place, and alone durable where directories can be fsynced |
| `CursorFile.Load` | src/fdb_kafka_bridge/bridge/pipeline.py:479-534 | nothing where there is no file, the saved cursor where it is of this stream, an error exactly for a torn or foreign file |
| `Listeners.MutationListener.PollRecords` | src/fdb_kafka_bridge/cdc/listener.py:200-287 | refused in the order failed, unacknowledged, closed; a reply is returned exactly when every group of it, and its watermark record where no group has that version, can be serialized within the budget; the records carry exactly the events from the old position to the new one; otherwise the listener stays failed |
| `Listeners.MutationListener.Serialize` | src/fdb_kafka_bridge/cdc/listener.py:248-282 | the loop over groups and the watermark record compute the record bytes of the reply, or the error of its first faulty group |
| `Listeners.MutationListener.Start` | src/fdb_kafka_bridge/cdc/listener.py:139-162 | a fresh consumer stands at the watermark, a resumed one at its cursor with its acknowledgement restored; a failed start leaves no consumer |
| `Listeners.MutationListener.Reconcile` | src/fdb_kafka_bridge/cdc/listener.py:164-179 | success means that the cluster has reached the cursor's version and that its acknowledgement is restored; the cursor is invalid only when the cluster has not; the watermark never goes back |
| `Listeners.MutationListener.Acknowledge` | src/fdb_kafka_bridge/cdc/listener.py:289-312 | refused unless a converted reply awaits it; success acknowledges the position and clears the wait, failure keeps it |
| `Listeners.MutationListener.Close` | src/fdb_kafka_bridge/cdc/listener.py:318-324 | closes for good without acknowledging, even when the native close raises |
| `Replies.ReplyIsRead` | src/fdb_kafka_bridge/cdc/listener.py:248-287 | reading the bytes of a reply gives exactly the events between its positions, whatever the record budget and the timestamp |
| `Replies.RecordsCarryReply` | src/fdb_kafka_bridge/cdc/listener.py:283-287 | so do the parsed records once the producer serializes them again |
| `Replies.WatermarkIsNew` | src/fdb_kafka_bridge/cdc/listener.py:263-264 | the watermark record is written exactly when no group of the stream has that version |
| `Replies.ReplyConvertsExactly` | src/fdb_kafka_bridge/cdc/listener.py:248-287 | a reply is converted exactly when each group can be serialized, as described on its mutations, and so can the watermark where no group has that version, and no record is over the limit of the format |
| `Producers.MutationProducer.FlushOrRaise` | src/fdb_kafka_bridge/kafka/producer.py:414-435 | outside transactions a normal return means that every record ever accepted is in the log, in order; no success once a delivery error is recorded |
| `Producers.MutationProducer.Flush` | src/fdb_kafka_bridge/kafka/producer.py:385-412 | raises the first delivery error, or returns exactly what is left of the queue |
| `Producers.MutationProducer.Produce` | src/fdb_kafka_bridge/kafka/producer.py:331-383 | refused in the order closed, fatal, no open transaction, sticky error; otherwise the record's bytes are queued and an in-order part of the queue is delivered |
| `Producers.MutationProducer.CommitTransaction` | src/fdb_kafka_bridge/kafka/producer.py:274-301 | success means that the whole transaction has landed; the transaction is then closed and its errors are forgotten; failure keeps it open; with no fault it succeeds |
| `Producers.MutationProducer.AbortTransaction` | src/fdb_kafka_bridge/kafka/producer.py:303-329 | a failed abort makes the producer fatal and keeps its errors |
| `Producers.MutationProducer.BeginTransaction` | src/fdb_kafka_bridge/kafka/producer.py:254-272 | opens an empty transaction, or changes nothing but the fatal mark |
| `Producers.MutationProducer.InitTransactions` | src/fdb_kafka_bridge/kafka/producer.py:230-252 | succeeds at most once |
| `Producers.MutationProducer.Close` | src/fdb_kafka_bridge/kafka/producer.py:446-501 | permanent and idempotent; aborts an open transaction, once; with no fault it delivers all of its queue; otherwise it leaves behind an in-order part of it, or the transaction if its commit had been requested |
| `Varint.BytesExact` | src/fdb_kafka_bridge/serialization/version_group.py:14-15 | the varint size formula is the real encoded length |
| `Varint.LengthMonotone` | src/fdb_kafka_bridge/serialization/version_group.py:14-29 | longer payloads never take shorter length prefixes |
| `Varint.RoundTrip` | protobuf/proto/fdbkafka/cdc/v1/mutations.proto:14-17 | decoding an encoded varint gives it back and stops where it ends |
| `Varint.Truncated` | src/fdb_kafka_bridge/serialization/deserializer.py:150-159 | no proper prefix of a varint decodes |
| `WireFormat.FieldsRoundTrip` | protobuf/proto/fdbkafka/cdc/v1/mutations.proto:12-105 | parsing written fields gives them back in order |
| `WireFormat.FieldsTruncated` | src/fdb_kafka_bridge/serialization/deserializer.py:150-159 | a proper prefix of written fields does not parse, or has lost at least the last field |
| `Messages.RecordRoundTrip` | protobuf/proto/fdbkafka/cdc/v1/mutations.proto:92-105 | parsing undoes writing for exactly the record messages that fit the size limit of the format |
| `Messages.RecordTruncated` | src/fdb_kafka_bridge/serialization/_wire.py:20-27 | a proper prefix of a record does not parse, or parses to one without a body |
| `Schema.RecordBySchema` | protobuf/proto/fdbkafka/cdc/v1/mutations.proto:12-105 | every record is byte for byte what an encoder writes that knows the messages only by a table of their fields, numbers and types; the fields are of those types and come by number |
| `Serializer.Natives` | src/fdb_kafka_bridge/serialization/_checks.py:183-193 | the loop returns all mutations, or the fault of the first faulty one |
| `Serializer.NativesPass` | src/fdb_kafka_bridge/serialization/_checks.py:169-193 | a sequence passes exactly when each element does; the error is that of the first that does not |
| `Serializer.MutationSerializesExactly` | src/fdb_kafka_bridge/serialization/serializer.py:11-45 | a mutation is serialized exactly when its five arguments are in range |
| `Serializer.BatchSerializesExactly` | src/fdb_kafka_bridge/serialization/serializer.py:48-99 | a batch is serialized exactly when it is not empty and its arguments, codes and positions are in range |
| `Serializer.VersionEndSerializesExactly` | src/fdb_kafka_bridge/serialization/serializer.py:102-137 | a version end is serialized exactly when its four arguments are in range |
| `Deserializer.MutationRoundTrips` | src/fdb_kafka_bridge/serialization/serializer.py:11-45 | a serialized mutation reads back under its version index, name and time |
| `Deserializer.BatchRoundTrips` | src/fdb_kafka_bridge/serialization/serializer.py:48-99 | a serialized batch reads back, element i at position first + i |
| `Deserializer.VersionEndRoundTrips` | src/fdb_kafka_bridge/serialization/serializer.py:102-137 | a serialized version end reads back |
| `Deserializer.TruncatedIsRefused` | src/fdb_kafka_bridge/serialization/deserializer.py:94-101 | no proper prefix of a serialized record decodes; it is malformed or has no record arm |
| `Deserializer.ReadCanBeReserialized` | src/fdb_kafka_bridge/serialization/deserializer.py:37-91 | whatever reads as a mutation or batch meets the serializers' preconditions and reads back equal; type 1 normalises to the clear-range arm; what reads at all is pinned by Deserializer.RecordReadsExactly |
| `Deserializer.RecordReadsExactly` | src/fdb_kafka_bridge/serialization/deserializer.py:22-164 | by the fields of the parsed message alone: exactly which records are read, that the value holds those fields, and otherwise which reason and position are given, the first in the order of the checks |
| `Deserializer.EncodedReadsExactly` | src/fdb_kafka_bridge/serialization/deserializer.py:22-164 | so for every record message within the size limit |
| `VersionGroup.SerializeVersionGroup` | src/fdb_kafka_bridge/serialization/version_group.py:32-127 | the algorithm on computed sizes returns what slicing by real record lengths would |
| `VersionGroup.SliceMessages` | src/fdb_kafka_bridge/serialization/version_group.py:77-103 | the loop on running sums yields the greedy slices of real sizes, or the first mutation that is too large alone |
| `VersionGroup.RecordBytesExact` | src/fdb_kafka_bridge/serialization/version_group.py:73-86 | envelope plus one framed batch is the real length of the batch record |
| `VersionGroup.SliceSerializes` | src/fdb_kafka_bridge/serialization/version_group.py:118-125 | the record of a slice is byte for byte what serializing that slice as a batch gives |
| `VersionGroup.WithinBudget` | src/fdb_kafka_bridge/serialization/version_group.py:77-127 | every returned record is within the budget |
| `VersionGroup.GreedyIsOptimal` | src/fdb_kafka_bridge/serialization/version_group.py:44-47 | if any contiguous slicing fits, greedy fits, and no slicing that fits has fewer records |
| `VersionGroup.TooLargeExactly` | src/fdb_kafka_bridge/serialization/version_group.py:89-100 | the error names i exactly when i is the first mutation whose own record exceeds the budget |
| `VersionGroup.EndTooLargeExactly` | src/fdb_kafka_bridge/serialization/version_group.py:104-117 | the error names none exactly when no mutation is too large but the version end is |
| `VersionGroup.GroupReads` | src/fdb_kafka_bridge/serialization/version_group.py:32-61 | reading the records of a group gives its mutations at 0 to n - 1 and one version end with n, whatever the budget |
| `VersionGroup.GroupSerializesExactly` | src/fdb_kafka_bridge/serialization/version_group.py:32-127 | a group is serialized exactly when its arguments and codes are in range, it has fewer than 2^32 mutations, none is too large for a record of its own, and its version end fits |
| `Strinc.RangeIsPrefix` | src/fdb_kafka_bridge/cdc/listener.py:24-39 | for a prefix with a byte other than 0xFF, a key is in [p, strinc(p)) exactly when p is a prefix of it |
| `Strinc.NoNextExactly` | src/fdb_kafka_bridge/cdc/listener.py:33-38 | strinc raises exactly for a key of 0xFF bytes only |
| `Strinc.NoEndExists` | src/fdb_kafka_bridge/cdc/listener.py:33-38 | and then no end key would do: some key with the prefix is not below it |
| `Workload.KeyReads` | demo/workload.py:66-113 | the key of operation i, up to eight digits, reads back as i under any prefix |
| `Workload.MatchNamesIndex` | demo/workload.py:41-63 | a mutation that matches the expected one of operation i has a key that names i |
| `WorkloadWrites.MatchesExactly` | demo/run_demo.py:125-165 | a mutation matches the expected one of operation i exactly when the operation that the workload writes is committed as it under some versionstamp |
| `WorkloadWrites.AcceptedDifferInStamp` | demo/workload.py:41-63 | two mutations that match the same operation differ in the ten stamp bytes alone |
| `WorkloadVerifier.VerifyWorkload` | demo/workload.py:123-202 | accepts exactly when the count is at most 10^8, the mutations biject with the operations, coordinates are unique and every version reconciles; counts by type; the last check can never fail |
| `WorkloadVerifier.TotalsAddUp` | demo/workload.py:200-201 | the totals' sum is implied by the earlier checks |
| `WorkloadVerifier.BijectionIsGood` | demo/workload.py:151-175 | a bijection passes every check of the first loop |
| `WorkloadVerifier.OrderDoesNotMatter` | demo/workload.py:138-139 | the verdict is the same for every order of the records |

## Left out

- The code of librdkafka, the FoundationDB binding and the Protocol Buffers runtime: only the promises listed above.
- JSON text, file descriptors and errno values: a cursor is a value, a file is absent, torn or whole.
- `bridge/config.py`, and `cdc/client.py` beyond the kinds of error it raises: validation without a hard property.
- Python type checks, message texts, logging, user callbacks, garbage collection; names with lone surrogates.
- Injected components: `Bridge` always builds its own. The partition key, which is one constant for all records.
- The metrics and `_RecordCountingListener`; the backoff between iterations.
- The path of `stop` that goes on without the step lock, and concurrent calls in general.
- A cursor whose stream id differs from that of the registered stream of the same name.
- The limit on the nesting of unknown groups in the Protocol Buffers parsers.
- Transactional flush: `flush` is modelled, but the pipeline does not call it inside a transaction.
- Listeners.MutationListener.PollRecords: requires a started listener; starting on first access is left to `Start`,
  which the bridge always calls.
- Listeners.MutationListener.Start: the stream registration is one call that may raise; its ranges are those of
  `Strinc`.
- Bridges.Bridge.Run: takes the number of iterations before shutdown as a parameter in place of an event.
- Bridges.Bridge.Stop: takes the number of steps that fit its timeout as a parameter; closing the client is left out.
- WorkloadWrites.MatchesExactly: speaks of operations that can be written; a versionstamped key of 2^32 bytes or more
  cannot.
- CursorFile.Save: a missing or malformed position, which the source refuses, cannot be expressed.
- Deserializer.TruncatedIsRefused: speaks of records up to the size limit of the format, as do the round trips.
- Producers.MutationProducer.AbortTransaction: the native abort raises no exception but `KafkaException`; the source
  treats every other one in the same way.
