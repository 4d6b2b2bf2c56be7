# Rafter: a Dafny model of the durable runtime and its surroundings

Rafter is a Raft library in Rust: a deterministic consensus kernel, stores for its hard state,
log and snapshots, a runtime that persists before it releases outputs, a checksummed wire
format, and hosts and a simulator around them. This project models the parts that promise
something about every crash, every interleaving or every byte string, and proves those
promises.

`dafny verify dfyconfig.toml` checks everything. Nothing here executes the original program.

## How the model is built

**Durable runtime** (`Raft`, `Kernel`, `KernelReceive`, `CommittedConfig`, `Durable`, `Stores`,
`StepOutputs`, `Delivery`, `SnapshotInstall`, `LogRepair`, `Runtime`, `DurableNode`,
`ConfigRecovery`, `Reopen`, `Runs`, `Serving`, `ExactlyOnce`, `Reopenings`, `LostNodes`).
The three stores and the runtime are classes; a step, a local compaction and a reopen are
methods that perform the source's writes in the source's order.
Every store write may fail, and a failed write may have landed: an append in part, a snapshot
publication with or without clearing its staging, any other write not at all or in full.
After a failed write a method writes nothing more, so its contract covers a crash during that
write, a crash right before it and a crash right after it.
Each store counts its failed writes. A step, a compaction and an open report a failed write
exactly if one of these counts grew by one during the call, and runs take their word for a
failed write from the counts.
`ImageInv` is what holds of the disk at every such point. `Extends` is what may change over
time: terms grow, a vote stands within its term, the snapshot boundary moves forward, and the
committed history only gets longer.

The kernel is a state and a list of guarded moves (`Kernel.Move`). A step is any sequence of
moves, so a batch of inputs is one too. Elections and quorums are not modelled. What they
guarantee appears in two guards. `Splice` keeps the log on one `Lineage`, in which index and
term fix an entry and its predecessor's term; that is the Log Matching property, section 5.3
of the extended Raft paper by Ongaro and Ousterhout. `Install` takes snapshots that continue
what this node knows to be committed; that is State Machine Safety in the same paper.
`KernelReceive` shows that the follower's append and snapshot paths make only such moves, and
says exactly which requests, chunks and snapshots a follower takes in and what it is afterwards.
Configuration identities and the rules about authors and senders of snapshots are concrete: the
kernel's answer, the record on disk, what snapshots declare and what a bootstrap recovers are
compared with the configuration entries of the committed history. Which replicas a membership
has and which membership a configuration names are the parameters `CommittedConfig.Rules`.

`Runs` says what each method may do to a state and proves theorems over every sequence of such
events. `Serving.Serve` drives the methods themselves with any requests and crashes and shows
that what they do is a run. Its requests are reactions of the kernel at nodes that have
committed nothing beyond the cluster's history, given by one point on the lineage; the append
handler and both snapshot handlers are shown to be such reactions, and so are batches of them.

A delivery moves the kernel's cursor over one committed entry and tells the host of it.
`Delivery.Tells` says of a stream of outputs that it tells a stretch of the committed history in
order, once and without a gap. `ExactlyOnce` proves it of everything an application hears over a
whole life of its node, if it restarts the node with the index it has reached.

**CRC-32 and frames** (`XorSpace`, `Crc32Steps`, `Crc32`, `Crc32Detection`, `ByteBits`,
`Wire`, `WireIo`, `FrameSeal`, `Frame`). The reference is the bit-serial register of IEEE 802.3
section 3.2.9. Table construction and the block loop are proved equal to it by linearity.
The version 1 payload grammar is a parameter of the frame codec.

**Reads** (`ReadFloor`, `ReadPath`), **concurrency and admission** (`LogRetirement`, `Watch`,
`PeerBatch`), **simulator** (`SimDisk`, `SimSnapshots`). The two concurrent protocols are state
machines over their atomic operations, with one lemma for every interleaving.

## Where a promise fails, and exactly when it holds

- A change of at most four consecutive frame bytes that crosses from body to checksum is
  detected with one exception: the last two body bytes flipped by 61 D8 and the first two
  checksum bytes by F4 EE (hexadecimal). `FrameSeal.WindowDetected` is an if-and-only-if;
  `Frame.BlindPairAccepted` shows the exception passing the decoder.
- A bootstrap refuses a snapshot whose `hard_state_term` is beyond the node's term
  (`crates/rafter/src/node/bootstrap/validate/mod.rs:65-72`). A local compaction never looks at
  that field, so it can succeed and leave a node that no reopen accepts.
  `LostNodes.UnbootableCompaction` is a concrete case; `LostNodes.CompactionReopens` says
  exactly which compactions can be reopened.
- A snapshot payload that came in chunks is compared with its checksum only at promotion
  (`crates/rafter-storage/src/raft_snapshot_store/in_memory.rs:146-154`), after its last chunk
  has been staged durably. Bytes that miss it poison the runtime, and every later open finds the
  complete transfer and refuses it again: `LostNodes.RefusedForGood` for every such step,
  `LostNodes.WrongPayload` as a concrete run from a node that has written nothing.
- A bootstrap refuses an image whose recorded configuration lies below a snapshot that declares
  none (`crates/rafter/src/node/bootstrap/validate/configuration.rs:32-42`).
  `ConfigRecovery.RecoveryExact` is an if-and-only-if, `LostNodes.UndeclaredSnapshot` a concrete
  run, and `LostNodes.NeverDeclared` shows that nothing that follows helps.
- `Reopen.Open` with `Reopen.OpenableExactly` is the exact condition for one open.
  `Reopenings.ReopensExactly` is the exact condition over whole runs whose chunks are cut from
  the payloads their descriptors describe and declare what was committed or nothing, with
  respected author terms: no undeclared snapshot covers the record, the leader of a
  half-received transfer is recognised, the application's floor is committed, and the boundary
  is not the last index. `ExactlyOnce.FloorAlwaysFits` settles the floor for an application that
  keeps count.
- A read granted at an entry that the key-value host cannot decode waits although everything was
  handled, because such an entry counts for the floor and never advances the state machine.
  `ReadPath.WaitsIff` is the exact condition, `ReadPath.ReadStalls` an instance.
- The host looks through its waiting reads whenever its state moves, but not after a snapshot
  that it took over and could not save (`crates/rafter-maelstrom/src/raft/snapshots.rs:37-53`).
  `ReadPath.UnsavedLeavesReady` says that this is the only output that leaves a read waiting
  whose floor has been reached.
- The retirement worker returns every credit unless its thread panics: `LogRetirement.PanicReached`
  is such a run, `LogRetirement.LeakedIffPanicked` an if-and-only-if, and
  `LogRetirement.LostForever` shows that the credits never come back.
- A watch is offered a new snapshot if and only if the version is below its maximum
  (`Watch.OfferedUnlessSaturated`). Wakeups are not lost even then.

## Model

| member | source | states |
|---|---|---|
| Crc32.BuildTables | crates/rafter-crc32/src/checksum.rs:81-109 | row k, entry b of the built tables is byte b shifted through k + 1 whole bytes of the bit-serial register |
| Crc32.BuiltTablesRealise | crates/rafter-crc32/src/checksum.rs:42-64 | with built tables, one block look-up equals feeding eight bytes and one tail look-up equals feeding one, from any state |
| Crc32.RunningCrc32.Update | crates/rafter-crc32/src/checksum.rs:42-65 | the slicing-by-eight update equals the bit-at-a-time register for every byte string and every starting state |
| Crc32.RegisterConcat | crates/rafter-crc32/src/checksum.rs:38-42 | feeding a then b equals feeding their concatenation, wherever block boundaries fall |
| Crc32.ComputeCrc32 | crates/rafter-crc32/src/checksum.rs:13-17 | the one-shot form returns the bit-serial checksum |
| Crc32.ComputeInPieces | crates/rafter-crc32/src/checksum.rs:19-23 | any split of a string fed piece by piece gives the checksum of the whole |
| Crc32.EmptyChecksum | crates/rafter-crc32/src/checksum.rs:31-37 | the checksum of nothing is zero |
| Crc32.CheckValue | crates/rafter-crc32/src/lib_test.rs:22-24 | the nine digits have the published check value CBF43926 |
| Crc32Detection.BurstChangesChecksum | crates/rafter-crc32/src/checksum.rs:42-72 | changing at most four consecutive bytes anywhere always changes the checksum |
| Crc32Detection.StraddleShows | crates/rafter-crc32/src/checksum.rs:42-72 | a change of the last one to three bytes that leaves as many low checksum bytes alone is nothing or one fixed pattern |
| Crc32Detection.BlindDifference | crates/rafter-crc32/src/checksum.rs:42-72 | that pattern moves the checksum by a fixed amount whatever precedes it |
| Wire.Take | crates/rafter-codec/src/wire.rs:240-257 | a read succeeds exactly when enough bytes remain, splits the input, and otherwise reports both lengths |
| Wire.ReadInteger | crates/rafter-codec/src/wire.rs:185-212 | a read succeeds exactly when its width remains; the value, written big-endian, and the unread rest are the input; a short input is reported with both lengths |
| Wire.ReadPrefixed | crates/rafter-codec/src/wire.rs:214-229 | the length of the item as prefix, the item and the rest are the input; a short prefix and a short item are each reported with what was announced and what remained |
| Wire.BigEndianDigits | crates/rafter-codec/src/wire.rs:102-112 | byte i of an integer is its digit above the bytes that follow, the most significant first |
| Wire.FieldLayout | crates/rafter-codec/src/wire.rs:66-132 | the bytes of every kind of field, with its width, its prefix and the length from which it is refused |
| Wire.ReadRefusals | crates/rafter-codec/src/wire.rs:185-257 | exactly when a read is refused and with which error: short integer or prefix, short item, a flag above one, text that is not UTF-8 |
| Wire.FirstUnencodable | crates/rafter-codec/src/wire.rs:53-133 | a list of fields is refused with the error of its first field that cannot be written |
| Wire.FirstUnreadable | crates/rafter-codec/src/wire.rs:135-264 | and a byte string with the error of the first field that cannot be read |
| Wire.ReadBackField | crates/rafter-codec/src/wire.rs:62-257 | reading a written field gives it back and leaves what follows untouched |
| Wire.ReadBackFields | crates/rafter-codec/src/wire.rs:62-257 | writing any list of fields and reading it back is the identity and consumes exactly the bytes written |
| Wire.WriteBackField | crates/rafter-codec/src/wire.rs:62-257 | every accepted field re-encodes to the bytes it came from |
| Wire.WriteBackFields | crates/rafter-codec/src/wire.rs:62-257 | the codec is canonical: an accepted byte string is the encoding of what it decodes to |
| WireIo.Writer.Length | crates/rafter-codec/src/wire.rs:74-100 | a length prefix is written, or refused with its maximum and nothing written |
| WireIo.Writer.Prefixed | crates/rafter-codec/src/wire.rs:114-132 | a string or blob is written whole, or refused and nothing written |
| WireIo.Writer.Field | crates/rafter-codec/src/wire.rs:66-132 | each kind of field writes its specified encoding |
| WireIo.Writer.Fields | crates/rafter-codec/src/wire.rs:53-133 | fields up to the first refused one reach the sink, and the first refusal is reported |
| WireIo.WriteAllEmits | crates/rafter-codec/src/wire.rs:53-133 | the outcome of a pass depends on the fields alone, not on the sink |
| WireIo.CountThenStore | crates/rafter-codec/src/frame.rs:44-66 | the counting pass predicts success, error and length of the storing pass |
| WireIo.Reader.Finish | crates/rafter-codec/src/wire.rs:151-156 | succeeds exactly when nothing remains, else reports how much does |
| WireIo.Reader.TakeBytes | crates/rafter-codec/src/wire.rs:240-257 | returns the next bytes and advances by them, or reports how many were missing and stays where it was |
| WireIo.Reader.Integer | crates/rafter-codec/src/wire.rs:185-212 | reads a big-endian integer as specified on the remaining bytes; a refused read consumes nothing |
| WireIo.Reader.Prefixed | crates/rafter-codec/src/wire.rs:214-229 | reads a length-prefixed value as specified |
| WireIo.Reader.Field | crates/rafter-codec/src/wire.rs:180-229 | reads any kind of field as specified, with the same errors |
| WireIo.Reader.Fields | crates/rafter-codec/src/wire.rs:135-264 | reads a list of fields as specified, stopping at the first error |
| Frame.ReadHeader | crates/rafter-codec/src/frame.rs:87-96 | what follows an accepted header, and that the frame starts with magic and version |
| Frame.EncodeBody | crates/rafter-codec/src/frame.rs:68-75 | any sink receives magic, version and payload, or the payload's error |
| Frame.EncodeMessageInto | crates/rafter-codec/src/frame.rs:44-66 | on success the buffer is exactly the frame and its length was reserved exactly; on error the buffer is empty |
| Frame.DecodeHeader | crates/rafter-codec/src/frame.rs:87-96 | magic and version are read and refused as specified |
| Frame.DecodeSeal | crates/rafter-codec/src/frame.rs:99-106 | checksum first, trailing bytes second, as specified |
| Frame.DecodeMessage | crates/rafter-codec/src/frame.rs:86-108 | the decoder computes the specified result for every byte string and grammar |
| Frame.DecodeOfEncode | crates/rafter-codec/src/frame.rs:44-108 | a frame decodes to the message it was made from |
| Frame.AcceptedShape | crates/rafter-codec/src/frame.rs:98-107 | a frame is accepted exactly if it starts with magic and version, its payload ends four bytes before its end and those bytes are the checksum of all before |
| Frame.DecodeExactly | crates/rafter-codec/src/frame.rs:86-108 | the answer to every byte string, check by check: the magic RFPM, version 1, the payload, the checksum of everything before it, the end, each with its error |
| FrameSeal.CheckSeal | crates/rafter-codec/src/frame.rs:63-65 | the closing bytes are the checksum, most significant first, shown on the nine digits |
| Frame.EncodeOfDecode | crates/rafter-codec/src/frame.rs:86-108 | every accepted frame is the encoding of its message |
| FrameSeal.WindowDetected | crates/rafter-codec/src/frame.rs:99-104 | a change inside four consecutive bytes keeps a frame consistent if and only if it is no change or the one blind pattern |
| FrameSeal.OneSidedWindowDetected | crates/rafter-codec/src/frame.rs:99-104 | inside the body, or inside the checksum field, only no change at all keeps it consistent |
| Frame.CorruptionRejected | crates/rafter-codec/src/frame.rs:86-108 | any such change to an accepted frame is rejected whatever the grammar |
| Frame.AnyWindowRejected | crates/rafter-codec/src/frame.rs:86-108 | wherever the window lies, an accepted change is the blind pattern |
| Frame.BlindPairAccepted | crates/rafter-codec/src/frame.rs:86-108 | under a grammar that takes any payload, every accepted frame with two payload bytes has a different accepted frame, which it returns |
| Raft.LogMatching | crates/rafter-runtime/src/log_repair.rs:14-22 | two logs of one lineage with the same term at an index agree at every earlier index both hold |
| Kernel.MoveKeepsInv | crates/rafter/src/node/log.rs:248-270 | every guarded move keeps the kernel's state well formed, snapshot installs included |
| Kernel.MoveKeepsCommitted | crates/rafter/src/node/replication/receive.rs:110-147 | no move leaves the committed history |
| Kernel.StepKept | fuzz/fuzz_targets/node_message_sequences.rs:288-311 | over any step: term and commit grow, a vote stands within its term, committed entries stay |
| CommittedConfig.LatestInLog | crates/rafter/src/node/membership/view.rs:154-172 | the newest configuration a log on the lineage holds, or else its base's, is the latest of that history |
| CommittedConfig.StateIsLatest | crates/rafter/src/node/membership/view.rs:154-172 | what the kernel answers from log, record and snapshot is, at every committed index, the configuration its history committed, or nothing, and never nothing over an honest snapshot |
| CommittedConfig.MembershipIsLatest | crates/rafter/src/node/membership/view.rs:42-55 | the membership the kernel gives for an index it holds is the one the history names there |
| CommittedConfig.RulesExactly | crates/rafter/src/node/replication/snapshot/validate.rs:109-161 | authors are replicas of the membership at the boundary; senders of the membership declared or of the one at the end of the log, committed or not |
| ConfigRecovery.RecoveryExact | crates/rafter/src/node/bootstrap/validate/configuration.rs:7-126 | a sound image whose snapshot names the truth or nothing is refused for its configuration if and only if an undeclared snapshot covers the recorded one |
| ConfigRecovery.RecoversLatest | crates/rafter/src/node/bootstrap/validate/configuration.rs:7-126 | with an honest snapshot a bootstrap recovers exactly the configuration its history committed |
| ConfigRecovery.RecoversTruth | crates/rafter/src/node/bootstrap/validate/configuration.rs:7-68 | over a snapshot that has not lost the record it recovers that configuration or nothing |
| ConfigRecovery.BoundaryAccepted | crates/rafter/src/node/bootstrap/validate/configuration.rs:72-95 | the entry at the boundary then carries every identity that names it |
| ConfigRecovery.AdmittedExactly | crates/rafter/src/node/bootstrap/validate/configuration.rs:7-126 | of any image, sound or not, exactly when a configuration is recovered: nothing in log, record and snapshot contradicts another |
| KernelReceive.LogAfterHolds | crates/rafter/src/node/replication/receive.rs:119-183 | after an accepted append the log holds every entry of the request |
| KernelReceive.OneConfiguration | crates/rafter/src/node/replication/receive.rs:149-172 | a follower that takes in a configuration of the current term holds no other above the commit index the request proves |
| KernelReceive.SpliceGuarded | crates/rafter/src/node/replication/receive.rs:119-183 | an accepted splice rewrites only above the commit index and stays on the lineage |
| KernelReceive.AppendIsGuarded | crates/rafter/src/node/replication/receive.rs:22-183 | the whole reaction to any append request, with its term, prefix, commit-conflict and configuration-overlap gates and its deliveries, is a guarded step |
| KernelReceive.AppendResult | crates/rafter/src/node/replication/receive.rs:22-66 | the node that the reaction to an accepted request leaves: the splice, the confirmed index, the delivery |
| KernelReceive.AcceptedExactly | crates/rafter/src/node/replication/receive.rs:40-172 | a request is taken in if and only if it continues the log, carries no other term at or below the commit index, and brings no configuration of its own term beside another that is not known to be committed |
| KernelReceive.AppendAccepted | crates/rafter/src/node/replication/receive.rs:22-183 | then the log holds every carried entry after the unchanged prefix, with nothing behind them unless all were held; the proved index is committed and delivered; the leader is told how far the logs agree |
| KernelReceive.AppendRefused | crates/rafter/src/node/replication/receive.rs:28-60 | a stale request changes nothing, any other one that is not acceptable changes only the term and the vote with it; nothing is told but the refusal |
| KernelReceive.AcknowledgedIsHeld | crates/rafter/src/node/replication/receive.rs:78-108 | after an acknowledgement everything held through the acknowledged index is on the leader's history |
| KernelReceive.AppendAnnounces | crates/rafter/src/node/commit/emit.rs:29-76 | the host hears of exactly the entries that became committed, in order |
| Delivery.Delivered | crates/rafter/src/node/commit/emit.rs:29-76 | delivery moves the cursor one entry at a time to the commit index and is a guarded step |
| Delivery.DeliveredInGoes | crates/rafter/src/node/commit/emit.rs:29-76 | delivery in two goes, with appends between, hands out what one go does: nothing twice, nothing missed |
| Delivery.EmitCommittedOutputs | crates/rafter/src/node/commit/emit.rs:29-76 | the loop moves the cursor to the commit index and returns the outputs of the entries it passes |
| Delivery.StepTells | crates/rafter/src/node/commit/emit.rs:29-76 | whatever moves a step makes, its outputs tell exactly what the history has between the cursor before and the cursor after |
| Delivery.DeliveryTells | crates/rafter/src/node/commit/emit.rs:22-27 | a drain tells all that is committed above the cursor |
| Delivery.NothingLeftOut | crates/rafter/src/node/commit/emit.rs:29-76 | such a stream tells every entry between its ends, by itself or under a snapshot |
| Delivery.ToldInOrder | crates/rafter/src/node/commit/emit.rs:29-76 | and none twice or out of order |
| KernelReceive.ChunkIsGuarded | crates/rafter/src/node/replication/snapshot/receive/chunk.rs:13-201 | the whole reaction to any snapshot chunk, with the author, sender, shape and order checks, is a guarded step |
| KernelReceive.ChunkAuthorChecked | crates/rafter/src/node/replication/snapshot/validate.rs:27-118 | no chunk that the author rule refuses reaches the host |
| KernelReceive.ChunkExactly | crates/rafter/src/node/replication/snapshot/receive/chunk.rs:13-201 | exactly which chunks are staged, installed, or end their own transfer, with the node and the outputs in each case; any other changes nothing but the term |
| KernelReceive.WholeIsGuarded | crates/rafter/src/node/replication/snapshot/receive/whole.rs:9-88 | the whole reaction to a snapshot carried in one message is a guarded step |
| KernelReceive.WholeIsGenuine | crates/rafter/src/node/replication/snapshot/receive/whole.rs:22-88 | its payload is never refused at promotion |
| KernelReceive.WholeExactly | crates/rafter/src/node/replication/snapshot/receive/whole.rs:9-88 | exactly which whole snapshots are installed and which only end a transfer, with the node and the outputs in each case |
| KernelReceive.WholeAuthorChecked | crates/rafter/src/node/replication/snapshot/receive/whole.rs:22-37 | nor does a whole snapshot that the author rule refuses reach it |
| Delivery.DeliverOutputs | crates/rafter/src/node/commit/emit.rs:29-76 | delivery tells the host of each entry with its index, one after the other |
| StepOutputs.StepInstallable | crates/rafter/src/node/replication/snapshot/receive/chunk.rs:111-201 | a step's chunks continue any mirroring staging in order, its installs find a complete transfer that continues the committed history, and the outputs end in the kernel's snapshot and staging |
| Stores.HardStateStore.Write | crates/rafter-storage/src/raft_hard_state_store/contract.rs:22-37 | written, or failed with the old or the new state on disk; a failed write is counted |
| Stores.LabelsAreIndexes | crates/rafter-storage/src/raft_log_segment/continuity.rs:125-140 | a stored entry sits at the index it is labelled with |
| Stores.LogSegment.NextIndex | crates/rafter-storage/src/raft_log_segment/continuity.rs:118-122 | the index after the last stored one |
| Stores.LogSegment.Find | crates/rafter-runtime/src/snapshot_install.rs:24-27 | finds the entry labelled with an index exactly when the segment holds it |
| Stores.LogSegment.Append | crates/rafter-storage/src/raft_log_segment/memory.rs:51-71 | a continuing batch is appended, or a prefix of it lands; a batch that reaches the last index or does not continue the log is refused unchanged; a failed write is counted |
| Stores.LogSegment.PartitionPoint | crates/rafter-storage/src/raft_log_segment/continuity.rs:80-98 | counts the stored entries below an index |
| Stores.LogSegment.TruncateSuffix | crates/rafter-storage/src/raft_log_segment/memory.rs:73-77 | cuts within bounds, refuses outside them, and lands whole or not at all; a failed write is counted |
| Stores.LogSegment.CompactPrefixThrough | crates/rafter-storage/src/raft_log_segment/memory.rs:79-91 | drops the prefix; a boundary already passed changes nothing; the last index is refused, and nothing else is; a failed write is counted |
| Stores.SnapshotStore.WriteSnapshot | crates/rafter-storage/src/raft_snapshot_store/in_memory.rs:65-72 | publishes and clears staging, or fails before, between or after the two; a failed write is counted |
| Stores.SnapshotStore.StageChunk | crates/rafter-storage/src/raft_snapshot_store/validation.rs:29-110 | stages exactly the chunks that start or continue a transfer; a failed write is counted |
| Durable.CutIsStaged | crates/rafter-storage/src/raft_snapshot_store/validation.rs:29-110 | any cut of a payload into chunks, taken in order, is staged back together |
| Durable.StagedInPlace | crates/rafter-storage/src/raft_snapshot_store/validation.rs:45-110 | a chunk that is taken lies inside its payload, is called the last exactly if it is, and continues the staged transfer at the byte where it stands |
| Stores.SnapshotStore.PromoteStaged | crates/rafter-storage/src/raft_snapshot_store/in_memory.rs:137-162 | publishes exactly a complete staged transfer of the requested snapshot whose bytes have the checksum it declares; reports the mismatch exactly for one whose bytes do not; a failed write is counted |
| Stores.SnapshotStore.ClearPending | crates/rafter-storage/src/raft_snapshot_store/in_memory.rs:164-167 | clears staging or fails with it kept or cleared; a failed write is counted |
| Stores.PersistBatch | crates/rafter-storage/src/raft_log_segment/contract.rs:43-61 | entries and hard state land together or not at all, or the batch is declined untouched; a failed write is counted |
| Durable.CommittedEntry | crates/rafter-storage/DURABILITY_PROTOCOL.md:353-359 | every index above the snapshot and at or below the durable commit index is in the log and on the committed history |
| Durable.CommittedStays | crates/rafter-runtime/src/log_repair.rs:57-61 | a committed entry of an earlier image is unchanged in a later one unless the snapshot covers it |
| Durable.BoundaryStays | crates/rafter-runtime/src/compaction.rs:86-104 | a snapshot over committed entries ends in the term of the entry it replaces |
| Durable.TruncateKeeps | crates/rafter-runtime/src/log_repair.rs:56-68 | truncating above the durable commit index keeps the image sound and its history |
| Durable.CompactKeeps | crates/rafter-runtime/src/snapshot_install.rs:39-41 | so does compacting to the published boundary |
| Durable.PromoteKeeps | crates/rafter-runtime/src/snapshot_install.rs:36-38 | so does publishing a complete staged snapshot once the boundary is reconciled |
| Durable.RecordKeeps | crates/rafter-runtime/src/compaction.rs:258-266 | so does publishing a snapshot of the committed prefix |
| Durable.GrowKeeps | crates/rafter-runtime/src/step.rs:233-244 | so does any part of an append of the kernel's missing entries |
| Durable.AppendCompletes | crates/rafter-runtime/src/step.rs:217-247 | appending all missing entries makes the log above the boundary the kernel's |
| SnapshotInstall.InstallStagedSnapshot | crates/rafter-runtime/src/snapshot_install.rs:17-42 | ends in the uninterrupted result or at one of its cuts; refuses a conflict at or below the floor, a transfer that is not ready, wrong bytes, which leaves snapshot and staging alone, and a boundary at the last index |
| SnapshotInstall.InstallRepeats | crates/rafter-runtime/src/snapshot_install.rs:8-42 | a cut install, repeated or finished by compaction, ends in the uninterrupted log and snapshot; no entry at or below the commit floor is lost; once promoted the boundary matches or the log ends below it |
| SnapshotInstall.ReopenFinishesInstall | crates/rafter-runtime/src/construction/hydrate.rs:62-130 | after any cut, the transfer is unpromoted with its staging untouched, or published; once finished, the log is that of the uninterrupted install |
| SnapshotInstall.InstallKeeps | crates/rafter-runtime/src/snapshot_install.rs:8-42 | every cut keeps the image sound and its history |
| LogRepair.FirstPersistedDivergence | crates/rafter-runtime/src/log_repair.rs:72-87 | finds the first index above the boundary where log and kernel differ, or that there is none |
| LogRepair.RepairPersistedLogSuffix | crates/rafter-runtime/src/log_repair.rs:47-70 | truncates at the first difference above the floor; one at or below it is reported and nothing removed |
| LogRepair.FastPathAgrees | crates/rafter-runtime/src/log_repair.rs:24-55 | if the kernel still holds the durable tail's index and term, the scan would find nothing |
| LogRepair.RepairedPrefixes | crates/rafter-runtime/src/log_repair.rs:47-70 | after repair the durable log is a prefix of the kernel's |
| Runtime.PersistSnapshotOutput | crates/rafter-runtime/src/step/snapshot.rs:31-59 | one output's store work keeps the image sound and leaves the rest possible; it fails only on a failed write, on bytes that miss their checksum, which stay staged in full, or on the last index |
| Runtime.PersistSnapshotOutputs | crates/rafter-runtime/src/step/snapshot.rs:27-62 | all of them, in order, end in the snapshot and staging they name, or at a cut of that work; wrong bytes and the last index are refused exactly when some output brings them |
| Runtime.ClearAbandonedStaging | crates/rafter-runtime/src/step/snapshot.rs:67-81 | staging the kernel gave up does not survive the step |
| Runtime.PersistSnapshots | crates/rafter-runtime/src/step.rs:189-194 | after the snapshot work snapshot and staging are the kernel's, or one of those failures |
| Runtime.RepairSuffix | crates/rafter-runtime/src/step.rs:207-216 | in every reachable state repair ends in a prefix of the kernel's log and never reports corruption |
| Runtime.AppendSuffix | crates/rafter-runtime/src/step.rs:217-244 | repair then append equals replacing the durable suffix by the kernel's, index by index; the segment is never behind the boundary; it fails only on a failed write or on the last index |
| Runtime.PersistLogSuffix | crates/rafter-runtime/src/step.rs:207-247 | both, with the new tail; every stored entry above the boundary is the kernel's entry at the index it is labelled with |
| Runtime.AppendsInOne | crates/rafter-runtime/src/step/atomic_batch.rs:13-84 | the one record of the fast path leads to the image the separate writes lead to |
| Runtime.TryAtomicAppendBatch | crates/rafter-runtime/src/step/atomic_batch.rs:13-84 | declined without a trace, or the step is durable, or a failed write; attempted only for a step that appends application entries and moves the commit index, term, vote and configuration unchanged |
| Runtime.StepStarts | crates/rafter-runtime/src/step.rs:144-182 | whatever the kernel did, the fence is safe and the step's outputs can be carried out after it |
| Runtime.StepReadyForLog | crates/rafter-runtime/src/step.rs:155-197 | after the snapshot work nothing at or below the previous commit index differs |
| Runtime.StepPublishes | crates/rafter-runtime/src/step.rs:198-202 | publishing the commit index last is safe and leaves disk and kernel equal |
| Runtime.CompactionSynced | crates/rafter-runtime/src/compaction.rs:138-162 | snapshot then compaction keeps history at every cut and leaves disk and kernel equal |
| Runtime.RetiredPrefix | crates/rafter/src/node/local_snapshot.rs:152-168 | retired and retained entries together are the old log |
| DurableNode.DurableRaftNode.Fence | crates/rafter-runtime/src/step.rs:184-188 | a hard-state write that may fail either way keeps the image sound; it fails exactly if the store counted a failed write |
| DurableNode.DurableRaftNode.PersistSnapshotsAndLog | crates/rafter-runtime/src/step.rs:189-197 | the middle writes of a step end in the kernel's snapshot, staging and log, with the same failures |
| DurableNode.DurableRaftNode.PersistInOrder | crates/rafter-runtime/src/step.rs:175-202 | term and vote, then snapshots and log, then the commit index: sound at every cut, equal at the end |
| DurableNode.DurableRaftNode.PersistStepped | crates/rafter-runtime/src/step.rs:163-205 | outputs are returned only when disk equals kernel; otherwise the runtime is poisoned, the image still sound, and refused bytes are staged in full above the snapshot |
| DurableNode.DurableRaftNode.StepAndPersist | crates/rafter-runtime/src/step.rs:144-161 | the same for any moves of the kernel, which is stepped whether the writes succeed or not; a poisoned runtime changes nothing; a failed write is reported exactly if a store counted one, and without one a step fails exactly if a payload it applies misses its checksum or an index is the last one; commit index and configuration on disk are the old ones or all of the new state is there |
| DurableNode.DurableRaftNode.DrainCommittedOutputs | crates/rafter-runtime/src/node.rs:87-90 | returns the outputs of everything committed above the cursor, moves it to the commit index and writes nothing |
| DurableNode.DurableRaftNode.RecordAndCompact | crates/rafter-runtime/src/compaction.rs:258-270 | snapshot first, log second; every cut is named, and a failure is a counted failed write |
| DurableNode.DurableRaftNode.CompactLogWithSnapshot | crates/rafter-runtime/src/compaction.rs:122-256 | an undeclared snapshot is given the kernel's configuration; one the kernel refuses, for its boundary, its declaration or its author, writes nothing; success retires exactly the covered prefix; a failed write poisons |
| Reopen.ValidateLog | crates/rafter/src/node/bootstrap/validate/log.rs:12-143 | accepts exactly the logs whose boundary entry carries the boundary's term and the configuration that record and snapshot name, and whose other terms fit, and returns the part above the boundary; what it blames is true |
| Reopen.Bootstrap | crates/rafter/src/node/bootstrap/validate/mod.rs:14-82 | accepts exactly the bootable images and returns the kernel they describe; the reason given for a refusal is true of the image |
| Reopen.BootedIsSane | crates/rafter/src/node/bootstrap/validate/mod.rs:14-102 | whatever the image, a kernel that boots has its indexes in order, its cursor at the boundary, terms it has reached, a vote only in a real term, an admitted author and a recovered configuration |
| Reopen.BootTells | crates/rafter/src/node/construction.rs:36-58 | delivery through the commit index after a boot tells exactly what is committed above the snapshot and the application's floor, in order and once |
| Reopen.SoundImageBoots | crates/rafter/src/node/bootstrap/validate/mod.rs:14-72 | a sound image is bootable if and only if its snapshot's author had seen no later term, the author rule accepts it and its configuration is recovered |
| Reopen.FinishInstall | crates/rafter-runtime/src/construction/hydrate.rs:74-94 | an install cut before promotion is finished with the uninterrupted result, or refused for good if its bytes miss their checksum or its boundary is the last index; anything else is left alone |
| Reopen.FinishCompaction | crates/rafter-runtime/src/construction/hydrate.rs:100-130 | a compaction cut after promotion is finished exactly if the log ends below the boundary; otherwise the log is left as it is; a gap is never found |
| Reopen.Repair | crates/rafter-runtime/src/construction/hydrate.rs:74-130 | both repairs in turn leave a settled image whose log reaches its boundary, equally admissible; refused only if the image is not openable |
| Reopen.ResumeTransfer | crates/rafter/src/node/replication/snapshot/transfer.rs:35-89 | a half-received transfer is resumed and one that a snapshot covers cleared, exactly if the rules recognise its author and its leader; otherwise it is refused |
| Reopen.Open | crates/rafter-runtime/src/construction/hydrate.rs:53-173 | an open keeps history at every cut and, without a failed write that a store counted, succeeds if and only if the image is openable and has committed the floor; it goes on with the kernel the image describes and the transfer it was receiving; wrong staged bytes are refused and left as they are |
| Reopen.Recover | crates/rafter-runtime/src/construction/recover.rs:97-116 | an open followed by a drain tells the host of everything committed above what it holds or can restore from the snapshot, in order and once |
| Reopen.OpenableExactly | crates/rafter-runtime/src/construction/hydrate.rs:53-173 | openable means: a complete waiting transfer has its checksum and the rules admit what it installs; or none waits, the author's term is reached and the rules admit the image; and the boundary is not the last index |
| Reopen.Boot | crates/rafter-runtime/src/construction/hydrate.rs:132-162 | bootstrap, the applied floor and resume succeed, without a failed write, exactly on admissible images that have committed the floor, and give the kernel that the image describes |
| Runs.DoStep | crates/rafter-runtime/src/step.rs:144-205 | the runtime's step is one of the events that runs are made of, with the kernel and the disk it leaves in every outcome; a write failed in it exactly if a store counted one |
| Runs.DoCompact | crates/rafter-runtime/src/compaction.rs:122-163 | so is its compaction |
| Runs.DoDrain | crates/rafter-runtime/src/node.rs:87-90 | so is its drain |
| Runs.DoReopen | crates/rafter-runtime/src/construction/hydrate.rs:53-173 | so is its reopen |
| Serving.Serve | crates/rafter-runtime/src/construction/hydrate.rs:53-173 | any reactions along the cluster's committed history, compactions, drains, crashes and restarts, served by these methods over the three stores, make the run that the requests cause one after the other, with as many failed calls as the stores counted failed writes, and the disk never leaves that history |
| Serving.AppendStays | crates/rafter/src/node/replication/receive.rs:22-183 | an append of a leader's log that confirms what the cluster has committed is allowed, and leaves a node on the committed history on it |
| Serving.ChunkStays | crates/rafter/src/node/replication/snapshot/receive/chunk.rs:13-201 | so is, and does, a chunk of a snapshot of that history |
| Serving.WholeStays | crates/rafter/src/node/replication/snapshot/receive/whole.rs:9-88 | so is, and does, such a snapshot in one message |
| Serving.HandlersReact | crates/rafter/src/node/replication/receive.rs:22-66 | the three handlers are requests that the driver serves, at every node on the history |
| Serving.BatchReacts | crates/rafter-runtime/src/peer_batch.rs:11-15 | two requests handled in one step are such a request |
| Serving.StepCommitCut | crates/rafter-runtime/src/step.rs:163-205 | wherever a step is cut, the disk has committed nothing that the stepped kernel has not |
| Runs.FreshStart | crates/rafter-runtime/src/construction/hydrate.rs:53-173 | a node that has written nothing is a sound start |
| Runs.DurableForever | crates/rafter-runtime/src/step.rs:163-247 | over every run, at every cut, the image is sound and extends every earlier one |
| Runs.CommittedForever | crates/rafter-runtime/src/step.rs:163-247 | an entry once at or below the durable commit index stays unchanged, or lies below a snapshot on the same history |
| Runs.NoGap | crates/rafter-runtime/src/compaction.rs:258-270 | the compacted prefix never passes the snapshot boundary and no committed index is missing |
| Runs.OutputsAreDurable | crates/rafter-runtime/src/step.rs:163-205 | when outputs are released, durable term, vote, commit, configuration, snapshot, staging and log are the kernel's |
| Runs.PoisonSticks | crates/rafter-runtime/src/step.rs:148-152 | after a failed write no step or compaction writes or releases anything until a restart |
| Runs.OneVotePerTerm | crates/rafter-runtime/src/hard_state.rs:10-17 | between any two moves of any two released steps terms never decrease and a vote stands within its term, across crashes |
| ExactlyOnce.ToldSince | crates/rafter/src/node/commit/emit.rs:22-76 | between two points without a restart, what a live node has told is exactly what was committed between its two cursors |
| ExactlyOnce.ToldOrToBeTold | crates/rafter/src/node/construction.rs:60-71 | since a restart, a committed index is covered by its snapshot or its floor, has been told, or is among what a drain would tell |
| ExactlyOnce.HeardExactly | crates/rafter-runtime/src/construction/recover.rs:68-116 | over every run of an application that restarts its node with the index it has reached, what it has heard is the committed history up to there, in order and once, and none of it is ever lost from disk |
| ExactlyOnce.EntriesHeard | crates/rafter-runtime/src/construction/recover.rs:68-116 | entry by entry: everything a live node has passed was heard |
| ExactlyOnce.FloorAlwaysFits | crates/rafter/src/node/construction.rs:116-146 | no restart of such an application is refused for its floor |
| Reopenings.TermAlwaysReached | crates/rafter-runtime/src/construction/hydrate.rs:138-150 | if compactions respect the author's term, so does every image of the run |
| Reopenings.StagingFromHonest | crates/rafter-storage/src/raft_snapshot_store/in_memory.rs:137-162 | if chunks are cut from described payloads, staging is at every cut the beginning of one |
| Reopenings.StepsAreReleased | crates/rafter-runtime/src/step.rs:144-205 | then a step of a sound runtime whose indexes fit fails only if a write fails |
| Reopenings.LocalAuthor | crates/rafter/src/node/log.rs:205-237 | a local snapshot that the kernel accepts passes the author rule of a boot, since what it declares is what its author was judged by |
| Reopenings.AuthorsAlwaysAdmitted | crates/rafter/src/node/bootstrap/validate/mod.rs:82-102 | receiving, compacting and booting agree about authors: no cut of a run holds a snapshot that a boot refuses for its author |
| Reopenings.CompactionDeclares | crates/rafter/src/node/log.rs:205-222 | a local snapshot that the kernel accepts names what its history committed, or nothing, and declares it if the snapshot before did |
| Reopenings.LocalAccepted | crates/rafter/src/node/log.rs:168-238 | a local snapshot is accepted exactly if its boundary is applied and not behind the last, carries the term there, declares the kernel's answers or nothing, and its author is a replica there |
| Reopenings.LocalDeclaresTruth | crates/rafter/src/node/log.rs:205-222 | what it declares is the configuration and the membership that the history had committed at its boundary |
| Reopenings.MembershipsAlwaysTrue | crates/rafter/src/node/membership/view.rs:42-55 | if the snapshots that chunks bring are about the membership of their boundary, so is every snapshot at every cut of every run |
| Reopenings.ConfigAlwaysGood | crates/rafter/src/node/bootstrap/validate/configuration.rs:7-68 | if the snapshots that chunks bring declare what was committed, or nothing, all that disk and kernel know of configurations is true at every cut |
| Reopenings.RecoversExactly | crates/rafter/src/node/bootstrap/validate/configuration.rs:7-68 | then the record is on the committed history at every cut, and an image is refused for its configuration exactly if an undeclared snapshot covers the record |
| Reopenings.AlwaysRecovers | crates/rafter/src/node/bootstrap/validate/configuration.rs:7-68 | if they all declare, every cut of every run recovers exactly the configuration that the committed history of its image has |
| Reopenings.ReopensExactly | crates/rafter-runtime/src/construction/hydrate.rs:53-173 | in a run whose chunks come from replicas' snapshots, are cut from the payloads they describe and declare what was committed or nothing, with respected author terms, every reopen without a failed write succeeds exactly if no undeclared snapshot covers the record, a half-received transfer's leader is recognised, the floor is committed and the boundary is not the last index |
| Reopenings.SameStanding | crates/rafter/src/node/replication/snapshot/validate.rs:148-161 | after a restart the leader of a transfer is judged as the kernel judged it before |
| Reopenings.TransferResumed | crates/rafter-runtime/src/construction/hydrate.rs:152-162 | a half-received transfer goes on after a restart with the same leader, descriptor and bytes |
| LostNodes.UndeclaredSnapshot | crates/rafter/src/node/bootstrap/validate/configuration.rs:32-42 | a concrete run that gets there: a fresh node commits a configuration, stages the last chunk of an undeclared snapshot and crashes before its commit index is written |
| LostNodes.NeverDeclared | crates/rafter/src/node/bootstrap/validate/configuration.rs:32-42 | over a record that an undeclared snapshot covers, down or poisoned, no open succeeds in any continuation of the run |
| Reopenings.AlwaysReopens | crates/rafter-runtime/src/construction/hydrate.rs:53-173 | if chunks always declare, only the standing of a half-received transfer's leader, the floor and the end of the index space decide, and what is recovered is the committed configuration |
| LostNodes.NeverOpensAgain | crates/rafter-runtime/src/construction/hydrate.rs:62-94 | over a complete transfer with a wrong checksum, down or poisoned, no step is released, no compaction done and no open succeeds in any continuation of the run |
| LostNodes.RefusedForGood | crates/rafter-runtime/src/construction/hydrate.rs:62-94 | every step that is refused without a failed write, its indexes fitting, leads there |
| LostNodes.WrongPayload | crates/rafter-storage/src/raft_snapshot_store/in_memory.rs:141-154 | a concrete run that gets there: a fresh node opens, the chunk handler takes a one-byte chunk in, the step stages it and refuses to promote it, and a crash follows |
| LostNodes.CompactionReopens | crates/rafter/src/node/log.rs:168-238 | an accepted compaction can be reopened if and only if the author's term is not beyond the durable one, the boundary is not the last index and the rules admit the image |
| LostNodes.UnbootableCompaction | crates/rafter/src/node/log.rs:168-238 | a concrete accepted compaction that cannot be reopened |
| ReadFloor.FloorIsHighest | crates/rafter-runtime/src/inspect.rs:167-181 | the scan is the highest committed application index at or below the bound, else the capped boundary, and never exceeds its argument |
| ReadFloor.FloorUnique | crates/rafter-runtime-api/src/contract.rs:80-92 | no other value has those properties |
| ReadFloor.FloorMonotone | crates/rafter-runtime-api/src/contract.rs:94-97 | non-decreasing in the index |
| ReadFloor.FloorGrows | crates/rafter-runtime-api/src/contract.rs:94-97 | non-decreasing over any kernel step for a fixed index |
| ReadFloor.FloorCompacts | crates/rafter-runtime-api/src/contract.rs:94-97 | non-decreasing over a local compaction |
| ReadPath.FloorCovers | crates/rafter-runtime-api/src/contract.rs:103-106 | a state applied through the floor has every command at or below the index |
| ReadPath.HistoryDescribes | crates/rafter-runtime-api/src/contract.rs:103-106 | a node whose commit point lies on the cluster's committed history holds its commands, entry by entry as the host decodes them |
| ReadPath.Host.StartRead | crates/rafter-maelstrom/src/client/funnel.rs:210-226 | parks a waiter without a floor |
| ReadPath.Host.Grant | crates/rafter-maelstrom/src/raft.rs:128-141 | records the granted index, resolves the floor once and looks through the reads; what becomes of every read is stated as for any output |
| ReadPath.Host.SetFloor | crates/rafter-maelstrom/src/raft.rs:132-139 | the floor is that of the granted index, the read's key stays, and no other read changes |
| ReadPath.Host.HandleSnapshot | crates/rafter-maelstrom/src/raft/snapshots.rs:25-54 | a readable snapshot is taken over; the reads are looked through once it is saved |
| ReadPath.Host.TurnAway | crates/rafter-maelstrom/src/raft.rs:142-169 | a parked read that is rejected or cancelled, and no other, is removed with an unavailable reply |
| ReadPath.Host.FlushReads | crates/rafter-maelstrom/src/client.rs:252-272 | answers exactly the reads whose floor is reached, from the applied state, and keeps the rest; every answer is fresh |
| ReadPath.Host.HandleApply | crates/rafter-maelstrom/src/app/apply.rs:60-84 | applies in order once, ignores what it cannot decode or has applied |
| ReadPath.Host.HandleOutput | crates/rafter-maelstrom/src/raft.rs:120-198 | what becomes of every read under every output: granted, with its index recorded, it waits or is answered; rejected or cancelled it is told so; otherwise it stays as it was or is answered once its floor is reached; all answers stay fresh |
| ReadPath.Host.HandleOutputs | crates/rafter-maelstrom/src/raft.rs:120-198 | over any list of outputs no read is forgotten, no answer is stale, and none waits whose floor has been reached unless a snapshot could not be saved |
| ReadPath.GrantedAnswered | crates/rafter-maelstrom/src/raft.rs:120-169 | over a list of outputs a granted read that is not turned away is answered exactly once the host has reached the floor of its last grant |
| ReadPath.UnsavedLeavesReady | crates/rafter-maelstrom/src/raft/snapshots.rs:37-53 | only a snapshot that could not be saved leaves a read waiting whose floor has been reached |
| ReadPath.ReadsSeeWrites | crates/rafter-maelstrom/src/app/requests.rs:83-122 | a write is read back, a compare-and-set takes effect exactly on the value it compares with, and other keys stay |
| ReadPath.Host.Advance | crates/rafter-maelstrom/src/raft.rs:78-89 | kernel steps along the committed history never move a waiter's floor out of reach |
| ReadPath.Host.Compact | crates/rafter-maelstrom/src/raft/snapshots.rs:56-103 | nor do compactions |
| ReadPath.NoneLeftWaiting | crates/rafter-maelstrom/src/client.rs:225-272 | a host that has applied all committed application entries and its boundary leaves no granted read waiting |
| ReadPath.AppliesHandled | crates/rafter-maelstrom/src/raft.rs:208-236 | handling what the kernel's delivery hands out up to the commit index brings the host to the boundary or to the last command it can decode |
| ReadPath.WaitsIff | crates/rafter-maelstrom/src/raft.rs:128-141 | on a host that has handled everything a granted read waits if and only if its floor is an entry that cannot be decoded with nothing decodable after it |
| ReadPath.ReadStalls | crates/rafter-maelstrom/src/raft.rs:208-214 | a concrete read that waits |
| LogRetirement.StepKeepsInv | crates/rafter-runtime/src/log_retirement.rs:139-235 | every atomic operation keeps counters equal to outstanding reservations and prefixes in one place |
| LogRetirement.NoUnderflow | crates/rafter-runtime/src/log_retirement.rs:228-235 | a release never wraps |
| LogRetirement.CreditsConserved | crates/rafter-runtime/src/log_retirement.rs:165-235 | under every interleaving the counters are exact and within limits and no prefix is dropped twice or dropped and handed back |
| LogRetirement.DrainedIsZero | crates/rafter-runtime/src/log_retirement.rs:215-226 | after drain and shutdown both counters are zero and every prefix was dropped once or handed back |
| LogRetirement.LetInExactly | crates/rafter-runtime/src/log_retirement.rs:165-203 | a submission is refused exactly where what is outstanding leaves no room for it, or the channel or the worker is gone |
| LogRetirement.FirstInFirstOut | crates/rafter-runtime/src/log_retirement.rs:138-203 | as long as a submission waits, nothing sent after it has been taken |
| LogRetirement.ComesToRest | crates/rafter-runtime/src/log_retirement.rs:138-235 | no interleaving gets stuck: with a live worker and no new calls the pool can come to rest, with every credit returned |
| LogRetirement.CloserToRest | crates/rafter-runtime/src/log_retirement.rs:138-235 | and every operation of a submitter or the worker brings it closer |
| LogRetirement.PanicLeaks | crates/rafter-runtime/src/log_retirement.rs:138-148 | a panicked worker leaves entry credits outstanding |
| LogRetirement.LeakedIffPanicked | crates/rafter-runtime/src/log_retirement.rs:138-235 | a pool at rest misses credits if and only if its worker has panicked |
| LogRetirement.LostForever | crates/rafter-runtime/src/log_retirement.rs:138-235 | no action restarts a panicked worker, and what it lost stays charged in every continuation |
| LogRetirement.PanicReached | crates/rafter-runtime/src/log_retirement.rs:138-148 | a concrete run to a panicked pool at rest |
| Watch.MetricsState.Publish | crates/rafter-service/src/watch.rs:64-76 | publishes and takes the wakers, or nothing when closed |
| Watch.MetricsState.Close | crates/rafter-service/src/watch.rs:79-89 | closes once and takes the wakers |
| Watch.MetricsState.PollChanged | crates/rafter-service/src/watch.rs:128-148 | new snapshot first, end second, otherwise registered once and pending |
| Watch.StepNotLost | crates/rafter-service/src/watch.rs:64-148 | every operation keeps each pending watch woken, about to be woken, or registered with nothing new |
| Watch.NoLostWakeups | crates/rafter-service/src/watch.rs:64-148 | so does every interleaving |
| Watch.DeliveredInOrder | crates/rafter-service/src/watch.rs:128-139 | below the maximum version deliveries are published values in strictly increasing publication order, ending at the version seen |
| Watch.EndComesLast | crates/rafter-service/src/watch.rs:117-139 | a watch that saw the end had been given the last publication |
| Watch.WhereWatchesStart | crates/rafter-service/src/watch.rs:91-99 | a new watch waits for the next publication or is at the end; a clone is offered what its original is |
| Watch.CloseEnds | crates/rafter-service/src/watch.rs:79-89 | closing ends every watch once it has been offered the last snapshot, and nothing is published afterwards |
| Watch.PollExactly | crates/rafter-service/src/watch.rs:128-148 | a poll gives the current snapshot if it was not seen, else the end if there is one, else leaves the watch waiting under its waker |
| Watch.FirstSnapshotArrives | crates/rafter-service/src/watch.rs:64-148 | the first publication reaches a watch created before it |
| Watch.OfferedUnlessSaturated | crates/rafter-service/src/watch.rs:70-72 | a new snapshot is offered if and only if the version could grow |
| PeerBatch.PeerBatchGate.Admit | crates/rafter-runtime/src/peer_batch.rs:59-106 | admits as specified and closes for good otherwise |
| PeerBatch.PeerBatchGate.constructor | crates/rafter-runtime/src/peer_batch.rs:34-51 | the gate is captured at the node's log end with both budgets, and shut exactly if the runtime is poisoned, a configuration is not yet committed or a snapshot is on its way |
| PeerBatch.AdmittedExactly | crates/rafter-runtime/src/peer_batch.rs:59-106 | a message is admitted exactly if the node could take it as it stands and both budgets have room for what it weighs |
| PeerBatch.AdmittedIsPrefix | crates/rafter-runtime/src/peer_batch.rs:11-15 | of any queue exactly a prefix is admitted |
| PeerBatch.WithinBudgets | crates/rafter-runtime/src/peer_batch.rs:94-99 | the admitted messages number and weigh, entry by entry, no more than the two budgets, and what is left is what was not used |
| PeerBatch.OneTermOneLeader | crates/rafter-runtime/src/peer_batch.rs:62-93 | all admitted messages share the captured term, and appends the captured leader |
| PeerBatch.CapturedGateTracks | crates/rafter-runtime/src/peer_batch.rs:35-50 | the captured cursor is the node's log end |
| PeerBatch.BatchEqualsOneByOne | crates/rafter-runtime/src/peer_batch.rs:70-91 | handling the admitted messages one at a time, every gate and commit included, leaves the node that one request with all their entries and the best of their commit indexes leaves |
| PeerBatch.BatchDeliversOneByOne | crates/rafter-runtime/src/peer_batch.rs:70-91 | and the host is handed the same entries in the same order |
| SimSnapshots.SnapshotStores.StageSnapshotChunk | crates/rafter-sim/src/snapshot.rs:48-108 | stages in strict offset order under one descriptor; every breach is reported; other nodes are untouched |
| SimSnapshots.SnapshotStores.TakeInstalledPayload | crates/rafter-sim/src/snapshot.rs:117-167 | promotes exactly a complete matching transfer |
| SimSnapshots.TransferExact | crates/rafter-sim/src/snapshot.rs:44-167 | chunks cut from one payload in order, with restarts, keep staging a prefix and end in exactly the payload, which is promoted if and only if its leader serves it or no longer holds any |
| SimDisk.CrashAfterEachIo | crates/rafter-sim/src/disk_fault.rs:66-125 | one numbered image per write, each the state after that many writes, with its last durable index |
| SimDisk.CrashImagesValid | crates/rafter-sim/src/disk_fault.rs:60-125 | each image of a valid state is valid and the last is the state itself |
| SimDisk.OneWriteMore | crates/rafter-sim/src/disk_fault.rs:66-125 | the first image is term and vote alone, and each next one has one write more: the snapshot, the next entry, the commit metadata |
| SimDisk.Numbered | crates/rafter/src/node/bootstrap/validate/log.rs:12-143 | a log that a kernel accepts is numbered on from its snapshot, or from one |
| SimDisk.LostSuffixValid | crates/rafter-sim/src/disk_fault.rs:127-147 | lost suffixes of a valid state are valid, wherever they are cut |
| SimDisk.TornTailLosesLast | crates/rafter-sim/src/disk_fault.rs:127-147 | a torn tail is valid and loses the last entry and no other, unless the snapshot covers it |
| SimDisk.ReorderValidIff | crates/rafter-sim/src/disk_fault.rs:149-171 | hard state that outran its log is valid if and only if the surviving log covers the commit index |
| SimDisk.InFlightAckFloor | crates/rafter-sim/src/restart.rs:259-277 | the highest acknowledged index among queued successes of the node |
| SimDisk.RestartLossy | crates/rafter-sim/src/restart.rs:221-247 | keeps exactly the entries at or below the floor, which is the greatest of commit, snapshot and the delivered and queued acknowledgements, and the image is valid |

## Left out

- Elections, quorum counting, leader replication and leases: only what they guarantee to one node's log enters, through the guards of the moves.
- Voters, learners and the contents of memberships: a membership is opaque, with a parameter that says who is a replica of it.
- Payload bytes of local snapshots and of the published one: only a transfer's bytes are stored, until its promotion.
- Transfer identifiers: a transfer is identified by its whole descriptor, of which the source's identifier is a digest.
- Leader-side snapshot chunk directives and the streamed form of compaction: they read the snapshot store and write what the modelled forms write.
- ExactlyOnce.HeardExactly: for runs in which no poisoned node is drained; the runtime's drain does not look at the poison flag.
- File formats, fsync and directory handling of the stores: their effect is the set of states a failed write may leave.
- Stores.LogSegment.Append: the end of the 64-bit index space is modelled where the stores refuse it; index arithmetic elsewhere is unbounded.
- The version 1 payload grammar, receive limits, shared frame buffers and UTF-8 validity: the grammar and the UTF-8 test are parameters.
- The answer ledger, reply funnel, deadlines and checkpoint files of the key-value host: replies are recorded, not delivered.
- ReadPath.Host.FlushReads: the order in which ready reads are answered within one flush is not modelled.
- LogRetirement.StepKeepsInv: memory ordering is not modelled; each atomic operation is one step.
- PeerBatch.BatchEqualsOneByOne: stated for indexes that fit in 64 bits, beyond which the gate's cursor saturates; replies to the leader are not compared.
- SimDisk.RestartLossy: the durable application floor and the drained outputs of the restarted node are not modelled.
- Multi-group hosts, planners, metrics structures, transports, benchmarks and fuzz drivers: routing and data carriers.
