# Verified model of the Tickr coordination protocols

A Dafny model of the crash-tolerant protocols in the Tickr CLI, with proofs of what each of them
promises over every input, every interleaving and every crash. `dafny verify dfyconfig.toml`
checks the whole project.

## What is modelled

| module | protocol | form |
|---|---|---|
| `CommandLedger`, `CommandBus`, `CommandBusLaws`, `CommandBusFates`, `CommandBusLimit` | the Redis Command bus script | a ledger without counters; a class that keeps the keys the script keeps and refines the ledger; laws over runs |
| `LogStream` | records, gaps, frontier and terminal of one log stream | functions, and the two loops as methods |
| `LogJournal`, `LogJournalLaws` | the length-framed staging journal | a class over a byte file; runs of calls and crashes |
| `CompactionDrain`, `CompactionDrainLaws`, `CompactionConvergence`, `CompactionGuards` | draining a staged Compaction | one durable effect per step, a crash between any two; the call and the startup loop as methods |
| `CapabilityFence`, `CapabilityFenceLaws`, `CapabilityMonitor` | the capability generation fence and the durable commit under it | a transition system with a history; the monitor as a class |
| `ConditionalSet` | the stable conditional set | a class over an expiring keyspace; runs |
| `QuotaGuard`, `RedisCapacity` | quota scripts, capacity admission, server validation | a class per guard; admission loops as methods |
| `OutboxForwarding` | forwarding staged task events | a transition system of many forwarders |
| `LogPaging`, `AdvisoryWalk` | live-log paging, the npm advisory walk | methods against functions |
| `FormationManifest` | installing and verifying the manifest | a class over a directory; runs of calls and crashes |
| `Basics`, `SortedStrings` | options, results, bytes, sums over maps; sorted lists of strings | |

The `Step`, `Next`, `Crash` and `Run` functions carry the behaviour of the source; the table below
lists the members whose contracts state something about it.

### Results that differ from what one might expect

- The Command bus can exceed its hard byte limit: a configuration is safe exactly when no list of
  correlations leaves room for one more request but not for one of the two replies that the bus writes
  itself. All limits are safe exactly when both replies fit the bytes reserved at admission;
  configuration validation does not check this.
- An accepted log record is replayed exactly once exactly when no hole lies below it; a record above
  a hole is accepted, kept and archived, but not replayed.
- An open fence proves an undisturbed pass exactly while fewer than 2^64 failures were recorded,
  because the generation wraps.
- A conditional set keeps every live identity key with its own fingerprint, and its target with a
  payload of it, exactly when no two mutations clash and no target is another's identity key, but for
  two mutations with swapped keys that store each other's fingerprint. A clash
  is one identity and fingerprint with two targets, or one target under two identities; two identities
  may share a target only with equal fingerprints and a retention of one millisecond. The constructor
  compares the two keys of one mutation only.
- A retry after a lost reply is replayed within its retention exactly when no mutation of the same
  identity and fingerprint has a shorter retention and none stores something else over the identity
  key. The failing input: store for two milliseconds, replay for one, wait one, retry.
- A drainable instance stops being so when its scope passes its age limit before the snapshot; nothing
  is lost then, and every further call fails.
- First sends follow the staged order exactly when rows are staged in that order; two rows with one
  timestamp, staged against their key order, can be sent in the order of staging.
- An offline migration can replace a manifest whose configuration or free descriptor fields changed,
  but never one whose schema, protocol, format, namespace or file identities changed.

### Assumptions

- Redis scripts, SQL transactions and unlinks are atomic, and a rename is atomic at its destination.
  After a crash an installed final log may also have its temporary name back, since only the parent
  of the destination is synced. A rename to quarantine, or of the manifest, that a crash undoes equals
  a crash before it.
- A crash during an append or a write leaves a byte prefix of what was written.
- The clock of the Redis server does not run backwards.
- Lua numbers are exact, that is, limits stay below 2^53.
- SHA-256, JSON and protobuf are uninterpreted functions. Where a result needs it, it states that
  decoding inverts encoding (`RoundTrips`) or that different inputs have different fingerprints
  (`Injective`, `CollisionFree`). The record digest is a function of the record map, whose order is canonical.
- All parties of one bus share one configuration, and a recovery pass is not cancelled half way.
- The descriptor of a formation names each role once.

## Model

| member | source | states |
|---|---|---|
| `CommandBus.Bus.Heartbeat` | src/redis_command_bus.rs:142-147 | drops expired consumer leases, renews one, and keeps every counter and index exact |
| `CommandBus.Bus.RemoveConsumer` | src/redis_command_bus.rs:149-152 | removes one lease and nothing else |
| `CommandBus.Bus.Admit` | src/redis_command_bus.rs:154-219 | all six outcomes in order; the reported counters equal the exact sums over live correlations, and the keys refine the ledger admission |
| `CommandBus.Bus.FileRequest` | src/redis_command_bus.rs:199-218 | one stream entry, one hash, one deadline score and the reservation are filed together; all indexes still agree one to one |
| `CommandBus.Bus.CommitReply` | src/redis_command_bus.rs:114-132 | the reply key replaces the stream entry; request and reservation are released, and all indexes still agree |
| `CommandBus.Bus.ClaimEntry` | src/redis_command_bus.rs:221-266 | missing, conflict, replied, expired, busy and process exactly as the ledger decides them; counters stay exact |
| `CommandBus.Bus.Reply` | src/redis_command_bus.rs:268-302 | missing, replayed, conflict or one committed reply, with an oversized response replaced; counters stay exact |
| `CommandBus.Bus.Cleanup` | src/redis_command_bus.rs:304-353 | cleaned, expired, active or retained; counters stay exact |
| `CommandBus.Bus.Remove` | src/redis_command_bus.rs:342-352 | deletes every key of a replied correlation and lowers the three counters it held |
| `CommandBus.Bus.Deliver` | src/redis_command_bus.rs:752-760 | a stream entry is handed out exactly for an open correlation, with its payload, deadline and digest, and changes no correlation |
| `CommandLedger.UsageAfterWrite` | src/redis_command_bus.rs:126-131 | how one write moves each of the five counters |
| `CommandLedger.UsageWithout` | src/redis_command_bus.rs:349-351 | how one cleanup moves each of the five counters |
| `CommandBusLaws.RunKeepsLimits` | src/redis_command_bus.rs:154-353 | every run keeps the record limit, and the byte limit when both canned replies fit the reservation |
| `CommandBusLimit.NeverOverIffCannotOverrun` | src/redis_command_bus.rs:189-197 | for one fixed configuration: the byte limit holds in every run if and only if no list of correlations within the limits leaves room for one more request but not for a canned reply to it |
| `CommandBusLimit.HardLimitIffCannedRepliesFit` | src/redis_command_bus.rs:189-197 | under all admissible limits the byte limit holds in every run if and only if both canned replies fit the reserved payload size |
| `CommandBusLimit.CommitStaysWithin` | src/redis_command_bus.rs:114-132 | a reply that exceeds the limit is a canned one beside correlations that the condition describes |
| `CommandBusLimit.RunStaysWithin` | src/redis_command_bus.rs:154-353 | a configuration outside the condition keeps the byte limit in every run of admissible requests |
| `CommandBusLimit.Filled` | src/redis_command_bus.rs:154-353 | every list of waiting and answered correlations that leaves room for one more request is reached |
| `CommandBusLimit.OverrunHappens` | src/redis_command_bus.rs:249-252 | beside such a list one more request and its expired or oversized reply exceed the limit |
| `CommandBusLaws.OneReplyPerLifetime` | src/redis_command_bus.rs:268-301 | between admission and cleanup at most one reply is committed, and its bytes, digest and stream entry never change |
| `CommandBusLaws.GrantsNeverOverlap` | src/redis_command_bus.rs:249-266 | `process` is never granted at or after the deadline, after a reply, or inside another owner's unexpired lease |
| `CommandBusLaws.AdmitRetryIsNoOp` | src/redis_command_bus.rs:1060-1077 | an admission retried after it landed changes nothing but expired leases, whatever ran in between without cleaning the correlation |
| `CommandBusLaws.ReplyRetryIsNoOp` | src/redis_command_bus.rs:284-292 | a reply retried after it landed is recognised and changes nothing |
| `CommandBusLaws.CleanupRetryIsNoOp` | src/redis_command_bus.rs:319-322 | a cleanup retried after it landed changes nothing, unless the correlation was admitted again |
| `CommandBusLaws.HousekeepingReturnsAllQuota` | src/redis_command_bus.rs:304-353 | from any state, time and consumer housekeeping alone bring every counter back to zero |
| `CommandBusFates.ValidIffOneByteFits` | src/redis_command_bus.rs:387-413 | the validated settings are exactly those under which an idle bus admits a request of one byte |
| `CommandBusFates.AbsentFate` | src/redis_command_bus.rs:154-219 | an absent correlation appears exactly by an admission with a live consumer, in time and within both limits, and as it was submitted |
| `CommandBusFates.OpenFate` | src/redis_command_bus.rs:221-353 | an open correlation stays; exactly its claimant's reply or its expiry answers it, with exactly which response and retention, and only a grant changes its claim |
| `CommandBusFates.RepliedFate` | src/redis_command_bus.rs:333-352 | a replied correlation goes exactly when its reply was delivered or its retention is over, and never changes |
| `CommandBusFates.ConsumerFate` | src/redis_command_bus.rs:142-152 | a consumer lease changes exactly by its heartbeat, its removal and its end |
| `CommandBusFates.StreamFate` | src/redis_command_bus.rs:199-203 | the stream number moves exactly with an admission |
| `CommandBusFates.AdmitAnswer` | src/redis_command_bus.rs:174-218 | which answer each admission gets |
| `CommandBusFates.ClaimAnswer` | src/redis_command_bus.rs:236-265 | which answer each claim gets; `process` exactly in time and in nobody else's lease |
| `CommandBusFates.ReplyAnswer` | src/redis_command_bus.rs:282-301 | which answer each reply gets; replied exactly for the claimant of an open correlation |
| `CommandBusFates.CleanupAnswer` | src/redis_command_bus.rs:317-352 | which answer each cleanup gets |
| `CommandBusFates.AdmittedAsSubmitted` | src/redis_command_bus.rs:199-213 | over a lifetime a correlation keeps the submitted deadline, digest and stream entry, and its payload until it is answered |
| `CommandBusFates.AnsweredByLastGrant` | src/redis_command_bus.rs:293-301 | an open correlation is answered by a reply exactly when it comes from the owner of the last grant for the admitted stream entry; the stored response is the offered one or the oversized reply, and any other reply changes nothing |
| `CommandBusFates.ReplyIsRetained` | src/redis_command_bus.rs:337-340 | a reply stays byte for byte through its retention, whatever runs short of a delivered cleanup |
| `CommandBusFates.NeverDroppedUnanswered` | src/redis_command_bus.rs:324-336 | an open correlation never disappears: whatever is gone had its reply first |
| `CommandBusFates.HousekeepingSpares` | src/redis_command_bus.rs:326-333 | housekeeping leaves alone every correlation whose deadline or lease is still ahead |
| `CommandBusFates.HeartbeatKeepsAvailable` | src/redis_command_bus.rs:142-147 | a consumer that is not removed keeps the bus available through its lease |
| `LogStream.LatestGapIsNearest` | src/proto/src/coord/log_stream.rs:379-385 | the range lookup yields the nearest gap start at or below a number |
| `LogStream.GapCoveringIffInGap` | src/proto/src/coord/log_stream.rs:379-385 | the lookup finds a gap exactly when one covers the number |
| `LogStream.AdvanceFrontier` | src/proto/src/coord/log_stream.rs:387-407 | the loop computes the advanced frontier, up to the largest 64-bit number |
| `LogStream.AdvanceIsExact` | src/proto/src/coord/log_stream.rs:387-407 | the advanced frontier is exact: everything through it is covered and the next number is not |
| `LogStream.AcceptedKeepsInv` | src/proto/src/coord/log_stream.rs:251-285 | accepting a record keeps records and gaps disjoint and the frontier exact |
| `LogStream.GapKeepsInv` | src/proto/src/coord/log_stream.rs:287-313 | declaring a gap keeps records and gaps disjoint and the frontier exact |
| `LogStream.FullFrontierNeverAdvances` | src/proto/src/coord/log_stream.rs:387-388 | with the frontier at the largest number nothing new is accepted, so its increment never overflows |
| `LogStream.HoleIffEndBeyondFrontier` | src/proto/src/coord/log_stream.rs:409-421 | the hole test compares the frontier with the greatest filed end |
| `LogStream.CleanTerminalIffContiguous` | src/proto/src/coord/log_stream.rs:315-331 | a clean end is refused exactly when something uncovered lies below something covered |
| `LogStream.ReplayRecords` | src/proto/src/coord/log_stream.rs:333-369 | the replay loop yields the contiguous coverage and never meets a hole below the frontier |
| `LogStream.ReplayedExactlyOnceIffContiguous` | src/proto/src/coord/log_stream.rs:333-369 | replayed items tile the numbers up to the frontier; a record is replayed once if and only if everything below it is covered |
| `LogStream.CleanStreamReplaysEverything` | src/proto/src/coord/log_stream.rs:315-331 | once a clean end is admissible every accepted record is replayed exactly once |
| `LogStream.StrandedRecord` | src/proto/src/coord/log_stream.rs:333-337 | a record accepted above a hole is not replayed |
| `LogStream.AcceptOutcome` | src/proto/src/coord/log_stream.rs:251-285 | a record is recorded exactly when the stream is open, it is intact and its own, and its number is not covered; repeated exactly when stored with the same content; and what the new state is |
| `LogStream.AcceptRefusal` | src/proto/src/coord/log_stream.rs:251-285 | which refusal each other record gets |
| `LogStream.GapOutcome` | src/proto/src/coord/log_stream.rs:287-313 | a gap is recorded exactly when it is well formed, its own and covers nothing covered; repeated exactly when stored; and what the new state is |
| `LogStream.TerminalOutcome` | src/proto/src/coord/log_stream.rs:315-331 | the given terminal is recorded once, a clean one exactly on a stream without a hole; repeated exactly when it is the same |
| `LogJournal.LengthRoundTrips` | src/local_log_staging.rs:312-330 | the little-endian length prefix reads back |
| `LogJournal.Recover` | src/local_log_staging.rs:332-390 | the recovery loop over frame offsets, with every error path |
| `LogJournal.ReadableRecovers` | src/local_log_staging.rs:332-403 | from the header, whole admissible frames that replay and an incomplete tail, recovery keeps exactly the frames, and repeating it changes nothing |
| `LogJournal.RecoversIffReadable` | src/local_log_staging.rs:332-403 | for any bytes at all, the journal opens exactly when they are empty or of that form |
| `LogJournal.RecoveryCutsTheTornTail` | src/local_log_staging.rs:332-403 | for every frame list and every proper prefix of one more frame: frames that replay are recovered exactly, the file is cut to exactly their bytes and a second recovery changes nothing; others are refused with the error of the first that does not replay |
| `LogJournal.TornHeaderIff` | src/local_log_staging.rs:332-357 | a partly written header is repaired exactly when it is empty or whole |
| `LogJournal.StagingStream.AppendFrame` | src/local_log_staging.rs:312-330 | a frame within the size limit is appended whole, another not at all |
| `LogJournal.StagingStream.Accept` | src/local_log_staging.rs:249-258 | validate, append, then install the new state; a failure leaves both as they were |
| `LogJournal.StagingStream.DeclarePreAcceptanceGap` | src/local_log_staging.rs:261-271 | the same for a gap |
| `LogJournal.StagingStream.FinishCleanly` | src/local_log_staging.rs:274-284 | the same for a clean end |
| `LogJournal.StagingStream.RecoverAbnormalClosure` | src/local_log_staging.rs:288-300 | records the frontier as an abnormal end, once |
| `LogJournal.StagingStream.Seal` | src/local_log_staging.rs:125-141 | seals a terminal stream once, and again only with the same digest |
| `LogJournalLaws.PlanReplays` | src/local_log_staging.rs:405-437 | the frame a call appends replays to exactly the state the call installs |
| `LogJournalLaws.CrashKeepsGood` | src/local_log_staging.rs:332-437 | a crash at any byte of an append reopens to the state before it or after it |
| `LogJournalLaws.EveryRunIsGood` | src/local_log_staging.rs:125-437 | over every run of calls and crashes the state in memory is the fold of the journal, reopening never fails, and nothing reported accepted is missing |
| `LogJournalLaws.ReplayableFollowsGrammar` | src/local_log_staging.rs:405-437 | frames are records and gaps, then at most one terminal, then at most one seal |
| `LogJournalLaws.AcceptedRecordsSurvive` | src/local_log_staging.rs:249-437 | a record reported accepted has exactly one frame after any run, and is replayed exactly once if and only if no hole lies below it |
| `LogJournalLaws.OpenedIsSound` | src/local_log_staging.rs:332-437 | whatever bytes are on the disk, a journal that opens gives a stream with its invariant, sealed only with the digest of its records, and opens again as it was left |
| `LogJournalLaws.AcceptAnswer` | src/local_log_staging.rs:249-258 | on every reachable stream, which answer each record gets |
| `LogJournalLaws.GapAnswer` | src/local_log_staging.rs:261-271 | on every reachable stream, which answer each gap gets |
| `LogJournalLaws.EndAnswers` | src/local_log_staging.rs:274-300 | on every reachable stream, which answers a clean end, an abnormal end and a seal get |
| `LogJournalLaws.CleanEndSurvives` | src/local_log_staging.rs:274-284 | after a clean end is reported, over any calls, crashes and reopens, the stream ends with exactly that exit, the same call is already done, and every other end, record and gap is refused |
| `LogJournalLaws.AbnormalEndSurvives` | src/local_log_staging.rs:288-300 | an abnormal end names the exact extent of the coverage, for good |
| `CompactionDrainLaws.TaskIdsBound` | src/local_compaction.rs:432-452 | an inventory as long as its set of task instances repeats none |
| `CompactionDrainLaws.NextKeepsInv` | src/local_compaction.rs:196-411 | every durable effect keeps the drain invariant; only a rename installs a file, and files are installed in order |
| `CompactionDrainLaws.CrashKeepsInv` | src/data_directory.rs:655-678 | a crash leaves at worst a prefix of the next temporary file, and old names of installed ones |
| `CompactionDrainLaws.AgeKeepsInv` | src/migrations/src/scope_repository.rs:1235-1241 | a scope that grows too old before its snapshot costs no data |
| `CompactionDrainLaws.FinalFilesAreKept` | src/local_log_staging.rs:530-571 | an installed final file is never overwritten or removed, over any run |
| `CompactionDrainLaws.InstalledPassesVerify` | src/local_log_staging.rs:146-228 | what installation returns passes verification, and the files decode to the sealed records and terminal |
| `CompactionDrainLaws.CommittedStreamIsArchived` | src/local_compaction.rs:254-303 | once the archive is committed every stream of the inventory has both final files in place and verifying |
| `CompactionDrainLaws.NoRunLosesData` | src/local_compaction.rs:196-411 | over every sequence of effects, crashes and ageing: each journal is whole or archived with verifying files, the scope is whole, quarantined whole or archived, at most one archive and only the right one, journals go after the scope and staging goes last |
| `CompactionConvergence.EffectAdvances` | src/local_compaction.rs:153-411 | every effect brings the call closer to its end, or fails it; a failure of an instance that can finish uses up a stale or torn temporary file |
| `CompactionConvergence.DrainConvergesIffDrainable` | src/local_compaction.rs:153-411 | after any run, enough crash-free effects purge everything with exactly one archive and at most one failed call per leftover temporary file, if and only if the instance was drainable and its scope is snapshotted or still young |
| `CompactionConvergence.DrainNext` | src/local_compaction.rs:153-194 | one call ends; it succeeds exactly when it purges, and fails an instance that can finish only over a stale or torn temporary file, which it removes |
| `CompactionConvergence.SelectForDrain` | src/migrations/src/compaction_repository.rs:109-112 | the instance that is not purged and comes first by staging time and identifier, if there is one |
| `CompactionConvergence.StartupDrain` | src/lite_supervisor.rs:243-247 | the startup loop ends: everything purged, or stopped at the first failing instance with all older ones purged and all others as they were |
| `CompactionGuards.VerifiesIffWhole` | src/local_log_staging.rs:192-228 | with a collision-free digest, verification accepts exactly the two files that were installed |
| `CompactionGuards.FilesAreCheckedAtTheEffect` | src/local_log_staging.rs:233-247 | over any effects, crashes and changes of the files by others: a journal goes only in an effect that finds both final files to hold exactly its records and end, and a file is installed only for a sealed journal |
| `CompactionGuards.PassesIffInstalled` | src/local_log_staging.rs:530-552 | a file passes exactly when it is in place as sealed and no temporary lies beside it |
| `CompactionGuards.TemporariesAreKept` | src/local_log_staging.rs:553-606 | in any state, no effect destroys a temporary file: it stays, is installed or joins the quarantine |
| `CompactionGuards.CommitsOnce` | src/local_compaction.rs:264-303 | in any state, the archive is committed exactly from a staged record with a valid date, and completes it |
| `CompactionGuards.CleansIffVerified` | src/local_compaction.rs:325-374 | in any state, cleanup begins exactly when the payload, the inventory, the snapshot and every final file match the archive |
| `CapabilityFenceLaws.GateKeeps` | src/redis_capability_monitor.rs:670-683 | after the probes the fence is open or closed, never reconstructing, so the third branch of the gate is dead |
| `CapabilityFenceLaws.StepKeepsInv` | src/redis_capability_monitor.rs:622-740 | every step of a pass, a reporter, a registration or a commit keeps the fence invariant |
| `CapabilityFenceLaws.FenceIsSound` | src/redis_capability_monitor.rs:622-740 | in every reachable state: reconstructing only under a rebuilding pass; open only after a complete pass begun at this generation, with no failure since it began when fewer than 2^64 were recorded |
| `CapabilityFenceLaws.WrappedFence` | src/redis_capability_monitor.rs:733-740 | a run with 2^64 failures during the probes after which the fence opens |
| `CapabilityFenceLaws.FenceSoundIffBelowWrap` | src/redis_capability_monitor.rs:737 | the fence may be trusted through n failures if and only if n is below 2^64 |
| `CapabilityFenceLaws.AcknowledgedCommitIsDurable` | src/redis_command_bus.rs:1051-1077 | a commit that returned Ok was admitted after a complete pass at its generation, its script ran, a local fsync of at least one was proved after it, and no failure was recorded from the start of that pass to the acknowledgement |
| `CapabilityFenceLaws.UndisturbedPassOpens` | src/redis_capability_monitor.rs:622-711 | a pass whose probes and reconstructions succeed undisturbed opens a closed fence at its own generation |
| `CapabilityFenceLaws.PassAnswers` | src/redis_capability_monitor.rs:622-711 | a bad probe or reconstruction closes the fence and ends the pass; a good one changes nothing about the fence, and an open fence stays open through a good pass |
| `CapabilityFenceLaws.PassEnds` | src/redis_capability_monitor.rs:636-711 | a pass that has its roles ends within a number of its own steps, whatever it is answered and whatever happens between them |
| `CapabilityFenceLaws.CommitSucceedsIff` | src/redis_durability.rs:268-346 | from an open fence, undisturbed, a commit succeeds exactly when Redis answers with a reply and a fsync of at least one, at once or after one lost reply and a recovery read without conflict; every other answer fails it and closes the fence |
| `CapabilityFenceLaws.AdmissionIffOpen` | src/redis_capability_monitor.rs:72-80 | a commit is admitted exactly by an open fence, at its generation |
| `CapabilityFenceLaws.MovedFenceRefuses` | src/redis_command_bus.rs:480-487 | a commit is refused at its acknowledgement exactly when the fence closed or moved, without closing anything |
| `CapabilityMonitor.Monitor.RegisterRole` | src/redis_capability_monitor.rs:522-551 | a role registers once; a duplicate is refused and changes nothing |
| `CapabilityMonitor.Monitor.ReportFailure` | src/redis_capability_monitor.rs:399-404 | any report closes the fence and moves the generation |
| `CapabilityMonitor.Monitor.ProbeRoles` | src/redis_capability_monitor.rs:644-668 | succeeds exactly when both probes of every role pass, and fails by closing the fence |
| `CapabilityMonitor.Monitor.RebuildRoles` | src/redis_capability_monitor.rs:685-700 | succeeds exactly when every reconstruction passes, and fails by closing the fence |
| `CapabilityMonitor.Monitor.RunOnce` | src/redis_capability_monitor.rs:622-711 | an undisturbed pass succeeds exactly when base, probes and, from a closed fence, reconstructions pass; success means open at the same generation, failure closed at the next |
| `ConditionalSet.Server.Eval` | src/redis_durability.rs:13-26 | applied, replayed or conflict; a conflict changes nothing |
| `ConditionalSet.StoreKeepsGood` | src/redis_durability.rs:13-26 | one stored mutation keeps every identity key owned and backed, whichever keys the two share |
| `ConditionalSet.RunKeepsInv` | src/redis_durability.rs:13-191 | without clashes and foreign writes to identity keys, every run keeps every live identity owned and backed |
| `ConditionalSet.ClashBreaks` | src/redis_durability.rs:13-26 | two clashing mutations in a row leave a live identity without its target |
| `ConditionalSet.SharedKeyBreaks` | src/redis_durability.rs:113-121 | a mutation whose target is another's identity key leaves that key with a foreign value, or without its target |
| `ConditionalSet.SeparateMeansSeparateKeys` | src/redis_durability.rs:113-121 | the key condition is plain separation of identity and target keys, where no payload is the fingerprint of its own fingerprint |
| `ConditionalSet.SoundIffClashFreeAndSeparate` | src/redis_durability.rs:13-191 | for every set of admissible mutations, over every mix of attempts and expiry: every live identity key holds a fingerprint of its own and its target a payload of it until the same time, if and only if no two mutations clash and no target is another's identity key, but for two mutations with swapped keys that store each other's fingerprint |
| `ConditionalSet.StoredHasLanded` | src/redis_durability.rs:13-26 | an attempt that does not conflict, first or retried, stores payload and fingerprint for the whole retention |
| `ConditionalSet.RetryReplayedIffKept` | src/redis_durability.rs:291-307 | from every state in which an attempt landed, every retry within the retention is replayed whatever others do, if and only if no mutation renews the identity for a shorter time or stores something else over it |
| `ConditionalSet.RetryOfStoredIffKept` | src/redis_durability.rs:291-307 | the same after one given attempt; where no target is the identity key, if and only if no mutation of this identity and fingerprint has a shorter retention |
| `ConditionalSet.ShorterReplayBreaks` | src/redis_durability.rs:13-26 | a replay with a shorter retention lets the identity expire before the retry |
| `ConditionalSet.OverwriteBreaks` | src/redis_durability.rs:13-26 | a write over the identity key makes the retry conflict, or apply again |
| `QuotaGuard.Guard.Accept` | src/redis_capacity.rs:782-802 | accept, replay, fence or conflict; the counter stays the exact sum within the limit, and the negative branch is never taken |
| `QuotaGuard.Guard.ReleaseAtBoundary` | src/redis_capacity.rs:804-817 | released, missing or refused; refused exactly for a different number of units |
| `QuotaGuard.Guard.Audit` | src/redis_capacity.rs:819-830 | the audit loop compares with the exact sum in any order, and always succeeds on a valid guard |
| `QuotaGuard.AcceptKeepsExact` | src/redis_capacity.rs:782-802 | fenced exactly when a new identity would push the exact sum over the limit |
| `QuotaGuard.RunKeepsExact` | src/redis_capacity.rs:782-817 | every run keeps the counter exact and bounded and conserves units |
| `QuotaGuard.ReleaseUndoesAccept` | src/redis_capacity.rs:782-817 | after an accept, whatever was called short of the matching release: a retry replays, other units conflict and are refused, and the matching release frees exactly those units |
| `QuotaGuard.AcceptOutcome` | src/redis_capacity.rs:782-802 | which answer each accept gets, and that exactly an accepted identity is added with its units |
| `QuotaGuard.ReleaseOutcome` | src/redis_capacity.rs:804-817 | which answer each release gets, and that exactly a released identity goes |
| `QuotaGuard.HeldIffAcceptedAndNotReleased` | src/redis_capacity.rs:782-817 | over every run an identity is held with some units exactly when a call accepted it, new and fitting, with those units and none released it since |
| `RedisCapacity.CheckedTotal` | src/redis_capacity.rs:253-256 | the checked fold is the sum, or nothing exactly on overflow |
| `RedisCapacity.Tabulate` | src/redis_capacity.rs:233-251 | succeeds exactly on one in-bounds limit per role, and otherwise names the first fault |
| `RedisCapacity.Admit` | src/redis_capacity.rs:225-272 | succeeds exactly when the list has one in-bounds limit per role and sum plus reserve fits; the overflow error is unreachable |
| `RedisCapacity.AdmissionIsMonotone` | src/redis_capacity.rs:257-264 | more capacity never turns an admitted list away, despite floor division |
| `RedisCapacity.DefaultsTotal1400MiB` | src/redis_capacity.rs:45-151 | the thirteen defaults add up to 1400 MiB |
| `RedisCapacity.DefaultsAreOnePerRole` | src/redis_capacity.rs:290-301 | the defaults are one in-bounds limit per role |
| `RedisCapacity.DefaultCandidateThreshold` | src/redis_capacity.rs:290-301 | the default candidate is admitted exactly from 1 545 269 894 bytes on |
| `RedisCapacity.Reserve` | src/redis_capacity.rs:257-258 | the share of the capacity, rounded down, and never less than the minimum |
| `RedisCapacity.ServerAcceptedIffRoom` | src/redis_capacity.rs:303-326 | a server is accepted exactly when policy and capacity match and usage, role sum and reserve fit; checked addition refuses none that fits |
| `RedisCapacity.GuardsLeaveTheReserve` | src/redis_capacity.rs:303-326 | after validation, guards within the role limits never together consume the reserve, over every run |
| `AdvisoryWalk.ResolvedAdvisories` | scripts/npm_audit_gate.py:56-68 | the recursive loop with a copied seen set ends on every graph and computes the walk |
| `AdvisoryWalk.WalkIffReachable` | scripts/npm_audit_gate.py:56-68 | the walk returns exactly the advisories reachable from the package, cycles included |
| `AdvisoryWalk.FindingsOf` | scripts/npm_audit_gate.py:75-91 | exactly the problems of one package |
| `AdvisoryWalk.Collect` | scripts/npm_audit_gate.py:71-91 | exactly the problems of all listed packages |
| `AdvisoryWalk.Printed` | scripts/npm_audit_gate.py:76-92 | the problems as sorted lines without duplicates |
| `AdvisoryWalk.Findings` | scripts/npm_audit_gate.py:71-92 | exactly the sorted lines of all problems; none exactly when every package reaches an advisory and every reached one has a matching unexpired exception |
| `OutboxForwarding.SelectionFindsPending` | src/migrations/src/task_pickup_repository.rs:955-967 | selection finds a row exactly when one is pending |
| `OutboxForwarding.ForwardingIsFaithful` | src/local_task_pickup_writer.rs:560-579 | with any forwarders and crashes: a marked row was sent, every message is its row unchanged, and an earlier row known at the selection went out before |
| `OutboxForwarding.EarlierRowsGoFirst` | src/migrations/src/task_pickup_repository.rs:955-967 | of two rows known at a selection the one staged earlier is sent first; of two staged at once the one with the smaller dispatch, generation and kind |
| `OutboxForwarding.ForwarderKeepsItsRow` | src/local_task_pickup_writer.rs:560-609 | a forwarder holds on to the row and bytes it selected until it sends and marks them, whatever the others do |
| `OutboxForwarding.OneRound` | src/local_task_pickup_writer.rs:560-579 | an undisturbed round sends the oldest pending row and marks it |
| `OutboxForwarding.RoundsForwardAll` | src/local_task_pickup_writer.rs:560-579 | rounds of one forwarder send and mark every pending row |
| `OutboxForwarding.OrderlyIffStagedInOrder` | src/migrations/src/task_pickup_repository.rs:955-967 | whatever the forwarders do, first sends follow the staged order if and only if the rows were staged in that order |
| `LogPaging.Read` | src/lite_supervisor.rs:1193-1247 | batch i of a final log has the number and bytes of record i; a staged stream shows exactly the accepted records below which nothing is missing; in rising order, with the marker that each terminal gives |
| `LogPaging.Retain` | src/lite_supervisor.rs:1276 | keeps exactly the admitted batches, in order |
| `LogPaging.FetchTail` | src/lite_supervisor.rs:1284-1305 | the last page below the bound as a slice of the log, with its marker |
| `LogPaging.WalkBack` | src/lite_supervisor.rs:1284-1305 | walking back by the first sequence of each page visits every batch exactly once, for any page size of at least one |
| `LogPaging.FetchAfter` | src/lite_supervisor.rs:1268-1282 | the batches above a sequence, with the marker |
| `LogPaging.FollowingMissesNothing` | src/lite_supervisor.rs:1268-1282 | what is fetched after the last batch seen is exactly what is new |
| `SortedStrings.Canonical` | src/formation_manifest.rs:95-112 | sorted, without duplicates, and the same strings |
| `SortedStrings.CanonicalIffSameElements` | src/formation_manifest.rs:95-112 | two lists have the same canonical form exactly when they hold the same strings |
| `FormationManifest.SpecIgnoresFileOrder` | src/formation_manifest.rs:63-126 | file order and duplicates change neither the spec nor the error, and nothing else about the files is forgotten |
| `FormationManifest.SpecAcceptedIff` | src/formation_manifest.rs:63-126 | exactly which arguments make a spec, and that it requires exactly the listed files |
| `FormationManifest.Directory.WriteTemporary` | src/formation_manifest.rs:428-458 | the temporary file holds all the bytes |
| `FormationManifest.Directory.Rename` | src/data_directory.rs:655-668 | whatever the temporary file holds takes the place of the manifest |
| `FormationManifest.Directory.InstallOrVerify` | src/formation_manifest.rs:245-269 | decide, write the temporary, rename over, read back; the result and the directory are those of the call |
| `FormationManifest.RuntimeNeverWrites` | src/formation_manifest.rs:252-279 | a Runtime check writes nothing, finished or cut short, and succeeds only as Verified |
| `FormationManifest.OkThenVerified` | src/formation_manifest.rs:245-269 | after any Ok a Runtime check with the same spec returns Verified and changes nothing |
| `FormationManifest.VerifiedMeansExpected` | src/formation_manifest.rs:281-326 | Verified means the stored manifest equals the expected one in every field |
| `FormationManifest.ReplacedKeepsIdentities` | src/formation_manifest.rs:281-354 | a replacement keeps migration, protocol, format, namespace and file identities and changes something else |
| `FormationManifest.ManifestIsAlwaysWhole` | src/data_directory.rs:636-678 | over any calls and crashes the manifest is the old one or the whole new one of an authorized call |
| `FormationManifest.UnauthorizedNeverWrites` | src/formation_manifest.rs:271-279 | over any calls and crashes, neither a Runtime check nor an unproved empty frontier changes anything on the disk |
| `FormationManifest.InstalledIff` | src/formation_manifest.rs:252-260 | the first manifest is installed exactly by a migration or a proved empty frontier, over the required files, when it fits |
| `FormationManifest.InstallationIsComplete` | src/formation_manifest.rs:252-279 | a finished installation changes the manifest and nothing else on the disk |
| `FormationManifest.VerifiedIff` | src/formation_manifest.rs:261-264 | a check verifies exactly when the stored manifest is the expected one and the required files are there |
| `FormationManifest.ReplacedIff` | src/formation_manifest.rs:261-269 | a manifest is replaced exactly by who may write, when the stored one is in order, agrees on every identity and differs |
| `FormationManifest.RefusalReason` | src/formation_manifest.rs:253-279 | why a call that may not write is refused |
| `FormationManifest.DisagreementReason` | src/formation_manifest.rs:281-326 | which disagreement with the stored manifest is reported |
| `FormationManifest.SameProtocolsIff` | src/formation_manifest.rs:328-354 | role protocols agree exactly when profile and number of roles do and every expected record is stored |

## Left out

- Admission of a Command after its correlation was cleaned: reply retention is shorter than the mutation timeout, so a late retry can run a Command again; the retry laws carry this as a condition.
- `request`, `process_entry` and claim renewal of the Command bus: polling loops around the modelled script; a handler that outlives its deadline is not claimed to complete.
- Consumer groups, `XPENDING` and `XAUTOCLAIM`: redelivery is any claim by any owner at any time.
- Soft limits and quota pressure of the bus and the guards: reporting only.
- Double-precision rounding in Lua beyond 2^53.
- Further appends on the same handle after a failed append, and repair of a torn journal header: the code repairs neither.
- The terminal record that replay appends last appears in `LogPaging.Read` only, as its marker; `rebuild_log_streams` is not modelled.
- `stage_for_relay` and its acknowledgements: one idempotent insert.
- A supervisor start over a half-installed final log, which fails before it drains.
- Quarantined temporaries are kept as a list of contents, without their file names.
- Several instances drained at the same time: the writer drains one at a time.
- Cancellation of a recovery pass, and the failure projections shown in diagnostics.
- The earlier of the two admission checks in the monitored capability, which can only refuse.
- CompactionDrain, CapabilityFence and OutboxForwarding are transition functions on values, because crashes and other parties fall between their effects; update in place inside one effect is not captured there. `DrainNext`, `StartupDrain` and `Monitor` are the sequential forms.
- Argument validation of quota calls (empty identity, zero units, wrong cleanup boundary): refused before the script runs.
- Timeouts as durations: a timeout is a lost reply.
- Cancellation acknowledgements in the outbox: the same select, send and mark steps as task events.
- ACL admission, TLS, credentials, process guardian, HTTP, console, tenant commands and the other repository gates: input and output or wiring.
